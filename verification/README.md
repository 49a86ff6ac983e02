# Verification of the Grebe sample pipeline

Grebe moves 16-bit waveforms at high rates: a source tiles a stored period into frames, queues and
lock-free rings carry the frames between threads, decimators reduce every bucket of samples to a
smallest and a largest value, and a display stage shows a window of the recent past. This project
models that machinery in Dafny 4.11 and proves what each part promises, up to four chains that span
several components:

1. **Envelope chain.** `SyntheticSource` tiles, `SimdMinMax` decimates eight lanes at a time, and
   `EnvelopeVerifier` decides with monotonic deques, a sorted set of packed pairs, a cache and a
   nine-neighbour search whether the result is a legal envelope. `EnvelopeChain` proves that every
   frame verifies completely, for all periods and phases, exactly when frames are longer than the target;
   `RuntimeEnvelope` carries this through the threaded runtime to every frame that is polled.
2. **Transport inside the process.** `RingBuffer` and `SpscRing` treat the lock-free ring, one call at
   a time and as an interleaving of loads, copies and publishing stores, and `SpscProgress` shows that its
   calls are wait-free. `InProcessQueue`,
   `QueueWaiting`, `QueuePolicies`, `LinearRuntime` and the `Runtime...` modules treat bounded queues,
   condition variables, worker threads, losses, the end of a stream and the stop sequence.
3. **Coordinator and workers.** `DrainHistory`, `ChannelAssignment`, `GenerationBarrier`,
   `BarrierRounds` and `BarrierProgress` treat `DecimationThread`: the sliding history, the round-robin assignment, the
   32-bit generation counter used as a barrier, and the gather compared with the single-threaded path.
4. **Fast forms of simple definitions.** The bounded display history against an unbounded one
   (`Visualization...`), what it shows in terms of the input alone and what two decimations preserve
   (`DisplayedWindow`, `LatestDisplay`, `Peaks`), the compute shader's reduction (`GpuMinMax`,
   `GpuEquivalence`), LTTB in exact arithmetic and in integers (`Lttb`, `LttbIntegers`), frame ownership
   (`FrameOwnership`) and the framed byte stream over a pipe, byte by byte, one call at a time and with
   both ends interleaved (`WireFormat`, `WireLayout`, `PipeTransport`, `PipeInterleaving`).

Conventions: samples are bounded integers (`int16`), sizes are `nat`, rates and spans are exact
reals. Objects that the program updates in place are classes; threads are small-step machines whose
events interleave arbitrarily, and a property "in every reachable state" is a lemma over all event
sequences. `dafny verify dfyconfig.toml` checks the whole project.

What the proofs found out about the code:

- Frames no longer than the target are passed through undecimated and can then fail the envelope check
  (`EnvelopeChain.VerifiesIffDecimated`).
- The generation counter is 32 bits wide and workers wait for it to exceed the last value they saw.
  Signal number 2^32 makes it zero, after which nobody can move (`GenerationBarrier.CycleProgresses`),
  and that state is reached (`BarrierProgress.WrapIsReached`).
- With a positive target too small for its mode, the gather writes zeros where the single-threaded
  path writes nothing; the exact condition is in `ChannelAssignment.GatherEqualsSinglePass`.
- A shut-down queue still accepts a frame while it is not full or when it drops the oldest; only
  producers that slept are always refused, and `total_dropped` does not count refusals after shutdown
  (`QueueWaiting.ShutdownStillAccepts`, `QueueWaiting.AlwaysInv`).
- The shader's strided index fits 32 bits exactly for buckets of at most 2^32 - 256 samples
  (`GpuMinMax.IndexFitsIff`).
- Behind a lossy queue, a stage that keeps state can emit frames that the lossless pipeline would not
  emit at all (`RuntimeOrderExact.MemoryMatters`). Polled frames are always in source order if and only
  if the stage turns subsequences into subsequences (`RuntimeOrderExact.InOrderIffMonotone`).
- Widening the visible span to more than double asks for samples that the display stage has already let
  go (`VisualizationSpans.WideningCanDiffer`). A run of calls shows what unlimited history would
  show if and only if at each of them a whole window is left, or nothing of the shortest channel was lost
  (`VisualizationSpans.CallsAgreeIff`).

## Model

| member | source | states |
|---|---|---|
| `EnvelopeChain.EnvelopeIsComplete` | apps/viewer/envelope_verifier.cpp:91-141 | for every period, phase, frame length above the target and target of at least 2, all target/2 buckets of the decimated frame are legal for the bucket sizes that verify looks up |
| `EnvelopeChain.VerifiesIffDecimated` | apps/viewer/profiler.cpp:81-105 | with n of at least 2 and target of at least 2, every period at every phase verifies completely if and only if n exceeds the target |
| `EnvelopeChain.PassthroughFails` | src/decimator.cpp:85 | for every shorter frame, the period (10, 0) is a signal whose passed-through frame does not verify |
| `EnvelopeChain.BucketIsLegal` | src/decimator.cpp:95-97 | the pair of each bucket is within one bit of the extent of a cyclic window of size floor(n/k) or one more |
| `EnvelopeChain.StretchIsWindow` | src/synthetic_source.cpp:219-227 | every stretch of a tiled frame is a cyclic window of the period starting inside it |
| `EnvelopeChain.CheckFrames` | doc/TODO.md:273 | tiling source, SIMD decimator and verifier run together: any number of successive frames of any length above the target all give matched = total and a match rate of 1 |
| `RuntimeEnvelope.PolledFramesVerify` | doc/TODO.md:273 | whatever queues, policies and interleaving of source, decimation stage, poller and stop: if the source produced tiled frames longer than the target, every channel of every polled frame verifies completely |
| `RuntimeEnvelope.SourceFramesAreTiled` | src/synthetic_source.cpp:210-228 | the frames that the source tiles are tiled frames in that sense, every channel a stretch of its own period |
| `SyntheticSource.SyntheticSource.ReadFrame` | src/synthetic_source.cpp:158-237 | a source that is started and not paused installs new periods exactly when rate, frequency or a waveform in use has changed, returns 4096 or 65536 samples per channel, tiled in channel-major order with every phase advanced, or generated with every phase kept if some channel chirps, and numbers the frame; otherwise nothing changes |
| `SyntheticSource.SyntheticSource.ReadTiled` | src/synthetic_source.cpp:215-228 | the tiling branch returns the next batch of every channel in channel-major order and advances every phase by it |
| `SyntheticSource.SyntheticSource.Refresh` | src/synthetic_source.cpp:179-206 | afterwards the periods are those of the rate, frequency and waveforms in force, rebuilt only if one of them differed |
| `SyntheticSource.SyntheticSource.Rebuild` | src/synthetic_source.cpp:93-156 | every channel gets the period of the given settings, at its old phase rescaled into the new period, and the settings are recorded |
| `SyntheticSource.TileChannel` | src/synthetic_source.cpp:219-227 | the chunked copy loop produces exactly the cyclic window of the period from the current phase, and the phase after it |
| `SyntheticSource.TileAll` | src/synthetic_source.cpp:216-228 | the channel loop lays the tilings of all channels one after another and advances each of them |
| `SyntheticSource.RescaledPos` | src/synthetic_source.cpp:145-148 | the rescaled phase lies inside the new period |
| `SyntheticSource.PhaseIsKept` | src/synthetic_source.cpp:145-148 | in integers: p * oldLen <= oldPos * newLen < (p + 1) * oldLen for the rescaled position p, so the phase is rounded down to a sample, and an unchanged length changes nothing |
| `SyntheticSource.WindowSplit` | src/synthetic_source.cpp:220-227 | two successive windows of a tiling join into one window |
| `SyntheticSource.FramesAreOneTiling` | src/synthetic_source.cpp:215-228 | whatever the frame lengths, the concatenated frames of a channel are one unbroken tiling of its period |
| `Decimator.BucketsTile` | src/decimator.cpp:41-43 | for k at most n, every index lies in exactly one bucket |
| `Decimator.BucketSize` | src/decimator.cpp:42-43 | every bucket has floor(n/k) samples or one more |
| `Decimator.BucketInside` | src/decimator.cpp:42-43 | for k at most n, every bucket is a non-empty range inside the input |
| `Decimator.MinMaxScalar` | src/decimator.cpp:30-59 | the scalar loop returns the MinMax value for every input and target, including the two early returns |
| `Decimator.MinMaxPair` | src/decimator.cpp:48-55 | entries 2b and 2b+1 are the smallest and the largest sample of bucket b |
| `Decimator.MinMaxIs` | src/decimator.cpp:30-59 | nothing below two points, the input itself up to the target, otherwise the smallest and largest sample of each slice from b*n/k to (b+1)*n/k |
| `Decimator.MinMaxUnique` | src/decimator.cpp:30-59 | no other output meets that description |
| `Decimator.MinMaxLength` | src/decimator.cpp:31-36 | the output length depends on input length and target only |
| `Decimator.MinMaxKeepsExtent` | src/decimator.cpp:41-56 | with a target of at least 2, input and output have the same smallest and largest sample |
| `SimdMinMax.HMinIsLeast` | src/decimator.cpp:64-72 | the three shuffle-and-compare steps return the least of eight lanes |
| `SimdMinMax.HMaxIsGreatest` | src/decimator.cpp:75-80 | the three shuffle-and-compare steps return the greatest of eight lanes |
| `SimdMinMax.AbsorbMin` | src/decimator.cpp:108-111 | comparing eight samples into the accumulator keeps its horizontal minimum the minimum of everything seen |
| `SimdMinMax.AbsorbMax` | src/decimator.cpp:108-111 | the same for the maximum |
| `SimdMinMax.ReduceBucket` | src/decimator.cpp:99-135 | the 16-wide loop, the 8-wide loop, the reduction and the scalar tail together give the extent of the bucket |
| `SimdMinMax.MinMaxSimd` | src/decimator.cpp:83-139 | the SIMD form returns exactly what the scalar form returns |
| `Packing.PackInjective` | apps/viewer/envelope_verifier.cpp:7-10 | different pairs of samples have different packed words |
| `Packing.PackHalves` | apps/viewer/envelope_verifier.cpp:7-10 | the high half of the word is the smallest sample and the low half the largest, as unsigned 16-bit values |
| `Packing.Sort` | apps/viewer/envelope_verifier.cpp:66 | a sorted permutation |
| `Packing.Unique` | apps/viewer/envelope_verifier.cpp:67 | on a sorted input, strictly sorted with the same members |
| `Packing.BinarySearch` | apps/viewer/envelope_verifier.cpp:126-127 | decides membership in a strictly sorted sequence |
| `SlidingWindow.SlideExtents` | apps/viewer/envelope_verifier.cpp:29-58 | for 0 < w < L the deque loop stores the minimum and maximum of each of the L cyclic windows, never reads an empty deque, and pops at most 2(L+w-1) entries |
| `SlidingWindow.Advance` | apps/viewer/envelope_verifier.cpp:41-51 | one iteration keeps the deque invariant for the next window with at most one front pop |
| `SlidingWindow.FrontsAreExtent` | apps/viewer/envelope_verifier.cpp:53-57 | the two deque fronts index the minimum and maximum of the last w entries |
| `SlidingWindow.FullWindow` | apps/viewer/envelope_verifier.cpp:18-27 | a cyclic window of at least the period's length has the period's global extent |
| `EnvelopeVerifier.BuildWindowSet` | apps/viewer/envelope_verifier.cpp:12-68 | the result is the strictly sorted set of the packed extents of all cyclic windows of that size, or empty for an empty period or size 0 |
| `EnvelopeVerifier.NearMemberIsNearWindow` | apps/viewer/envelope_verifier.cpp:112-131 | a packed neighbour of a pair is in the set if and only if some cyclic window's extent is within one bit of the pair |
| `EnvelopeVerifier.SearchNeighbours` | apps/viewer/envelope_verifier.cpp:113-131 | the nine-neighbour loop with its range checks finds a match if and only if one of the sets holds a packed neighbour |
| `EnvelopeVerifier.CountMatches` | apps/viewer/envelope_verifier.cpp:108-134 | the bucket loop counts exactly the legal buckets |
| `EnvelopeVerifier.LegalIs` | apps/viewer/envelope_verifier.cpp:112-131 | a bucket is legal if and only if some cyclic window of one of the two sizes has both ends within one of the pair, from -1 to +1 |
| `EnvelopeVerifier.CountIsCardinality` | apps/viewer/envelope_verifier.cpp:108-134 | the count is the number of buckets that are legal in that sense |
| `EnvelopeVerifier.ShiftedIsLegal` | apps/viewer/envelope_verifier.cpp:113-122 | moving either end of the extent of a window by -1, 0 or 1 gives a legal pair |
| `EnvelopeVerifier.FarIsIllegal` | apps/viewer/envelope_verifier.cpp:113-122 | a pair with an end two or more away from that of every window is not legal |
| `EnvelopeVerifier.EnvelopeVerifier.SetPeriod` | apps/viewer/envelope_verifier.cpp:70-74 | a new period empties the cache, so every cached set is again a fresh build |
| `EnvelopeVerifier.EnvelopeVerifier.Clear` | apps/viewer/envelope_verifier.cpp:76-80 | the verifier is not ready and caches nothing |
| `EnvelopeVerifier.EnvelopeVerifier.EnsureBucketSizes` | apps/viewer/envelope_verifier.cpp:82-89 | both sizes are cached, old entries stay, and every entry equals a fresh build for the current period |
| `EnvelopeVerifier.EnvelopeVerifier.Verify` | apps/viewer/envelope_verifier.cpp:91-141 | the matched count is the number of buckets within one of a cyclic window of size ch_raw / buckets, at least 1, or one more; the rate is their share; without a period, buckets or samples it skips with rate -1 |
| `ChannelMajor.Assemble` | src/stages/decimation_stage.cpp:59-64 | copying equal-length channels to their offsets fills the buffer with their concatenation, every copy in bounds |
| `ChannelMajor.ChannelOfConcat` | src/stages/decimation_stage.cpp:30-34 | slicing channel ch out of channel-major data gives that channel back |
| `InProcessQueue.InProcessQueue.Enqueue` | src/core/in_process_queue.cpp:15-49 | a queue with a free slot appends and counts the frame under every policy; a full one refuses and counts it, or replaces its oldest frame, or sends the caller to sleep, or refuses after shutdown |
| `InProcessQueue.InProcessQueue.WakeUp` | src/core/in_process_queue.cpp:33-48 | a producer holding the lock again is refused after shutdown, sleeps on before a full queue, and otherwise appends |
| `InProcessQueue.InProcessQueue.Dequeue` | src/core/in_process_queue.cpp:51-65 | takes the front, or nothing from an empty queue |
| `InProcessQueue.InProcessQueue.Shutdown` | src/core/in_process_queue.cpp:106-112 | sets the flag and changes nothing else |
| `InProcessQueue.InProcessQueue.constructor` | src/core/in_process_queue.cpp:7-9 | starts empty, with capacity at least one |
| `QueueWaiting.AlwaysInv` | src/core/in_process_queue.cpp:15-65 | with any number of producers, spurious wake-ups and barging: size stays within capacity, no wake-up is lost, offered = accepted + refused + held, accepted = taken + evicted + queued, and the counters equal these numbers |
| `QueueWaiting.WakeUpsKept` | src/core/in_process_queue.cpp:33-35 | one step keeps: if a producer sleeps un-notified, free slots are at most the notified producers |
| `QueueWaiting.SleeperHasHelp` | src/core/in_process_queue.cpp:59-62 | a producer asleep beside a free slot or a shut-down queue always has a notified producer or a pending notify-all to help it |
| `QueuePolicies.EnterDoes` | src/core/in_process_queue.cpp:15-49 | in every reachable state: below capacity a newcomer is accepted at the back, nothing is refused or evicted and nobody sleeps; at capacity DropLatest refuses, DropOldest evicts exactly the front, Block sleeps or refuses after shutdown; counters follow |
| `QueuePolicies.ReacquireDoes` | src/core/in_process_queue.cpp:33-48 | in every reachable state a woken producer is refused after shutdown, accepted at the back if there is a free slot, and sleeps again otherwise |
| `QueuePolicies.FirstOffered` | src/core/in_process_queue.cpp:18-44 | over every run in which nobody takes a frame, DropLatest and Block hold the first frames offered, as many as fit |
| `QueuePolicies.LastOffered` | src/core/in_process_queue.cpp:24-29 | over every run in which nobody takes a frame, DropOldest holds the last frames offered, as many as fit |
| `QueuePolicies.EveryoneCanStep` | src/core/in_process_queue.cpp:15-65 | in every reachable state each producer has a step to take and a queue with frames gives one up, waking a sleeper if there is one |
| `QueueWaiting.ShutdownStillAccepts` | src/core/in_process_queue.cpp:18-48 | in every reachable state after shutdown a newcomer never sleeps and is accepted if and only if the queue is not full or drops the oldest, a woken producer is always refused, and the size stays within capacity |
| `QueueWaiting.NobodySleepsAfterShutdown` | src/core/in_process_queue.cpp:106-112 | once notify_all has followed shutdown, no producer is asleep, now or later, in any run |
| `QueueWaiting.NewcomerAfterShutdown` | src/core/in_process_queue.cpp:18-48 | a run from the start in which a frame is accepted into a queue that was shut down before |
| `LinearRuntime.Wire` | src/core/linear_runtime.cpp:40-50 | the queue behind a stage has the capacity and policy of the next stage, the last queue those of its own stage, and a zero capacity becomes one |
| `LinearRuntime.AlwaysInv` | src/core/linear_runtime.cpp:149-220 | over all interleavings of workers, poller, stop and shutdowns: every queue accounts for each offered frame, and each stage has offered or still holds exactly what it emitted for its completed inputs |
| `RuntimeLoss.EnqueueDoes` | src/core/linear_runtime.cpp:188-191 | in every reachable state an enqueue by a worker appends below capacity; it loses the frame, or the oldest one, or waits only at a full or shut-down queue, by policy; all other queues and workers stay as they are |
| `RuntimeLoss.OthersLoseNothing` | src/core/linear_runtime.cpp:92-95 | every step but an enqueue on that queue loses nothing and at most takes its front |
| `RuntimeLoss.LossNeedsFullQueue` | src/core/in_process_queue.cpp:18-44 | a queue that has lost a frame was full or shut down at an earlier enqueue on it |
| `RuntimeExit.NoCallAfterExit` | src/core/linear_runtime.cpp:204-218 | after process() has returned EOS or Error, no continuation has the worker test the flag, take an input or call process() again, it has exited once it finishes its outputs, and a source produces nothing more |
| `RuntimeExit.EmptyHandedExits` | src/core/linear_runtime.cpp:204-218 | such a worker with nothing left to enqueue exits in its next step |
| `RuntimeExit.WhyExited` | src/core/linear_runtime.cpp:165-219 | in every reachable state a worker that has exited had such a return, or stop was raised; the flag is up exactly if it was raised |
| `RuntimeExit.WorkerCanStep` | src/core/linear_runtime.cpp:165-219 | before stop as after it, a worker that has not exited and does not sleep has a step to take |
| `RuntimeExit.LoopSteps` | src/core/linear_runtime.cpp:165-219 | past the flag a worker takes the front of its input queue; from an empty one it goes round before stop and leaves after it |
| `RuntimeExit.PollTakes` | src/core/linear_runtime.cpp:92-95 | a frame in the last queue can be polled at any time, and polling hands over the front |
| `RuntimeOrder.HopsInOrder` | src/core/linear_runtime.cpp:165-201 | for stages of any kind, in every reachable state: each worker took a subsequence of what its queue was offered, nothing offered is unaccounted for, and each queue was offered a prefix of its stage's emissions |
| `RuntimeOrder.PolledInSourceOrder` | src/core/linear_runtime.cpp:92-95 | if every stage turns a subsequence of inputs into a subsequence of outputs, the polled frames are a subsequence of the composed stages applied to the source stream |
| `Subsequence.SubseqIff` | src/core/linear_runtime.cpp:92-95 | the order meant is the usual one: a subsequence stands in the stream at rising places |
| `RuntimeOrder.MemorylessIsMonotone` | src/core/linear_runtime.cpp:178-185 | stages whose output depends on the current frame alone turn subsequences into subsequences |
| `RuntimeOrderExact.InOrderIffMonotone` | src/core/linear_runtime.cpp:165-201 | for a source and one stage: over all queue settings and runs the polled frames are in source order, if and only if the stage turns subsequences into subsequences |
| `RuntimeOrderExact.MemoryMatters` | src/core/linear_runtime.cpp:165-201 | a run with a stage that keeps state behind a lossy queue, whose polled frame is not in the composed output |
| `RuntimeOrder.PolledIsPrefix` | src/core/linear_runtime.cpp:92-95 | while no queue has lost a frame, polled is a prefix of the composed output, whatever the stages remember |
| `RuntimeOrder.BlockingPipelineIsLossless` | src/core/in_process_queue.cpp:31-48 | queues that all block lose nothing until they are shut down |
| `RuntimeConservation.FramesConserved` | src/core/linear_runtime.cpp:165-201 | for memoryless stages, as multisets: the outputs due to all source frames equal the polled frames plus what is due to frames queued, lost, waiting to be enqueued or inside process |
| `RuntimeConservation.EmissionsConserved` | src/core/linear_runtime.cpp:165-201 | for stages of any kind, as multisets: everything that source and stages have returned equals what was taken from the queues, is queued, was lost, or waits to be enqueued |
| `RuntimeConservation.LinkBalance` | src/core/in_process_queue.cpp:15-65 | for memoryless stages: what a queue was offered is worth what was taken, queued and lost, in final outputs |
| `RuntimeConservation.StageBalance` | src/core/linear_runtime.cpp:178-196 | for memoryless stages: what a stage took is worth what it offered, still holds and is processing |
| `RuntimeStop.SleepersFaceFullQueues` | src/core/in_process_queue.cpp:31-65 | in every reachable state of the pipeline a sleeping worker faces a full queue that blocks: no wake-up is lost between threads |
| `RuntimeStop.StopTakesEffect` | src/core/linear_runtime.cpp:67-86 | once a run has raised the flag and notified every queue, all queues are shut down and no worker sleeps, whatever happened in between and since |
| `RuntimeStop.StepLowersRank` | src/core/linear_runtime.cpp:165-219 | once stopped, every worker step lowers the pair of loop positions and pending outputs lexicographically, every other step leaves the workers alone, and nobody falls asleep again |
| `RuntimeStop.NobodyStuck` | src/core/linear_runtime.cpp:165-219 | once stopped, every worker that has not exited has a step of its own to take, with no wake-up left to wait for |
| `RuntimeStop.StopIsBounded` | src/core/linear_runtime.cpp:67-86 | in every interleaving after stop, worker steps are at most the load at the stop plus the frames returned since, and workers call process at most once each |
| `RuntimeStop.JoinReturns` | src/core/linear_runtime.cpp:77-82 | a stopped state in which no worker can step has every worker exited |
| `RuntimeStop.CanFinish` | src/core/linear_runtime.cpp:67-86 | for stages of any kind, from every stopped state some continuation makes all workers exit |
| `RingBuffer.RingBufferView.Push` | src/ring_buffer_view.h:17-26 | appends one sample if and only if fewer than capacity-1 are unread |
| `RingBuffer.RingBufferView.PushBulk` | src/ring_buffer_view.h:28-51 | appends the longest prefix of the samples that fits and returns its length |
| `RingBuffer.RingBufferView.Pop` | src/ring_buffer_view.h:53-61 | removes and returns the oldest unread sample, failing only on an empty ring |
| `RingBuffer.RingBufferView.PopBulk` | src/ring_buffer_view.h:63-86 | moves the oldest unread samples out, as many as asked for and available |
| `RingBuffer.RingBufferView.DiscardBulk` | src/ring_buffer_view.h:89-104 | drops the oldest unread samples, as many as asked for and available |
| `RingBuffer.RingBufferView.Size` | src/ring_buffer_view.h:106-110 | the number of unread samples |
| `RingBuffer.BulkIsRepeatedPush` | src/ring_buffer_view.h:17-51 | push_bulk has the effect and count of pushing one by one until failure |
| `RingBuffer.BulkIsRepeatedPop` | src/ring_buffer_view.h:53-86 | pop_bulk has the effect and result of popping one by one until failure or the count |
| `SpscRing.AlwaysInv` | src/ring_buffer_view.h:28-104 | over all interleavings of load, load, copy, copy and publish on both sides, with stale snapshots: the indices and slots agree with the stream that was published and consumed |
| `SpscRing.WritesOutsideUnread` | src/ring_buffer_view.h:41-47 | the slot being written never holds a published, unconsumed sample |
| `SpscRing.ReadsPublished` | src/ring_buffer_view.h:76-82 | the slot being read holds the published sample that is next in the stream |
| `SpscRing.RefinesFifo` | src/ring_buffer_view.h:17-104 | every step of every interleaving is a step of an atomic FIFO of capacity-1: a publish appends the pushed prefix or removes the popped front, all else leaves it alone |
| `SpscRing.StreamGrows` | src/ring_buffer_view.h:49-84 | no step of either side alters what was published or takes back what was consumed |
| `SpscRing.PushIsGreedyAtLoad` | src/ring_buffer_view.h:31-39 | a push takes as much as was free when it loaded the tail, and fails only if the FIFO was full then |
| `SpscRing.PopIsGreedyAtLoad` | src/ring_buffer_view.h:66-74 | a pop takes as much as was published when it loaded the head, and fails only if the FIFO was empty then |
| `SpscProgress.PushCanStep` | src/ring_buffer_view.h:28-51 | in every reachable state a push under way has a step to take, and a producer outside may begin one |
| `SpscProgress.PopCanStep` | src/ring_buffer_view.h:63-104 | the same for pop and discard |
| `SpscProgress.PushIsWaitFree` | src/ring_buffer_view.h:28-51 | a push of n samples takes at most n + 2 steps of its own, however the consumer runs beside it |
| `SpscProgress.PopIsWaitFree` | src/ring_buffer_view.h:63-104 | a pop or discard of at most n samples takes at most n + 2 steps of its own, however the producer runs beside it |
| `DrainHistory.WindowSamples` | src/decimation_thread.cpp:8-16 | as many whole samples as rate times span holds, but at least one and at most the capacity; zero exactly without a rate, a span or a capacity |
| `DrainHistory.DrainChannel` | src/decimation_thread.cpp:446-468 | with the producer pushing meanwhile, the new history is the old one plus everything counted, cut to the newest window if there is one, or the old one untouched if nothing was there; the ring keeps exactly the samples accepted since the count |
| `DrainHistory.DrainAtSpan` | src/decimation_thread.cpp:446-468 | the drain with the window that rate, span and ring capacity give |
| `DrainHistory.ShortcutIsInvisible` | src/decimation_thread.cpp:227-241 | skipping what trimming would remove does not change the trimmed history |
| `DrainHistory.HistoryIsSuffix` | src/decimation_thread.cpp:236-241 | over any run of drains and window changes the history is a gap-free suffix of everything popped or discarded |
| `DrainHistory.ConstantWindow` | src/decimation_thread.cpp:236-241 | with one window throughout, the history is exactly the newest window of everything consumed |
| `DrainHistory.SpanHistory` | src/decimation_thread.cpp:446-468 | over any run of drains at one rate and span, the history is exactly the newest samples consumed, as many as the span asks for |
| `DrainHistory.HistoryFillsWindow` | src/decimation_thread.cpp:238-241 | a drain that brought samples leaves at most the window, and all of it once enough was consumed |
| `ChannelAssignment.Assign` | src/decimation_thread.cpp:51-57 | entry i of worker w is channel i * workers + w, for exactly the existing channels |
| `ChannelAssignment.FindSlot` | src/decimation_thread.cpp:354-358 | the first slot holding the channel, or 0 |
| `ChannelAssignment.PlaceOf` | src/decimation_thread.cpp:352-358 | each channel has exactly one place: worker ch mod workers, slot ch div workers |
| `ChannelAssignment.SingleThreaded` | src/decimation_thread.cpp:269-281 | the single-threaded concatenation, with zeros for empty histories, and the last channel's length |
| `ChannelAssignment.Gather` | src/decimation_thread.cpp:342-370 | the gather loop yields the results of all channels in channel order, with zeros for empty results |
| `ChannelAssignment.PartsAgree` | src/decimation_thread.cpp:363-370 | both paths agree on one channel if and only if its history is empty, the target is 0, or the target suffices for the mode |
| `ChannelAssignment.GatherEqualsSinglePass` | src/decimation_thread.cpp:269-281 | the gathered buffer equals the single-threaded one if and only if the target is 0, suffices for the mode, or all histories are empty |
| `ChannelAssignment.SinglePassByChannel` | src/decimation_thread.cpp:269-281 | the single-threaded buffer is, channel by channel, the decimated history, or target samples of value 0 where there is none |
| `ChannelAssignment.GatheredByChannel` | src/decimation_thread.cpp:342-370 | the gathered buffer is the same, with target zeros also where the target is too small for the mode |
| `GenerationBarrier.AlwaysInv` | src/decimation_thread.cpp:307-375 | the barrier invariant (counters, results, gather) holds in every reachable state before stop |
| `GenerationBarrier.EachGenerationOnce` | src/decimation_thread.cpp:417-487 | each worker's last generation is the latest signal or one less, and it has run 1, 2, ... up to it, once each, in order |
| `GenerationBarrier.NoRaceWhileGathering` | src/decimation_thread.cpp:331-375 | while the coordinator gathers all workers are parked and no step changes a history or a result |
| `GenerationBarrier.PublishedIsSinglePass` | src/decimation_thread.cpp:342-392 | a published buffer equals the single-threaded one for the same histories, exactly under the condition of the gather |
| `GenerationBarrier.PublishedFromStreams` | src/decimation_thread.cpp:331-392 | a published buffer is the gather of histories, and each history is the gap-free newest part of what its ring delivered over the worker's rounds |
| `GenerationBarrier.PublishedAtSpan` | src/decimation_thread.cpp:331-392 | at one rate and span, a published buffer is gathered from exactly the newest samples of each ring that the span asks for |
| `BarrierRounds.DrainedOncePerSignal` | src/decimation_thread.cpp:442-468 | whenever the coordinator is not waiting, each channel has been drained exactly once for each signal so far |
| `BarrierRounds.RoundsAreDrains` | src/decimation_thread.cpp:442-468 | the rounds behind a published history are exactly the drains of that channel in the run, in order |
| `GenerationBarrier.CycleProgresses` | src/decimation_thread.cpp:421-423 | a cycle in progress has a possible step if and only if the 32-bit counter has not wrapped to zero |
| `BarrierProgress.CycleIsBounded` | src/decimation_thread.cpp:317-329 | from every reachable state with a waiting coordinator, every run takes at most a counted number of worker steps before it collects |
| `BarrierProgress.CycleFinishes` | src/decimation_thread.cpp:307-392 | from every reachable state with a waiting coordinator and a counter that is not zero, some continuation publishes the buffer of this cycle |
| `BarrierProgress.WrapIsReached` | src/decimation_thread.cpp:421-423 | a run reaches signal 2^32, where the counter is zero, the coordinator waits and no step is possible |
| `Decimation.Decimate` | src/decimator.cpp:11-27 | the dispatch returns the value of the chosen mode |
| `Decimation.DecimatedEmptyIff` | src/decimator.cpp:11-27 | the result is empty if and only if the input is or the target is below the mode's least |
| `Decimation.LengthIsDecided` | src/decimator.cpp:11-27 | in every mode the output length depends on input length and target only |
| `DecimationStage.DecimationStage.Process` | src/stages/decimation_stage.cpp:11-70 | a non-empty batch yields Ok and exactly one frame for each input frame that carries samples, in order, with its sequence, channel count and time span; each channel is run through LTTB below 100 MS/s of the stage, MinMax otherwise or where set, or copied; an empty batch yields NoData |
| `DecimationStage.ModeRuns` | src/stages/decimation_stage.cpp:96-103 | LTTB runs only below 100 million samples per second and gives way to MinMax from there on; None copies |
| `DecimationStage.DecimatedFrameWellFormed` | src/stages/decimation_stage.cpp:38-64 | all channels decimate to one length, so the output buffer is exactly filled |
| `DecimationStage.ChannelsDecimateSeparately` | src/stages/decimation_stage.cpp:25-64 | channel ch of the output is the decimation of channel ch of the input |
| `DecimationStage.RescaledRateKeepsTime` | src/stages/decimation_stage.cpp:48-55 | samples divided by rate, the time a frame spans, is the same before and after decimation |
| `Visualization.VisualizationStage.Process` | src/stages/visualization_stage.cpp:14-182 | state and outcome after a call are those of the bounded-history step, for every batch and span |
| `Visualization.SamplesFit` | src/stages/visualization_stage.cpp:71-72 | the window is the whole number of samples that fit in rate times span |
| `VisualizationRefinement.StepRefines` | src/stages/visualization_stage.cpp:78-149 | a call shows what the version keeping every sample would show, whenever the window is within what was kept of every channel |
| `VisualizationSpans.StepAgreesIff` | src/stages/visualization_stage.cpp:78-149 | one call with any batch, span and target has the outcome of the version that keeps every sample, if and only if the history holds a whole window or has lost nothing of its least channel, or no window is computed |
| `VisualizationSpans.CallsAgreeIff` | src/stages/visualization_stage.cpp:17-182 | over any run of calls from the start, each with its own batch, span and target, all outcomes agree if and only if that condition holds at every call |
| `VisualizationSpans.WideningCanDiffer` | src/stages/visualization_stage.cpp:78-86 | two calls from the start, the second with four times the span: it shows the last two samples where unlimited history shows all four |
| `VisualizationRefinement.RunRefines` | src/stages/visualization_stage.cpp:17-182 | with a fixed span, over any batches with rate and channel-count changes, the outcomes equal those of unlimited history since the last rate reset |
| `VisualizationRefinement.HistoryIsBounded` | src/stages/visualization_stage.cpp:78-86 | every call whose span holds a sample leaves at most two spans of history per channel, in samples 2 * rate * span |
| `VisualizationBoundaries.AlwaysInside` | src/stages/visualization_stage.cpp:88-95 | the recorded frame ends rise strictly and lie after the history's start, up to its end |
| `VisualizationBoundaries.AlwaysAgree` | src/stages/visualization_stage.cpp:88-95 | pruning loses no frame end that still lies inside the history |
| `DisplayedWindow.SinceReset` | src/stages/visualization_stage.cpp:24-52 | from any history, after a rate change each channel is the concatenation of that channel of every frame since that has it, whatever channel counts and lengths the frames have |
| `LatestDisplay.ClosedForm` | src/stages/visualization_stage.cpp:17-52 | for all frames in any batches, the history that keeps everything is the concatenation, per channel, of the frames since the rate last changed, with the rate in force and the frame ends that belong to them |
| `LatestDisplay.LatestOutcome` | src/stages/visualization_stage.cpp:14-182 | for every run with a fixed span and any frames, the last call shows of each channel the newest samples since the last rate change, as many as rate times span holds and all channels have, as they are or as bucket extents, with their share of the window as coverage; and nothing if there is no rate, no channel or less than one sample in the span |
| `LatestDisplay.RecordedEnds` | src/stages/visualization_stage.cpp:55-95 | the recorded frame ends are exactly those of the frames since the last rate change that lie after the start of the history |
| `DisplayedWindow.DecimatedRuns` | src/stages/decimation_stage.cpp:11-70 | the stream of a channel behind the pipeline stage is its raw stream, decimated frame by frame, with the skipped frames gone |
| `LatestDisplay.PipelinePeaks` | src/stages/visualization_stage.cpp:117-178 | raw frames through pipeline MinMax and, in any batches, through the display stage: if the samples that fill the span start on a frame boundary of a channel, that channel is shown with exactly the smallest and largest raw sample of the frames covered |
| `Peaks.PeaksSurvive` | src/stages/visualization_stage.cpp:117-144 | for a window that starts on a frame boundary, two MinMax decimations in a row keep the smallest and largest raw sample of a channel |
| `Lttb.EdgeIsBound` | src/decimator.cpp:164-173 | the floating edge, in exact arithmetic, is one plus the integer bucket bound |
| `Lttb.EdgesTile` | src/decimator.cpp:172-174 | buckets are non-empty, the first starts at 1 and the last ends at n-1 |
| `Lttb.ClampIsIdle` | src/decimator.cpp:174-192 | the clamp never acts and no averaged bucket is empty, so the fallback averages are never taken |
| `Lttb.AreaIsTriangle` | src/decimator.cpp:206-211 | the expression is twice the area of the triangle, as a cross product |
| `Lttb.Decimate` | src/decimator.cpp:150-228 | the output is an LTTB selection: each pick is the first maximiser of the area against the previous pick and the next bucket's mean |
| `Lttb.LttbShape` | src/decimator.cpp:160-227 | for n > target of at least 3: exactly target points, at strictly increasing indices, first and last included |
| `Lttb.LttbUnique` | src/decimator.cpp:150-228 | the selection's specification determines the output |
| `LttbIntegers.SelectionInIntegers` | src/decimator.cpp:150-228 | the whole LTTB output in integers alone: target indices with both ends, and each other one the first in its bucket to maximise the cross product with the sums of the next bucket |
| `GpuMinMax.ShaderArithmetic` | shaders/minmax_decimate.comp:29-33 | no 32-bit operation of the partition overflows and every bucket lies inside the input |
| `GpuMinMax.BucketsMeet` | shaders/minmax_decimate.comp:32-33 | each bucket ends where the next one starts |
| `GpuMinMax.LastStart` | shaders/minmax_decimate.comp:32-33 | the buckets start at 0 and end at the number of samples |
| `GpuMinMax.LargerFirst` | shaders/minmax_decimate.comp:32-33 | bucket sizes are the quotient or one more, and the larger buckets come first |
| `GpuMinMax.IndexFitsIff` | shaders/minmax_decimate.comp:40 | the strided index of no thread overflows if and only if the bucket has at most 2^32 - 256 samples |
| `GpuMinMax.ScanAll` | shaders/minmax_decimate.comp:35-49 | in any thread order, each slot holds the extent of its thread's stride of the bucket |
| `GpuMinMax.TreeStep` | shaders/minmax_decimate.comp:52-58 | under any interleaving of reads and writes, a halving step joins slot pairs and leaves the rest alone |
| `GpuMinMax.WorkGroup` | shaders/minmax_decimate.comp:23-64 | a work group writes the exact minimum and maximum of its bucket, or the sentinels for an empty one |
| `GpuEquivalence.Dispatch` | apps/viewer/compute_decimator.cpp:261-320 | with work groups finishing in any order, the output is the pairs of all buckets in bucket order, for any number of buckets, empty buckets and empty input included |
| `GpuEquivalence.PairsOfBuckets` | shaders/minmax_decimate.comp:29-64 | with no more buckets than samples, each pair is the smallest and largest sample of its bucket |
| `GpuEquivalence.SameSizes` | shaders/minmax_decimate.comp:30-33 | shader and CPU buckets have the same multiset of sizes |
| `GpuEquivalence.SameGlobalExtent` | shaders/minmax_decimate.comp:51-63 | over all buckets, shader and CPU report the input's smallest and largest sample |
| `FrameOwnership.Frame.MakeBorrowed` | include/grebe/frame.h:59-70 | a borrowing frame owes the release of its buffer, once, exactly when it has both a pointer and a callback |
| `FrameOwnership.Frame.Move` | include/grebe/frame.h:125-144 | the new frame has everything, the source owes no release any more |
| `FrameOwnership.Frame.Assign` | include/grebe/frame.h:146-170 | the target's own borrow is released once, then everything moves; self-assignment does nothing |
| `FrameOwnership.Frame.ReleaseBorrowed` | include/grebe/frame.h:181-188 | calls the callback for a borrowed buffer with pointer and callback, and afterwards owes nothing |
| `FrameOwnership.Frame.Destroy` | include/grebe/frame.h:172-174 | releases what is still borrowed |
| `FrameOwnership.Frame.ToOwned` | include/grebe/frame.h:99-118 | a deep copy that owes no release; the original is untouched |
| `FrameOwnership.AlwaysBalanced` | include/grebe/frame.h:125-188 | over any program of moves, assignments, queue operations and destructions, buffers due at live frames plus released buffers are the lent buffers |
| `FrameOwnership.ReleasedExactlyOnce` | include/grebe/frame.h:125-188 | a buffer lent once is held by exactly one live frame and unreleased, or held by none and released once |
| `FrameOwnership.NoLeak` | include/grebe/frame.h:172-188 | when no frame is left, every lent buffer has been released as often as it was lent |
| `WireFormat.FieldsRoundTrip` | apps/common/ipc/contracts.h:14-26 | little-endian fields of any widths decode to the encoded values |
| `WireFormat.HeaderRoundTrip` | apps/common/ipc/contracts.h:14-26 | decoding an encoded header gives the header |
| `WireFormat.SamplesRoundTrip` | apps/common/ipc/pipe_transport.cpp:182-184 | decoding encoded samples gives the samples |
| `WireFormat.ParseOfEncoded` | apps/common/ipc/pipe_transport.cpp:174-189 | the first frame parsed from an encoded stream is the first frame encoded, and the rest of the stream remains |
| `WireLayout.HeaderLayout` | apps/common/ipc/contracts.h:14-26 | each of the eleven header fields stands at its own offset of the 64 bytes, least significant byte first |
| `WireLayout.SampleLayout` | apps/common/ipc/contracts.h:10-10 | sample i is the two bytes at 2i and 2i + 1, low byte first, in two's complement |
| `WireLayout.StartsWithMagic` | apps/common/ipc/contracts.h:12-12 | a valid frame starts with the bytes of GFH2 |
| `WireLayout.ParsedIsEncoded` | apps/common/ipc/pipe_transport.cpp:174-189 | whatever was parsed, encoded again, is what was read |
| `WireLayout.ParsesIff` | apps/common/ipc/pipe_transport.cpp:174-189 | a stream yields a frame if and only if it starts with the encoding of a valid one |
| `PipeTransport.AdvanceIov` | apps/common/ipc/pipe_transport.cpp:94-104 | after advancing by n bytes the iovecs denote the unsent suffix |
| `PipeTransport.SendFrame` | apps/common/ipc/pipe_transport.cpp:75-106 | under any partial writes, success means exactly header and payload were written, failure a proper prefix, and a reliable pipe never fails |
| `PipeTransport.ReadAll` | apps/common/ipc/pipe_transport.cpp:39-52 | under any partial reads, exactly len bytes or failure |
| `PipeTransport.ReceiveFrame` | apps/common/ipc/pipe_transport.cpp:174-189 | on any stream, success returns the frame that parsing gives and consumes exactly its bytes; a reliable pipe succeeds exactly when parsing does, and a payload that is no whole number of samples is a case of its own |
| `PipeTransport.Transfer` | apps/common/ipc/pipe_transport.cpp:75-189 | any list of valid frames sent and then received through a reliable pipe comes out as it went in |
| `PipeInterleaving.ReceivedIsPrefix` | apps/common/ipc/pipe_transport.cpp:39-106 | with partial writes and reads of both ends interleaved in any way, the frames received are at all times a prefix of those sent |
| `PipeInterleaving.RunsAreBounded` | apps/common/ipc/pipe_transport.cpp:39-106 | no interleaving takes more than three steps per byte |
| `PipeInterleaving.RunsDeliver` | apps/common/ipc/pipe_transport.cpp:75-189 | an interleaving that can go no further has delivered every frame |

## Left out

- Vulkan, windows, HUD, renderer, process spawning, command line, JSON and CSV reports, the display stage's debug dump: foreign calls and user interface.
- UDP transport and batching, IPC commands: system calls around the same frame format.
- Clocks: pacing, sleeping, blocked time, processing time, rates and percentiles.
- Waveform synthesis (sine, square, sawtooth, chirp, LUT and noise): a period is any non-empty function of settings and channel, and the samples of the chirp branch of `read_frame` are a parameter.
- Floating-point rounding: phases, rates, spans, LTTB edges, means and areas are exact reals.
- Recovering ch_raw from rate ratios: the frame length itself is passed to the verifier.
- Weak memory: the ring's acquire and release operations are sequentially consistent steps.
- Termination of `DecimationThread::stop`, where an exiting worker may leave the coordinator waiting: the barrier runs end before stop, with mode and target fixed during a run.
- Raw counts, fill ratios and per-channel vertex counts of the gather, which are sums beside the buffer.
- Runtime start-up before `start` returns, telemetry, and stages that change their settings during a run.
- `flush_rings`, a second consumer on a ring; `size()` called from a third thread.
- IngestionThread, DropCounter, FileReader, DataGenerator and RollingAvg: easier or duplicate logic.
- 64-bit overflow of b * n in the bucket bounds and of counters other than the generation counter.
- A caller changing the period buffer behind the verifier's pointer, which it forbids.
- Metadata of frames other than sequence, counts and rate, and the timestamps and flags that stages copy.
- EINTR and other error codes: a failed read or write is any result of zero or less.
- `poll_latest`, which is repeated polling that keeps the last frame: `LinearRuntime` polls one frame at a time.
- RuntimeConservation.FramesConserved: for stages whose output depends on the current frame only, because what a lost frame would have become is otherwise not a function of the frame; RuntimeConservation.EmissionsConserved is the statement for all stages.
- RuntimeConservation.LinkBalance: for the same stages, as it is stated in what frames would become; LinearRuntime.AlwaysInv is the account of the queue for all stages.
- RuntimeConservation.StageBalance: likewise.
- Packing.Sort: a simple insertion sort stands for `std::sort`; likewise Packing.Unique and Packing.BinarySearch for the library calls.
- Peaks.PeaksSurvive: about windows that start on a frame boundary; elsewhere a window may cut a bucket's pair apart.
