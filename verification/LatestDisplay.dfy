/**
 * The display stage in closed form: for every run of calls with a fixed span, the history and the frame
 * shown last are stated in terms of the input frames alone.
 */
module LatestDisplay {
  import opened Samples
  import opened Frames
  import opened ChannelMajor
  import opened Visualization
  import opened DisplayedWindow
  import Boundaries = VisualizationBoundaries
  import Decimator
  import Peaks
  import Refinement = VisualizationRefinement
  import Stage = DecimationStage

  // ---- The frames that count ----

  predicate Carries(f: Frame)
  {
    f.channelCount > 0 && f.samplesPerChannel > 0
  }

  /** The rate in force: the last positive one of a frame that carries samples. */
  function RateAfter(frames: seq<Frame>): real
  {
    if frames == [] then 0.0
    else
      var f := frames[|frames| - 1];
      if Carries(f) && f.sampleRate > 0.0 then f.sampleRate else RateAfter(frames[..|frames| - 1])
  }

  /** The last frame carries another positive rate than the one in force before it. */
  predicate ChangesRate(frames: seq<Frame>)
    requires frames != []
  {
    var f, before := frames[|frames| - 1], RateAfter(frames[..|frames| - 1]);
    Carries(f) && f.sampleRate > 0.0 && before > 0.0 && f.sampleRate != before
  }

  /** The frames since the rate last changed. */
  function SinceChange(frames: seq<Frame>): (since: seq<Frame>)
    ensures |since| <= |frames| && since == frames[|frames| - |since|..]
  {
    if frames == [] then []
    else if ChangesRate(frames) then [frames[|frames| - 1]]
    else SinceChange(frames[..|frames| - 1]) + [frames[|frames| - 1]]
  }

  /** Samples per channel over all frames that carry any. */
  function Total(frames: seq<Frame>): nat
  {
    if frames == [] then 0
    else
      var f := frames[|frames| - 1];
      Total(frames[..|frames| - 1]) + if Carries(f) then f.samplesPerChannel else 0
  }

  /** Where each frame that carries samples ends, counted from the first of them. */
  function EndsOf(frames: seq<Frame>): seq<nat>
  {
    if frames == [] then []
    else
      var m := |frames| - 1;
      EndsOf(frames[..m]) + if Carries(frames[m]) then [Total(frames)] else []
  }

  /** The history that keeps everything, made of these frames. */
  ghost predicate MadeOf(r: History, now: seq<Frame>)
    requires AllWellFormed(now)
  {
    && r.channelCount == CountOf(now) == |r.channels|
    && (forall ch :: 0 <= ch < |r.channels| ==> r.channels[ch] == Concat(Held(now, ch)))
    && r.frameEnds == EndsOf(now) && r.appended == Total(now)
  }

  lemma SkippedMeansNone(f: Frame)
    ensures Stage.IsSkipped(f) <==> !Carries(f)
  {
  }

  /** A frame that changes the rate is alone in the history. */
  lemma StartsOver(h: History, f: Frame)
    requires Shaped(h) && Stage.WellFormed(f) && Carries(f)
    requires f.sampleRate > 0.0 && h.rate > 0.0 && h.rate != f.sampleRate
    ensures AllWellFormed([f]) && MadeOf(Accept(h, f), [f])
  {
    FirstFrame(h, f, f.sampleRate);
    OneEnd(f);
    hide Held, Stage.Channels, Concat, CountOf, EndsOf, Total;
  }

  lemma OneEnd(f: Frame)
    requires Carries(f)
    ensures EndsOf([f]) == [f.samplesPerChannel] && Total([f]) == f.samplesPerChannel
  {
    assert [f][..0] == [] && [f][0] == f;
    assert Total([]) == 0 && EndsOf([]) == [];
    assert Total([f]) == f.samplesPerChannel;
  }

  /** Any other frame joins what is there. */
  lemma Joins(h: History, now: seq<Frame>, f: Frame)
    requires Shaped(h) && AllWellFormed(now) && MadeOf(h, now) && Stage.WellFormed(f)
    requires Carries(f) && f.sampleRate > 0.0 && h.rate > 0.0 ==> h.rate == f.sampleRate
    ensures AllWellFormed(now + [f]) && MadeOf(Accept(h, f), now + [f])
  {
    var all, r := now + [f], Accept(h, f);
    assert all[..|now|] == now && all[|now|] == f;
    if Carries(f) {
      JoinsChannels(h, now, f);
      hide Held, Stage.Channels, Concat;
    } else {
      SkippedRunOfAll(now, f);
      hide Held, Concat;
    }
  }

  lemma SkippedRunOfAll(now: seq<Frame>, f: Frame)
    requires AllWellFormed(now) && Stage.WellFormed(f) && !Carries(f)
    ensures AllWellFormed(now + [f]) && CountOf(now + [f]) == CountOf(now)
    ensures forall ch: nat :: Held(now + [f], ch) == Held(now, ch)
  {
    forall ch: nat
      ensures AllWellFormed(now + [f]) && Held(now + [f], ch) == Held(now, ch)
    {
      SkippedRun(now, f, ch);
    }
    SkippedRun(now, f, 0);
  }

  lemma JoinsChannels(h: History, now: seq<Frame>, f: Frame)
    requires Shaped(h) && AllWellFormed(now) && MadeOf(h, now) && Stage.WellFormed(f) && Carries(f)
    requires f.sampleRate > 0.0 && h.rate > 0.0 ==> h.rate == f.sampleRate
    ensures AllWellFormed(now + [f]) && CountOf(now + [f]) == f.channelCount
    ensures var r := Accept(h, f);
            |r.channels| == f.channelCount &&
            forall ch :: 0 <= ch < |r.channels| ==> r.channels[ch] == Concat(Held(now + [f], ch))
  {
    var all, r := now + [f], Accept(h, f);
    HeldStep(now, f, 0);
    hide Stage.Channels, Concat, Held, EndsOf, Total;
    assert MeetRate(h, f.sampleRate).channels == h.channels;
    forall ch | 0 <= ch < |r.channels|
      ensures r.channels[ch] == Concat(Held(all, ch))
    {
      NextRun(now, f, ch);
      AbsentChannel(now, ch);
    }
  }

  /** Whatever frames came in whatever batches, the unlimited history is made of those since the last rate change. */
  lemma {:induction false} ClosedForm(frames: seq<Frame>)
    requires AllWellFormed(frames)
    ensures AllWellFormed(SinceChange(frames)) && Shaped(EMPTY)
    ensures AcceptAll(EMPTY, frames).rate == RateAfter(frames)
    ensures MadeOf(AcceptAll(EMPTY, frames), SinceChange(frames))
  {
    if frames != [] {
      var m := |frames| - 1;
      ClosedForm(frames[..m]);
      hide MadeOf, Accept, AllWellFormed, ChangesRate;
      NextForm(AcceptAll(EMPTY, frames[..m]), frames);
    }
  }

  lemma NextForm(h: History, frames: seq<Frame>)
    requires frames != [] && AllWellFormed(SinceChange(frames[..|frames| - 1])) && Shaped(h)
    requires h.rate == RateAfter(frames[..|frames| - 1]) && MadeOf(h, SinceChange(frames[..|frames| - 1]))
    requires Stage.WellFormed(frames[|frames| - 1])
    ensures AllWellFormed(SinceChange(frames))
    ensures Accept(h, frames[|frames| - 1]).rate == RateAfter(frames)
    ensures MadeOf(Accept(h, frames[|frames| - 1]), SinceChange(frames))
  {
    var m := |frames| - 1;
    var f := frames[m];
    RateStep(h, f);
    hide MadeOf, Accept, AllWellFormed;
    if ChangesRate(frames) {
      StartsOver(h, f);
    } else {
      Joins(h, SinceChange(frames[..m]), f);
    }
  }

  lemma RateStep(h: History, f: Frame)
    requires Shaped(h) && Stage.WellFormed(f)
    ensures Accept(h, f).rate == if Carries(f) && f.sampleRate > 0.0 then f.sampleRate else h.rate
  {
    hide Stage.Channels;
  }

  // ---- What is shown last ----

  /** So many samples, a fraction included, come in the span at this rate. */
  ghost predicate SpanHolds(fits: real, rate: real, span: real)
  {
    fits == rate * span
  }

  /** n is x rounded down. */
  ghost predicate IsFloor(n: nat, x: real)
  {
    n as real <= x < n as real + 1.0
  }

  /** The number of samples taken: all there are of every channel, but no more than the span holds. */
  ghost predicate FillsSpan(take: nat, least: nat, fits: real)
  {
    take <= least && take as real <= fits && (take == least || fits < take as real + 1.0)
  }

  /** There is something to show: a rate, a channel, and a span that holds at least one sample. */
  ghost predicate Showable(streams: seq<seq<int16>>, rate: real, span: real)
  {
    rate > 0.0 && streams != [] && span > 0.0 && rate * span >= 1.0
  }

  /** The history holds these streams at this rate, and its outcome is the one of the span. */
  ghost predicate ShowsSpan(o: Outcome, streams: seq<seq<int16>>, window: nat, take: nat, rate: real, span: real,
                            target: nat)
  {
    if Showable(streams, rate, span) then
      && IsFloor(window, rate * span)
      && FillsSpan(take, Least(streams), rate * span) && ShowsNewest(o, streams, take, rate, target)
      && o.coverage == if take >= window then 1.0 else take as real / window as real
    else o.result == Stage.NoData && o.out == None && o.coverage == 0.0
  }

  lemma ShowsWindow(u: History, streams: seq<seq<int16>>, span: real, target: nat) returns (window: nat, take: nat)
    requires Shaped(u) && u.channels == streams
    requires forall ch :: 0 <= ch < |streams| ==> streams[ch] != []
    ensures var w := WindowOf(u, span); var o := if w > 0 then Show(u, w, target) else NOTHING;
            ShowsSpan(o, streams, window, take, u.rate, span, target)
  {
    window, take := WindowOf(u, span), 0;
    WindowFits(u, span);
    hide *;
    if Showable(streams, u.rate, span) {
      take := ShowsSome(u, window, span, u.rate * span, target);
    } else {
      NothingShown(streams, window, take, u.rate, span, target);
    }
  }

  lemma ShowsSome(u: History, window: nat, span: real, fits: real, target: nat) returns (take: nat)
    requires Shaped(u) && u.channels != [] && Showable(u.channels, u.rate, span)
    requires forall ch :: 0 <= ch < |u.channels| ==> u.channels[ch] != []
    requires window > 0 && IsFloor(window, fits) && fits == u.rate * span
    ensures ShowsSpan(Show(u, window, target), u.channels, window, take, u.rate, span, target)
  {
    hide *;
    take := Min(Least(u.channels), window);
    LeastPositive(u.channels);
    ShownWindow(u, window, target);
    CoverageOfTake(Least(u.channels), window);
    TakeFits(Least(u.channels), window, fits);
    SpanShown(Show(u, window, target), u.channels, window, take, u.rate, span, fits, target);
  }

  lemma NothingShown(streams: seq<seq<int16>>, window: nat, take: nat, rate: real, span: real, target: nat)
    requires !Showable(streams, rate, span)
    ensures ShowsSpan(NOTHING, streams, window, take, rate, span, target)
  {
    hide Showable;
  }

  lemma SpanShown(o: Outcome, streams: seq<seq<int16>>, window: nat, take: nat, rate: real, span: real, fits: real,
                  target: nat)
    requires streams != [] && Showable(streams, rate, span) && fits == rate * span && IsFloor(window, fits)
    requires FillsSpan(take, Least(streams), fits) && ShowsNewest(o, streams, take, rate, target)
    requires window > 0 && o.coverage == Coverage(take, window)
    ensures ShowsSpan(o, streams, window, take, rate, span, target)
  {
    hide ShowsNewest, FillsSpan, Least;
  }

  lemma WindowFits(u: History, span: real)
    requires Shaped(u)
    ensures Showable(u.channels, u.rate, span) ==>
              u.channels != [] && WindowOf(u, span) > 0 && IsFloor(WindowOf(u, span), u.rate * span)
    ensures !Showable(u.channels, u.rate, span) ==> WindowOf(u, span) == 0
  {
    if u.rate > 0.0 && span > 0.0 {
      SamplesFit(u.rate, span);
      hide SamplesIn;
    }
  }

  lemma TakeFits(least: nat, window: nat, fits: real)
    requires IsFloor(window, fits)
    ensures FillsSpan(Min(least, window), least, fits)
  {
  }

  lemma LeastPositive(streams: seq<seq<int16>>)
    requires streams != [] && forall ch :: 0 <= ch < |streams| ==> streams[ch] != []
    ensures Least(streams) > 0
  {
    var ch :| 0 <= ch < |streams| && Least(streams) == |streams[ch]|;
  }

  lemma CoverageOfTake(available: nat, window: nat)
    requires window > 0
    ensures Coverage(available, window) == Coverage(Min(available, window), window)
  {
  }

  lemma StreamsHaveSamples(now: seq<Frame>)
    requires AllWellFormed(now)
    ensures forall ch :: 0 <= ch < |Streams(now)| ==> Streams(now)[ch] != []
  {
    hide Held, Concat;
    forall ch | 0 <= ch < |Streams(now)|
      ensures Streams(now)[ch] != []
    {
      NonEmptyRuns(Held(now, ch));
    }
  }

  lemma MadeOfStreams(u: History, now: seq<Frame>)
    requires AllWellFormed(now) && MadeOf(u, now)
    ensures u.channels == Streams(now) && Shaped(u)
  {
    hide Held, Concat;
  }

  /** The frames that the last call shows from, by channel. */
  ghost function Current(batches: seq<seq<Frame>>): seq<seq<int16>>
    requires BatchesWellFormed(batches)
  {
    JoinedWellFormed(batches);
    ClosedForm(Joined(batches));
    Streams(SinceChange(Joined(batches)))
  }

  /**
   * The last outcome of any run with a fixed span, in terms of the input alone: of each channel the
   * newest samples since the last rate change, as many as the span holds and all channels have.
   */
  lemma LatestOutcome(batches: seq<seq<Frame>>, span: real, target: nat) returns (window: nat, take: nat)
    requires batches != [] && BatchesWellFormed(batches)
    ensures var outcomes := Refinement.Run(EMPTY, batches, span, target).1;
            outcomes != [] &&
            ShowsSpan(outcomes[|outcomes| - 1], Current(batches), window, take, RateAfter(Joined(batches)), span,
                      target)
  {
    hide Show, AcceptAll, Refinement.Run, Refinement.UnboundedRun, Streams, ShowsSpan, SinceChange, RateAfter, WindowOf;
    var kept := Refinement.RunRefines(batches, span, target);
    UnboundedKeepsAll(batches, span, target);
    ClosedForm(Joined(batches));
    LastShown(batches, span, target);
    var u := AcceptAll(EMPTY, Joined(batches));
    MadeOfStreams(u, SinceChange(Joined(batches)));
    StreamsHaveSamples(SinceChange(Joined(batches)));
    window, take := ShowsWindow(u, Streams(SinceChange(Joined(batches))), span, target);
  }

  /**
   * The recorded frame ends of channel 0: those of the frames since the last rate change that lie
   * after the start of the history.
   */
  lemma RecordedEnds(batches: seq<seq<Frame>>, span: real, target: nat)
    requires BatchesWellFormed(batches)
    ensures var h := Refinement.Run(EMPTY, batches, span, target).0; var ends := EndsOf(SinceChange(Joined(batches)));
            && |h.frameEnds| <= |ends| && h.frameEnds == ends[|ends| - |h.frameEnds|..]
            && forall i :: 0 <= i < |ends| ==>
                 (i >= |ends| - |h.frameEnds| <==>
                  ends[i] > Total(SinceChange(Joined(batches))) - if h.channels == [] then 0 else |h.channels[0]|)
  {
    hide AcceptAll, Refinement.Run, Refinement.UnboundedRun, Boundaries.BoundariesAgree, Boundaries.BoundariesInside;
    Boundaries.AlwaysAgree(batches, span, target);
    Boundaries.AlwaysInside(batches, span, target);
    var kept := Refinement.RunRefines(batches, span, target);
    UnboundedKeepsAll(batches, span, target);
    ClosedForm(Joined(batches));
    hide Refinement.SteadyKept, EndsOf, Total, Pruned, Start, Refinement.Keeps;
    EndsAfter(Refinement.Run(EMPTY, batches, span, target).0, AcceptAll(EMPTY, Joined(batches)));
  }

  lemma EndsAfter(h: History, u: History)
    requires Boundaries.BoundariesAgree(h, u) && Boundaries.BoundariesInside(h) && h.appended == u.appended
    ensures var ends := u.frameEnds;
            && |h.frameEnds| <= |ends| && h.frameEnds == ends[|ends| - |h.frameEnds|..]
            && forall i :: 0 <= i < |ends| ==>
                 (i >= |ends| - |h.frameEnds| <==>
                  ends[i] > u.appended - if h.channels == [] then 0 else |h.channels[0]|)
  {
    hide Pruned, Boundaries.Increasing;
    PrunedSplits(u.frameEnds, h.frameEnds, Start(h));
  }

  lemma PrunedSplits(ends: seq<nat>, kept: seq<nat>, start: int)
    requires kept == Pruned(ends, start) && forall i :: 0 <= i < |kept| ==> start < kept[i]
    ensures |kept| <= |ends| && kept == ends[|ends| - |kept|..]
    ensures forall i :: 0 <= i < |ends| ==> (i >= |ends| - |kept| <==> ends[i] > start)
  {
    var k := |ends| - |kept|;
    forall i | k <= i < |ends|
      ensures ends[i] > start
    {
      assert ends[i] == kept[i - k];
    }
  }

  // ---- Both decimations of the pipeline ----

  /**
   * End to end: raw frames go through the pipeline's MinMax stage and, in any batches, through a
   * display stage with a fixed span. When the samples that fill the span begin on a frame boundary of
   * a channel, that channel of the frame shown last has exactly the smallest and largest raw sample
   * of the frames it covers.
   */
  lemma PipelinePeaks(batches: seq<seq<Frame>>, raw: seq<Frame>, span: real, fits: real, target: nat,
                      displayTarget: nat, fallback: real, ch: nat, m: nat)
    requires AllWellFormed(raw) && target >= 2 && displayTarget >= 2
    requires batches != [] && BatchesWellFormed(batches)
    requires SinceChange(Joined(batches)) == DecimatedFrames(raw, target, fallback)
    requires Showable(Current(batches), RateAfter(Joined(batches)), span)
    requires SpanHolds(fits, RateAfter(Joined(batches)), span)
    requires ch < CountOf(raw) && m < |Held(raw, ch)|
    requires var held := Held(DecimatedFrames(raw, target, fallback), ch);
             && m <= |held| && Current(batches) != []
             && FillsSpan(|Concat(held[m..])|, Least(Current(batches)), fits)
    ensures var outcomes := Refinement.Run(EMPTY, batches, span, displayTarget).1;
            && outcomes != [] && outcomes[|outcomes| - 1].out.Some?
            && PeaksShown(outcomes[|outcomes| - 1].out.value, ch, Concat(Held(raw, ch)[m..]))
  {
    hide SpanHolds, Refinement.Run, DecimatedFrames, Current, RateAfter, Showable, FillsSpan, ShowsSpan, ShowsNewest;
    hide Held, Concat, CountOf, Least, Display, Peaks.SameExtent, Joined, SinceChange, PeaksShown, LastN;
    var ds, streams, rate := DecimatedFrames(raw, target, fallback), Current(batches), RateAfter(Joined(batches));
    DecimatedRuns(raw, target, fallback, ch);
    CurrentAt(batches, ds, ch);
    var window, take := LatestOutcome(batches, span, displayTarget);
    ChannelPeaks(Held(ds, ch), Held(raw, ch), m, target, displayTarget);
    var outcomes := Refinement.Run(EMPTY, batches, span, displayTarget).1;
    PeaksFrom(outcomes[|outcomes| - 1], streams, window, take, |Concat(Held(ds, ch)[m..])|, rate, span, fits,
              displayTarget, ch, Concat(Held(raw, ch)[m..]));
  }

  lemma CurrentAt(batches: seq<seq<Frame>>, now: seq<Frame>, ch: nat)
    requires BatchesWellFormed(batches) && AllWellFormed(now) && ch < CountOf(now)
    requires SinceChange(Joined(batches)) == now
    ensures ch < |Current(batches)| && Current(batches)[ch] == Concat(Held(now, ch))
  {
    hide Held, Concat, SinceChange, Joined, AllWellFormed;
  }

  lemma PeaksFrom(o: Outcome, streams: seq<seq<int16>>, window: nat, take: nat, shown: nat, rate: real, span: real,
                  fits: real, target: nat, ch: nat, samples: seq<int16>)
    requires Showable(streams, rate, span) && ShowsSpan(o, streams, window, take, rate, span, target)
    requires SpanHolds(fits, rate, span) && streams != [] && FillsSpan(shown, Least(streams), fits)
    requires ch < |streams| && shown <= |streams[ch]|
    requires Peaks.SameExtent(Display(LastN(streams[ch], shown), target), samples)
    ensures o.out.Some? && PeaksShown(o.out.value, ch, samples)
  {
    hide *;
    TakeOfSpan(o, streams, window, take, shown, rate, span, fits, target);
    PeaksOf(o, streams, shown, rate, target, ch, samples);
  }

  /** Only one number of samples fills the span. */
  lemma TakeOfSpan(o: Outcome, streams: seq<seq<int16>>, window: nat, take: nat, shown: nat, rate: real, span: real,
                   fits: real, target: nat)
    requires Showable(streams, rate, span) && ShowsSpan(o, streams, window, take, rate, span, target)
    requires streams != [] && SpanHolds(fits, rate, span) && FillsSpan(shown, Least(streams), fits)
    ensures ShowsNewest(o, streams, shown, rate, target)
  {
    hide ShowsNewest, Showable, Least;
    assert shown == take;
  }

  /** Channel ch of the frame has the smallest and the largest of the given samples. */
  ghost predicate PeaksShown(f: Frame, ch: nat, samples: seq<int16>)
  {
    && 0 <= ch * f.samplesPerChannel <= ch * f.samplesPerChannel + f.samplesPerChannel <= |f.data|
    && Peaks.SameExtent(Channel(f.data, f.samplesPerChannel, ch), samples)
  }

  lemma PeaksOf(o: Outcome, streams: seq<seq<int16>>, take: nat, rate: real, target: nat, ch: nat, samples: seq<int16>)
    requires ch < |streams| && take <= |streams[ch]| && ShowsNewest(o, streams, take, rate, target)
    requires Peaks.SameExtent(Display(LastN(streams[ch], take), target), samples)
    ensures o.out.Some? && PeaksShown(o.out.value, ch, samples)
  {
    hide ExtentOf, Decimator.MinMax, LastN, Stage.WellFormed;
    Decimator.MinMaxLength(LastN(streams[ch], take), target);
    assert |Display(LastN(streams[ch], take), target)| == DisplayLength(take, target);
  }
}
