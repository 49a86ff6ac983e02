/** How a decimation worker drains its ring into a sliding history. */
module DrainHistory {
  import opened Samples
  import opened ChannelMajor
  import opened RingBuffer

  /**
   * n samples are what a display span asks for: as many whole samples as the span holds, but at least
   * one and at most maxSamples; none without a rate, a span or room.
   */
  ghost predicate IsWindow(n: nat, sampleRate: real, timeSpan: real, maxSamples: nat)
  {
    if sampleRate <= 0.0 || timeSpan <= 0.0 || maxSamples == 0 then n == 0
    else
      && 1 <= n <= maxSamples
      && (n as real <= sampleRate * timeSpan || n == 1)
      && (sampleRate * timeSpan < n as real + 1.0 || n == maxSamples)
  }

  /** Only one number of samples is. */
  lemma WindowUnique(m: nat, n: nat, sampleRate: real, timeSpan: real, maxSamples: nat)
    requires IsWindow(m, sampleRate, timeSpan, maxSamples) && IsWindow(n, sampleRate, timeSpan, maxSamples)
    ensures m == n
  {
    if sampleRate > 0.0 && timeSpan > 0.0 && maxSamples > 0 {
      OneBetween(m, n, sampleRate * timeSpan, maxSamples);
    }
  }

  lemma OneBetween(m: nat, n: nat, fits: real, most: nat)
    requires 1 <= m <= most && 1 <= n <= most
    requires m as real <= fits || m == 1
    requires n as real <= fits || n == 1
    requires fits < m as real + 1.0 || m == most
    requires fits < n as real + 1.0 || n == most
    ensures m == n
  {
  }

  /** compute_window_samples, in exact arithmetic; 0 means no window. */
  function WindowSamples(sampleRate: real, timeSpan: real, maxSamples: nat): (n: nat)
    ensures IsWindow(n, sampleRate, timeSpan, maxSamples)
  {
    if sampleRate <= 0.0 || timeSpan <= 0.0 || maxSamples == 0 then 0
    else
      var desired := if sampleRate * timeSpan < 1.0 then 1.0 else sampleRate * timeSpan;
      Min(desired.Floor, maxSamples)
  }

  /** The newest `window` samples; a zero window trims nothing. */
  function Trimmed(s: seq<int16>, window: nat): seq<int16>
  {
    if window > 0 && |s| > window then LastN(s, window) else s
  }

  /** The plain drain: append everything observed, then trim. Without new samples nothing is trimmed. */
  function Drained(hist: seq<int16>, observed: seq<int16>, window: nat): seq<int16>
  {
    if observed == [] then hist else Trimmed(hist + observed, window)
  }

  /** Skipping the samples that trimming would remove anyway changes nothing. */
  lemma ShortcutIsInvisible(hist: seq<int16>, observed: seq<int16>, window: nat)
    requires 0 < window < |observed|
    ensures Trimmed(hist + LastN(observed, window), window) == Trimmed(hist + observed, window)
  {
    assert LastN(hist + observed, window) == LastN(observed, window);
    assert |hist| > 0 ==> LastN(hist + LastN(observed, window), window) == LastN(observed, window);
    assert hist == [] ==> hist + LastN(observed, window) == LastN(observed, window);
  }

  /**
   * The drain as the code does it, with the producer pushing `meanwhile1` and `meanwhile2` between
   * the calls. Because nobody else consumes, the pop returns exactly what was counted beforehand.
   */
  method DrainChannel(ring: RingBufferView, hist: seq<int16>, window: nat,
                      meanwhile1: seq<int16>, meanwhile2: seq<int16>)
    returns (drained: seq<int16>, popped: nat, arrived1: nat, arrived2: nat)
    requires ring.Valid()
    modifies ring`head, ring`tail, ring.data
    ensures ring.Valid()
    ensures drained == Drained(hist, old(ring.Contents()), window)
    ensures old(ring.Contents()) == [] ==> drained == hist
    ensures old(ring.Contents()) != [] ==>
              var all := hist + old(ring.Contents());
              drained == if 0 < window < |all| then all[|all| - window..] else all
    ensures popped == Min(|old(ring.Contents())|, if window > 0 then window else |old(ring.Contents())|)
    ensures arrived1 <= |meanwhile1| && arrived2 <= |meanwhile2|
    ensures ring.Contents() == meanwhile1[..arrived1] + meanwhile2[..arrived2]
  {
    hide RingBufferView.Valid, RingBufferView.Contents, Drained, Newest;
    ghost var observed := ring.Contents();
    var avail := ring.Size();
    arrived1 := ring.PushBulk(meanwhile1);
    SkipInPrefix(observed, meanwhile1[..arrived1], window);
    avail := SkipOld(ring, avail, window);
    ghost var left := Newest(observed, window);
    arrived2 := ring.PushBulk(meanwhile2);
    PrefixOfThree(left, meanwhile1[..arrived1], meanwhile2[..arrived2]);
    DrainOfNewest(hist, observed, window);
    drained, popped := TakeCounted(ring, hist, avail, window);
    DrainedIs(hist, observed, window);
  }

  lemma DrainedIs(hist: seq<int16>, observed: seq<int16>, window: nat)
    ensures observed == [] ==> Drained(hist, observed, window) == hist
    ensures observed != [] ==>
              var all := hist + observed;
              Drained(hist, observed, window) == if 0 < window < |all| then all[|all| - window..] else all
  {
  }

  /** The drain of one channel at the display's rate and span: the ring's capacity limits the window. */
  method DrainAtSpan(ring: RingBufferView, hist: seq<int16>, sampleRate: real, timeSpan: real,
                     meanwhile1: seq<int16>, meanwhile2: seq<int16>)
    returns (drained: seq<int16>, window: nat, popped: nat, arrived1: nat, arrived2: nat)
    requires ring.Valid()
    modifies ring`head, ring`tail, ring.data
    ensures ring.Valid() && IsWindow(window, sampleRate, timeSpan, ring.capacity - 1)
    ensures drained == Drained(hist, old(ring.Contents()), window)
    ensures popped <= |old(ring.Contents())| && (window > 0 ==> popped <= window)
    ensures arrived1 <= |meanwhile1| && arrived2 <= |meanwhile2|
    ensures ring.Contents() == meanwhile1[..arrived1] + meanwhile2[..arrived2]
  {
    window := WindowSamples(sampleRate, timeSpan, ring.capacity - 1);
    hide WindowSamples, IsWindow, RingBufferView.Contents, Drained;
    drained, popped, arrived1, arrived2 := DrainChannel(ring, hist, window, meanwhile1, meanwhile2);
  }

  /** What is left of the observed samples once the window decided how many to skip. */
  function Newest(observed: seq<int16>, window: nat): (r: seq<int16>)
    ensures |r| == Min(|observed|, if window > 0 then window else |observed|)
  {
    if window > 0 && |observed| > window then LastN(observed, window) else observed
  }

  lemma SkipInPrefix(observed: seq<int16>, added: seq<int16>, window: nat)
    ensures (observed + added)[|observed| - |Newest(observed, window)|..] == Newest(observed, window) + added
    ensures |Newest(observed, window)| == if window > 0 && |observed| > window then window else |observed|
  {
  }

  lemma PrefixOfThree(a: seq<int16>, b: seq<int16>, c: seq<int16>)
    ensures ((a + b) + c)[..|a|] == a && ((a + b) + c)[|a|..] == b + c
  {
  }

  lemma DrainOfNewest(hist: seq<int16>, observed: seq<int16>, window: nat)
    ensures Drained(hist, Newest(observed, window), window) == Drained(hist, observed, window)
  {
    if 0 < window < |observed| {
      ShortcutIsInvisible(hist, observed, window);
    }
  }

  /** Append the counted samples to the history and trim it; with none counted nothing is touched. */
  method TakeCounted(ring: RingBufferView, hist: seq<int16>, avail: nat, window: nat)
    returns (drained: seq<int16>, popped: nat)
    requires ring.Valid() && avail <= |ring.Contents()|
    modifies ring`tail
    ensures ring.Valid() && ring.Contents() == old(ring.Contents())[avail..]
    ensures drained == Drained(hist, old(ring.Contents())[..avail], window) && popped == avail
  {
    hide RingBufferView.Valid, RingBufferView.Contents;
    drained, popped := hist, 0;
    if avail > 0 {
      var newest := PopCounted(ring, avail);
      popped := |newest|;
      drained := hist + newest;
      if window > 0 && |drained| > window {
        drained := drained[|drained| - window..];
      }
    }
  }

  /** Discard what exceeds the window of the `avail` samples counted, and count again. */
  method SkipOld(ring: RingBufferView, avail: nat, window: nat) returns (rest: nat)
    requires ring.Valid() && avail <= |ring.Contents()|
    modifies ring`tail
    ensures ring.Valid() && rest <= |ring.Contents()|
    ensures rest == if window > 0 && avail > window then window else avail
    ensures ring.Contents() == old(ring.Contents())[avail - rest..]
  {
    rest := avail;
    if window > 0 && avail > window {
      var discarded := ring.DiscardBulk(avail - window);
      rest := window;
    }
  }

  /** pop_bulk of as many samples as were counted before: it returns all of them. */
  method PopCounted(ring: RingBufferView, avail: nat) returns (out: seq<int16>)
    requires ring.Valid() && avail <= |ring.Contents()|
    modifies ring`tail
    ensures ring.Valid() && out == old(ring.Contents())[..avail]
    ensures ring.Contents() == old(ring.Contents())[avail..]
  {
    var buf := new int16[avail];
    var popped := ring.PopBulk(buf, avail);
    out := buf[..popped];
  }

  /** One drain of a channel: what its ring held, and the window in force. */
  datatype Round = Round(observed: seq<int16>, window: nat)

  function HistoryAfter(rounds: seq<Round>): seq<int16>
  {
    if rounds == [] then []
    else Drained(HistoryAfter(rounds[..|rounds| - 1]), rounds[|rounds| - 1].observed, rounds[|rounds| - 1].window)
  }

  /** Everything that was popped or discarded, in order. */
  function Consumed(rounds: seq<Round>): seq<int16>
  {
    if rounds == [] then [] else Consumed(rounds[..|rounds| - 1]) + rounds[|rounds| - 1].observed
  }

  /** Over any run of drains, with any window changes, the history is a gap-free suffix of what was consumed. */
  lemma {:induction false} HistoryIsSuffix(rounds: seq<Round>)
    ensures |HistoryAfter(rounds)| <= |Consumed(rounds)|
    ensures HistoryAfter(rounds) == LastN(Consumed(rounds), |HistoryAfter(rounds)|)
  {
    if rounds != [] {
      var m := |rounds| - 1;
      HistoryIsSuffix(rounds[..m]);
      var hist, all, r := HistoryAfter(rounds[..m]), Consumed(rounds[..m]), rounds[m];
      assert hist + r.observed == LastN(all + r.observed, |hist| + |r.observed|);
    }
  }

  /** With one positive window throughout, the history is exactly the newest window of what was consumed. */
  lemma {:induction false} ConstantWindow(rounds: seq<Round>, window: nat)
    requires window > 0 && OneWindow(rounds, window)
    ensures HistoryAfter(rounds) == LastN(Consumed(rounds), Min(|Consumed(rounds)|, window))
  {
    if rounds != [] {
      var m := |rounds| - 1;
      ConstantWindow(rounds[..m], window);
      NewestAfter(HistoryAfter(rounds[..m]), Consumed(rounds[..m]), rounds[m].observed, window);
    }
  }

  lemma NewestAfter(hist: seq<int16>, all: seq<int16>, observed: seq<int16>, window: nat)
    requires window > 0 && hist == LastN(all, Min(|all|, window))
    ensures Drained(hist, observed, window) == LastN(all + observed, Min(|all + observed|, window))
  {
    if observed == [] {
      assert all + observed == all;
    }
  }

  ghost predicate OneWindow(rounds: seq<Round>, window: nat)
  {
    forall k :: 0 <= k < |rounds| ==> rounds[k].window == window
  }

  /**
   * The history is a gap-free suffix of what the rounds consumed; with one positive window throughout
   * exactly its newest window, and with no window all of it.
   */
  ghost predicate ComesFrom(hist: seq<int16>, rounds: seq<Round>)
  {
    var consumed := Consumed(rounds);
    && |hist| <= |consumed| && hist == LastN(consumed, |hist|)
    && forall window: nat ::
         OneWindow(rounds, window) ==>
           hist == LastN(consumed, if window > 0 then Min(|consumed|, window) else |consumed|)
  }

  lemma DrainedHistory(rounds: seq<Round>)
    ensures ComesFrom(HistoryAfter(rounds), rounds)
  {
    HistoryIsSuffix(rounds);
    forall window: nat | OneWindow(rounds, window)
      ensures HistoryAfter(rounds) ==
              LastN(Consumed(rounds), if window > 0 then Min(|Consumed(rounds)|, window) else |Consumed(rounds)|)
    {
      if window > 0 {
        ConstantWindow(rounds, window);
      } else {
        NoWindow(rounds);
      }
    }
  }

  lemma {:induction false} NoWindow(rounds: seq<Round>)
    requires OneWindow(rounds, 0)
    ensures HistoryAfter(rounds) == Consumed(rounds)
  {
    if rounds != [] {
      NoWindow(rounds[..|rounds| - 1]);
    }
  }

  ghost predicate AtSpan(rounds: seq<Round>, sampleRate: real, timeSpan: real, maxSamples: nat)
  {
    forall k :: 0 <= k < |rounds| ==> IsWindow(rounds[k].window, sampleRate, timeSpan, maxSamples)
  }

  /** At one rate and span, the history is exactly the newest samples that the span asks for. */
  lemma SpanHistory(hist: seq<int16>, rounds: seq<Round>, sampleRate: real, timeSpan: real, maxSamples: nat)
    returns (n: nat)
    requires ComesFrom(hist, rounds) && AtSpan(rounds, sampleRate, timeSpan, maxSamples)
    ensures IsWindow(n, sampleRate, timeSpan, maxSamples)
    ensures var all := Consumed(rounds); hist == if 0 < n < |all| then all[|all| - n..] else all
  {
    n := WindowSamples(sampleRate, timeSpan, maxSamples);
    hide WindowSamples, IsWindow;
    forall k | 0 <= k < |rounds|
      ensures rounds[k].window == n
    {
      WindowUnique(rounds[k].window, n, sampleRate, timeSpan, maxSamples);
    }
    assert OneWindow(rounds, n);
  }

  /** A drain that brought samples leaves at most a positive window, and all of it once enough was consumed. */
  lemma HistoryFillsWindow(rounds: seq<Round>, r: Round)
    requires r.observed != [] && r.window > 0
    ensures |HistoryAfter(rounds + [r])| <= r.window
    ensures |HistoryAfter(rounds)| + |r.observed| >= r.window ==> |HistoryAfter(rounds + [r])| == r.window
  {
    assert (rounds + [r])[..|rounds|] == rounds;
  }
}
