/** The bounded history shows exactly what the unbounded one would. */
module VisualizationRefinement {
  import opened Samples
  import opened Frames
  import opened ChannelMajor
  import opened Visualization
  import Stage = DecimationStage

  /** s is the newest part of t. */
  ghost predicate IsSuffix(s: seq<int16>, t: seq<int16>)
  {
    |s| <= |t| && s == t[|t| - |s|..]
  }

  /** s has everything of t, or at least its newest `kept` samples. */
  ghost predicate Keeps(s: seq<int16>, t: seq<int16>, kept: Option<nat>)
  {
    IsSuffix(s, t) && (s == t || (kept.Some? && kept.value <= |s|))
  }

  /**
   * h follows u: the same rate, channel count and frame accounting, and in every channel all the
   * samples, or as many of the newest as `kept` says. `kept` is None while nothing was trimmed.
   */
  ghost predicate Follows(h: History, u: History, kept: Option<nat>)
  {
    && Shaped(h) && Shaped(u)
    && h.rate == u.rate && h.channelCount == u.channelCount && h.appended == u.appended
    && forall ch :: 0 <= ch < |h.channels| ==> Keeps(h.channels[ch], u.channels[ch], kept)
  }

  lemma KeepsAppend(s: seq<int16>, t: seq<int16>, kept: Option<nat>, added: seq<int16>)
    requires Keeps(s, t, kept)
    ensures Keeps(s + added, t + added, kept)
  {
    assert s != t ==> t == t[..|t| - |s|] + s;
  }

  lemma KeepsCapped(s: seq<int16>, t: seq<int16>, kept: Option<nat>, most: nat)
    requires Keeps(s, t, kept)
    ensures Keeps(Capped(s, most), t, Tighter(kept, most))
  {
  }

  /** Trimming to `most` keeps the smaller of the two guarantees. */
  function Tighter(kept: Option<nat>, most: nat): Option<nat>
  {
    if kept.Some? && kept.value <= most then kept else Some(most)
  }

  /** What is known to be kept after a frame: a rate change forgets the past of both versions. */
  function KeptAfter(h: History, f: Frame, kept: Option<nat>): Option<nat>
  {
    if !Stage.IsSkipped(f) && f.sampleRate > 0.0 && h.rate > 0.0 && f.sampleRate != h.rate then None else kept
  }

  function KeptAfterAll(h: History, batch: seq<Frame>, kept: Option<nat>): Option<nat>
    requires Shaped(h) && forall i :: 0 <= i < |batch| ==> Stage.WellFormed(batch[i])
  {
    if batch == [] then kept
    else
      var m := |batch| - 1;
      KeptAfter(AcceptAll(h, batch[..m]), batch[m], KeptAfterAll(h, batch[..m], kept))
  }

  lemma MeetRateFollows(h: History, u: History, kept: Option<nat>, f: Frame)
    requires Follows(h, u, kept) && !Stage.IsSkipped(f)
    ensures Follows(MeetRate(h, f.sampleRate), MeetRate(u, f.sampleRate), KeptAfter(h, f, kept))
  {
  }

  lemma AcceptFollows(h: History, u: History, kept: Option<nat>, f: Frame)
    requires Follows(h, u, kept) && Stage.WellFormed(f)
    ensures Follows(Accept(h, f), Accept(u, f), KeptAfter(h, f, kept))
  {
    if !Stage.IsSkipped(f) {
      MeetRateFollows(h, u, kept, f);
      var g, v, k := MeetRate(h, f.sampleRate), MeetRate(u, f.sampleRate), KeptAfter(h, f, kept);
      var added := Stage.Channels(f, f.channelCount);
      hide MeetRate, KeptAfter, Stage.Channels, Keeps;
      forall ch | 0 <= ch < f.channelCount
        ensures Keeps(Accept(h, f).channels[ch], Accept(u, f).channels[ch], k)
      {
        var s, t := Resized(g.channels, f.channelCount)[ch], Resized(v.channels, f.channelCount)[ch];
        assert Keeps(s, t, k) by { EmptyKeeps(k); }
        KeepsAppend(s, t, k, added[ch]);
      }
    }
  }

  lemma EmptyKeeps(kept: Option<nat>)
    ensures Keeps([], [], kept)
  {
  }

  lemma {:induction false} AcceptAllFollows(h: History, u: History, kept: Option<nat>, batch: seq<Frame>)
    requires Follows(h, u, kept) && forall i :: 0 <= i < |batch| ==> Stage.WellFormed(batch[i])
    ensures Follows(AcceptAll(h, batch), AcceptAll(u, batch), KeptAfterAll(h, batch, kept))
  {
    if batch != [] {
      hide Accept, KeptAfter, Follows;
      var m := |batch| - 1;
      assert Shaped(u) by { FollowsShaped(h, u, kept); }
      AcceptAllFollows(h, u, kept, batch[..m]);
      AcceptFollows(AcceptAll(h, batch[..m]), AcceptAll(u, batch[..m]), KeptAfterAll(h, batch[..m], kept), batch[m]);
    }
  }

  lemma FollowsShaped(h: History, u: History, kept: Option<nat>)
    requires Follows(h, u, kept)
    ensures Shaped(h) && Shaped(u)
  {
  }

  lemma TrimFollows(h: History, u: History, kept: Option<nat>, window: nat)
    requires Follows(h, u, kept)
    ensures Follows(Trim(h, window), u, Tighter(kept, 2 * window))
  {
    hide Keeps, Capped, Pruned;
    var g := Trim(h, window);
    forall ch | 0 <= ch < |g.channels|
      ensures Keeps(g.channels[ch], u.channels[ch], Tighter(kept, 2 * window))
    {
      KeepsCapped(h.channels[ch], u.channels[ch], kept, 2 * window);
    }
  }

  /** Enough is kept for a window if nothing was trimmed, or at least a window's worth remains. */
  predicate Covers(kept: Option<nat>, window: nat)
  {
    kept.None? || window <= kept.value
  }

  /** The windows of both versions have the same length. */
  lemma SameTake(h: History, u: History, kept: Option<nat>, window: nat)
    requires Follows(h, u, kept) && Covers(kept, window) && h.channels != []
    ensures Min(Least(h.channels), window) == Min(Least(u.channels), window)
  {
    hide *;
    FollowsMeta(h, u, kept);
    var ch := Narrowest(h.channels);
    var c := Narrowest(u.channels);
    KeptAt(h, u, kept, ch);
    KeptAt(h, u, kept, c);
    SameLength(h.channels[ch], u.channels[ch], kept, window);
    SameLength(h.channels[c], u.channels[c], kept, window);
    LeastBelow(h.channels, c);
    LeastBelow(u.channels, ch);
    MinMeets(Least(h.channels), Least(u.channels), |h.channels[c]|, |u.channels[ch]|, window);
  }

  lemma MinMeets(a: nat, b: nat, c: nat, d: nat, window: nat)
    requires a <= c && b <= d && Min(a, window) == Min(d, window) && Min(c, window) == Min(b, window)
    ensures Min(a, window) == Min(b, window)
  {
  }

  lemma Narrowest(channels: seq<seq<int16>>) returns (ch: nat)
    requires channels != []
    ensures ch < |channels| && Least(channels) == |channels[ch]|
  {
    ch :| ch < |channels| && Least(channels) == |channels[ch]|;
  }

  lemma LeastBelow(channels: seq<seq<int16>>, ch: nat)
    requires ch < |channels|
    ensures Least(channels) <= |channels[ch]|
  {
  }

  lemma KeptAt(h: History, u: History, kept: Option<nat>, ch: nat)
    requires Follows(h, u, kept) && ch < |h.channels|
    ensures ch < |u.channels| && Keeps(h.channels[ch], u.channels[ch], kept)
  {
    hide Keeps;
  }

  lemma SameLength(s: seq<int16>, t: seq<int16>, kept: Option<nat>, window: nat)
    requires Keeps(s, t, kept) && Covers(kept, window)
    ensures Min(|s|, window) == Min(|t|, window)
  {
  }

  lemma SameWindow(s: seq<int16>, t: seq<int16>, take: nat)
    requires IsSuffix(s, t) && take <= |s|
    ensures LastN(s, take) == LastN(t, take)
  {
  }

  lemma SameParts(h: History, u: History, kept: Option<nat>, take: nat, target: nat)
    requires Follows(h, u, kept)
    requires forall ch :: 0 <= ch < |h.channels| ==> take <= |h.channels[ch]|
    ensures forall ch :: 0 <= ch < |u.channels| ==> take <= |u.channels[ch]|
    ensures DisplayAll(h.channels, take, target) == DisplayAll(u.channels, take, target)
  {
    hide Display;
    forall ch | 0 <= ch < |h.channels|
      ensures take <= |u.channels[ch]| && LastN(h.channels[ch], take) == LastN(u.channels[ch], take)
    {
      assert Keeps(h.channels[ch], u.channels[ch], kept);
      SameWindow(h.channels[ch], u.channels[ch], take);
    }
  }

  lemma SameEmptiness(h: History, u: History, kept: Option<nat>, window: nat)
    requires Follows(h, u, kept) && Covers(kept, window) && window > 0
    ensures (forall ch :: 0 <= ch < |h.channels| ==> h.channels[ch] == []) <==>
            (forall ch :: 0 <= ch < |u.channels| ==> u.channels[ch] == [])
  {
    forall ch | 0 <= ch < |h.channels|
      ensures h.channels[ch] == [] <==> u.channels[ch] == []
    {
      assert Keeps(h.channels[ch], u.channels[ch], kept);
    }
  }

  lemma SameCoverage(a: nat, b: nat, window: nat)
    requires window > 0 && Min(a, window) == Min(b, window)
    ensures Coverage(a, window) == Coverage(b, window)
  {
  }

  lemma ShowsTheSame(h: History, u: History, kept: Option<nat>, window: nat, target: nat)
    requires Follows(h, u, kept) && Covers(kept, window) && window > 0
    ensures Show(h, window, target) == Show(u, window, target)
  {
    hide *;
    FollowsMeta(h, u, kept);
    SameEmptiness(h, u, kept, window);
    if !(forall ch :: 0 <= ch < |h.channels| ==> h.channels[ch] == []) {
      var take := Min(Least(h.channels), window);
      SameTake(h, u, kept, window);
      SameCoverage(Least(h.channels), Least(u.channels), window);
      ShowIs(h, window, target);
      SameParts(h, u, kept, take, target);
      ShowIs(u, window, target);
    } else {
      ShowNothing(h, window, target);
      ShowNothing(u, window, target);
    }
  }

  lemma ShowNothing(h: History, window: nat, target: nat)
    requires Shaped(h) && window > 0 && forall ch :: 0 <= ch < |h.channels| ==> h.channels[ch] == []
    ensures Show(h, window, target) == NOTHING
  {
  }

  lemma ShowIs(h: History, window: nat, target: nat)
    requires Shaped(h) && window > 0 && exists ch :: 0 <= ch < |h.channels| && h.channels[ch] != []
    ensures forall ch :: 0 <= ch < |h.channels| ==> Min(Least(h.channels), window) <= |h.channels[ch]|
    ensures var parts := DisplayAll(h.channels, Min(Least(h.channels), window), target);
            var coverage := Coverage(Least(h.channels), window);
            Show(h, window, target) ==
              if parts[0] == [] then Outcome(Stage.NoData, None, coverage)
              else Outcome(Stage.Ok, Some(Frame(0, h.channelCount, |parts[0]|, h.rate, Concat(parts))), coverage)
  {
    hide Coverage, Concat, Display;
  }

  lemma FollowsMeta(h: History, u: History, kept: Option<nat>)
    requires Follows(h, u, kept)
    ensures h.rate == u.rate && h.channelCount == u.channelCount && |h.channels| == |u.channels| == h.channelCount
    ensures Shaped(h) && Shaped(u)
  {
  }

  /** What is kept after one call of the stage. */
  function KeptAfterStep(h: History, kept: Option<nat>, batch: seq<Frame>, span: real): Option<nat>
    requires Shaped(h) && forall i :: 0 <= i < |batch| ==> Stage.WellFormed(batch[i])
  {
    var w := WindowOf(AcceptAll(h, batch), span);
    var k := KeptAfterAll(h, batch, kept);
    if w == 0 then k else Tighter(k, 2 * w)
  }

  /**
   * One call shows the same as the unbounded version, and stays in step with it, whenever the window
   * is at most what was kept: twice the smallest window used since the last rate change.
   */
  lemma StepRefines(h: History, u: History, kept: Option<nat>, batch: seq<Frame>, span: real, target: nat)
    requires Follows(h, u, kept) && forall i :: 0 <= i < |batch| ==> Stage.WellFormed(batch[i])
    requires Covers(KeptAfterAll(h, batch, kept), WindowOf(AcceptAll(h, batch), span))
    ensures Step(h, batch, span, target).1 == UnboundedStep(u, batch, span, target).1
    ensures Follows(Step(h, batch, span, target).0, UnboundedStep(u, batch, span, target).0,
                    KeptAfterStep(h, kept, batch, span))
  {
    AcceptAllFollows(h, u, kept, batch);
    var g, v, k := AcceptAll(h, batch), AcceptAll(u, batch), KeptAfterAll(h, batch, kept);
    SameWindowSize(g, v, k, span);
    hide *;
    FollowsShaped(h, u, kept);
    FollowsShaped(g, v, k);
    StepIs(h, batch, span, target);
    UnboundedStepIs(u, batch, span, target);
    KeptAfterStepIs(h, kept, batch, span);
    var w := WindowOf(g, span);
    if w > 0 {
      TrimFollows(g, v, k, w);
      TighterCovers(k, w);
      ShowsTheSame(Trim(g, w), v, Tighter(k, 2 * w), w, target);
    }
  }

  /** Whatever the span, one call leaves both versions in step. */
  lemma StepFollows(h: History, u: History, kept: Option<nat>, batch: seq<Frame>, span: real, target: nat)
    requires Follows(h, u, kept) && forall i :: 0 <= i < |batch| ==> Stage.WellFormed(batch[i])
    ensures Shaped(h) && Shaped(u)
    ensures Follows(Step(h, batch, span, target).0, UnboundedStep(u, batch, span, target).0,
                    KeptAfterStep(h, kept, batch, span))
  {
    FollowsShaped(h, u, kept);
    AcceptAllFollows(h, u, kept, batch);
    var g, v, k := AcceptAll(h, batch), AcceptAll(u, batch), KeptAfterAll(h, batch, kept);
    SameWindowSize(g, v, k, span);
    hide *;
    FollowsShaped(g, v, k);
    StepIs(h, batch, span, target);
    UnboundedStepIs(u, batch, span, target);
    KeptAfterStepIs(h, kept, batch, span);
    if WindowOf(g, span) > 0 {
      TrimFollows(g, v, k, WindowOf(g, span));
    }
  }

  lemma TighterCovers(kept: Option<nat>, window: nat)
    requires Covers(kept, window)
    ensures Covers(Tighter(kept, 2 * window), window)
  {
  }

  lemma StepIs(h: History, batch: seq<Frame>, span: real, target: nat)
    requires Shaped(h) && forall i :: 0 <= i < |batch| ==> Stage.WellFormed(batch[i])
    ensures var g := AcceptAll(h, batch); var w := WindowOf(g, span);
            Step(h, batch, span, target) == if w == 0 then (g, NOTHING) else (Trim(g, w), Show(Trim(g, w), w, target))
  {
  }

  lemma UnboundedStepIs(u: History, batch: seq<Frame>, span: real, target: nat)
    requires Shaped(u) && forall i :: 0 <= i < |batch| ==> Stage.WellFormed(batch[i])
    ensures var g := AcceptAll(u, batch); var w := WindowOf(g, span);
            UnboundedStep(u, batch, span, target) == if w == 0 then (g, NOTHING) else (g, Show(g, w, target))
  {
  }

  lemma KeptAfterStepIs(h: History, kept: Option<nat>, batch: seq<Frame>, span: real)
    requires Shaped(h) && forall i :: 0 <= i < |batch| ==> Stage.WellFormed(batch[i])
    ensures var w := WindowOf(AcceptAll(h, batch), span); var k := KeptAfterAll(h, batch, kept);
            KeptAfterStep(h, kept, batch, span) == if w == 0 then k else Tighter(k, 2 * w)
  {
  }

  lemma SameWindowSize(h: History, u: History, kept: Option<nat>, span: real)
    requires Follows(h, u, kept)
    ensures WindowOf(h, span) == WindowOf(u, span)
  {
  }

  // ---- Whole runs with a fixed time span ----

  /** The outcomes of a sequence of calls, and the history they leave. */
  function Run(h: History, batches: seq<seq<Frame>>, span: real, target: nat): (r: (History, seq<Outcome>))
    requires Shaped(h) && forall b, i :: 0 <= b < |batches| && 0 <= i < |batches[b]| ==> Stage.WellFormed(batches[b][i])
    ensures Shaped(r.0)
  {
    if batches == [] then (h, [])
    else
      var m := |batches| - 1;
      var before := Run(h, batches[..m], span, target);
      var after := Step(before.0, batches[m], span, target);
      (after.0, before.1 + [after.1])
  }

  function UnboundedRun(u: History, batches: seq<seq<Frame>>, span: real, target: nat): (r: (History, seq<Outcome>))
    requires Shaped(u) && forall b, i :: 0 <= b < |batches| && 0 <= i < |batches[b]| ==> Stage.WellFormed(batches[b][i])
    ensures Shaped(r.0)
  {
    if batches == [] then (u, [])
    else
      var m := |batches| - 1;
      var before := UnboundedRun(u, batches[..m], span, target);
      var after := UnboundedStep(before.0, batches[m], span, target);
      (after.0, before.1 + [after.1])
  }

  /** With a fixed span, what is kept is two windows at the current rate. */
  ghost predicate SteadyKept(h: History, kept: Option<nat>, span: real)
  {
    kept.None? || (h.channelCount > 0 && WindowOf(h, span) > 0 && kept.value == 2 * WindowOf(h, span))
  }

  lemma SteadyAccept(h: History, kept: Option<nat>, f: Frame, span: real)
    requires Shaped(h) && SteadyKept(h, kept, span) && Stage.WellFormed(f)
    ensures SteadyKept(Accept(h, f), KeptAfter(h, f, kept), span)
  {
    hide SamplesIn, Stage.Channels;
    var g := Accept(h, f);
    if KeptAfter(h, f, kept).Some? && !Stage.IsSkipped(f) {
      assert g.rate == h.rate && g.channelCount > 0;
    }
  }

  lemma {:induction false} SteadyAcceptAll(h: History, kept: Option<nat>, batch: seq<Frame>, span: real)
    requires Shaped(h) && SteadyKept(h, kept, span) && forall i :: 0 <= i < |batch| ==> Stage.WellFormed(batch[i])
    ensures SteadyKept(AcceptAll(h, batch), KeptAfterAll(h, batch, kept), span)
  {
    if batch != [] {
      hide Accept, KeptAfter, SteadyKept;
      var m := |batch| - 1;
      SteadyAcceptAll(h, kept, batch[..m], span);
      SteadyAccept(AcceptAll(h, batch[..m]), KeptAfterAll(h, batch[..m], kept), batch[m], span);
    }
  }

  lemma SteadyStep(h: History, kept: Option<nat>, batch: seq<Frame>, span: real, target: nat)
    requires Shaped(h) && SteadyKept(h, kept, span) && forall i :: 0 <= i < |batch| ==> Stage.WellFormed(batch[i])
    ensures Covers(KeptAfterAll(h, batch, kept), WindowOf(AcceptAll(h, batch), span))
    ensures SteadyKept(Step(h, batch, span, target).0, KeptAfterStep(h, kept, batch, span), span)
  {
    SteadyAcceptAll(h, kept, batch, span);
    var g, k := AcceptAll(h, batch), KeptAfterAll(h, batch, kept);
    StepIs(h, batch, span, target);
    KeptAfterStepIs(h, kept, batch, span);
    var w := WindowOf(g, span);
    hide *;
    SteadyCovers(g, k, span);
    if w > 0 {
      SteadyTrim(g, k, span);
    }
  }

  lemma SteadyCovers(h: History, kept: Option<nat>, span: real)
    requires SteadyKept(h, kept, span)
    ensures Covers(kept, WindowOf(h, span))
  {
    hide SamplesIn;
  }

  lemma SteadyTrim(h: History, kept: Option<nat>, span: real)
    requires Shaped(h) && SteadyKept(h, kept, span) && WindowOf(h, span) > 0
    ensures SteadyKept(Trim(h, WindowOf(h, span)), Tighter(kept, 2 * WindowOf(h, span)), span)
  {
    hide SamplesIn, CappedAll, Pruned;
    var g := Trim(h, WindowOf(h, span));
    assert g.rate == h.rate && g.channelCount == h.channelCount;
  }

  /**
   * For every fixed span and every sequence of batches, with any rate and channel-count changes, the
   * bounded stage shows exactly what the unbounded one shows, call by call.
   */
  lemma {:induction false} RunRefines(batches: seq<seq<Frame>>, span: real, target: nat) returns (kept: Option<nat>)
    requires forall b, i :: 0 <= b < |batches| && 0 <= i < |batches[b]| ==> Stage.WellFormed(batches[b][i])
    ensures Run(EMPTY, batches, span, target).1 == UnboundedRun(EMPTY, batches, span, target).1
    ensures Follows(Run(EMPTY, batches, span, target).0, UnboundedRun(EMPTY, batches, span, target).0, kept)
    ensures SteadyKept(Run(EMPTY, batches, span, target).0, kept, span)
  {
    if batches == [] {
      kept := None;
    } else {
      var m := |batches| - 1;
      var k := RunRefines(batches[..m], span, target);
      var h, u := Run(EMPTY, batches[..m], span, target).0, UnboundedRun(EMPTY, batches[..m], span, target).0;
      hide Step, UnboundedStep, Follows, SteadyKept, KeptAfterAll, KeptAfterStep, AcceptAll, WindowOf;
      SteadyStep(h, k, batches[m], span, target);
      StepRefines(h, u, k, batches[m], span, target);
      kept := KeptAfterStep(h, k, batches[m], span);
    }
  }

  /** No channel holds more than two spans' worth of samples, if the span holds any sample at all. */
  ghost predicate WithinTwoSpans(h: History, span: real)
  {
    h.channelCount > 0 && span > 0.0 && h.rate * span >= 1.0 ==>
      forall ch :: 0 <= ch < |h.channels| ==> |h.channels[ch]| as real <= 2.0 * (h.rate * span)
  }

  /** Every call that computes a window leaves at most two spans of history in each channel. */
  lemma HistoryIsBounded(h: History, batch: seq<Frame>, span: real, target: nat)
    requires Shaped(h) && forall i :: 0 <= i < |batch| ==> Stage.WellFormed(batch[i])
    ensures WithinTwoSpans(Step(h, batch, span, target).0, span)
  {
    hide *;
    CappedToWindows(h, batch, span, target);
    CappedIsWithin(Step(h, batch, span, target).0, span);
  }

  ghost predicate Capping(h: History, span: real)
  {
    h.channelCount > 0 && h.rate > 0.0 && span > 0.0 && SamplesIn(h.rate, span) > 0 ==>
      forall ch :: 0 <= ch < |h.channels| ==> |h.channels[ch]| <= 2 * SamplesIn(h.rate, span)
  }

  lemma CappedToWindows(h: History, batch: seq<Frame>, span: real, target: nat)
    requires Shaped(h) && forall i :: 0 <= i < |batch| ==> Stage.WellFormed(batch[i])
    ensures Capping(Step(h, batch, span, target).0, span)
  {
    hide AcceptAll, SamplesIn, Show, Pruned;
  }

  lemma CappedIsWithin(h: History, span: real)
    requires Capping(h, span)
    ensures WithinTwoSpans(h, span)
  {
    hide SamplesIn;
    if h.channelCount > 0 && span > 0.0 && h.rate * span >= 1.0 {
      PositiveRate(h.rate, span);
      SamplesFit(h.rate, span);
    }
  }

  lemma PositiveRate(rate: real, span: real)
    requires span > 0.0 && rate * span >= 1.0
    ensures rate > 0.0
  {
  }
}
