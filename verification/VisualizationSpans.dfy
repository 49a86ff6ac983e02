/**
 * Bounded against unlimited history when the visible span and the display target may change with
 * every call: exactly when both show the same.
 */
module VisualizationSpans {
  import opened Samples
  import opened Frames
  import opened ChannelMajor
  import opened Visualization
  import opened VisualizationRefinement
  import Stage = DecimationStage

  // ---- One state ----

  lemma EmptyLeast(channels: seq<seq<int16>>)
    requires channels != [] && forall ch :: 0 <= ch < |channels| ==> channels[ch] == []
    ensures Least(channels) == 0
  {
    assert Least(channels) <= |channels[0]|;
  }

  lemma NothingTaken(channels: seq<seq<int16>>, target: nat)
    requires channels != []
    ensures DisplayAll(channels, 0, target)[0] == []
  {
  }

  /** An outcome's coverage is that of the least channel, also when nothing is shown. */
  lemma CoverageShown(h: History, window: nat, target: nat)
    requires Shaped(h) && h.channels != [] && window > 0
    ensures Show(h, window, target).coverage == Coverage(Least(h.channels), window)
    ensures Least(h.channels) == 0 ==> Show(h, window, target) == NOTHING
  {
    NoCoverage(window);
    if forall ch :: 0 <= ch < |h.channels| ==> h.channels[ch] == [] {
      EmptyLeast(h.channels);
      ShowNothing(h, window, target);
    } else {
      ShowIs(h, window, target);
      NothingTaken(h.channels, target);
      hide Show, Least, DisplayAll, Coverage, Concat;
    }
  }

  lemma NoCoverage(window: nat)
    requires window > 0
    ensures Coverage(0, window) == 0.0 && Min(0, window) == 0
  {
  }

  lemma CoverageDecides(a: nat, b: nat, window: nat)
    requires window > 0 && Coverage(a, window) == Coverage(b, window)
    ensures Min(a, window) == Min(b, window)
  {
    if a < window {
      FractionBelowOne(a, window);
      RatioRecovers(a, window);
    }
    if b < window {
      FractionBelowOne(b, window);
      RatioRecovers(b, window);
    }
  }

  lemma FractionBelowOne(a: nat, window: nat)
    requires a < window
    ensures a as real / window as real < 1.0
  {
  }

  lemma RatioRecovers(a: nat, window: nat)
    requires window > 0
    ensures a as real / window as real * window as real == a as real
  {
  }

  lemma LeastFollows(h: History, u: History, kept: Option<nat>)
    requires Follows(h, u, kept) && h.channels != []
    ensures u.channels != [] && Least(h.channels) <= Least(u.channels)
  {
    var least := Least(u.channels);
    var ch :| 0 <= ch < |u.channels| && least == |u.channels[ch]|;
    assert Keeps(h.channels[ch], u.channels[ch], kept);
    assert Least(h.channels) <= |h.channels[ch]|;
  }

  lemma SomethingLeft(channels: seq<seq<int16>>)
    requires channels != [] && Least(channels) > 0
    ensures exists ch :: 0 <= ch < |channels| && channels[ch] != []
  {
    assert |channels[0]| > 0;
  }

  /** Two versions of a history show the same exactly when both windows have the same length. */
  lemma ShowsTheSameIff(h: History, u: History, kept: Option<nat>, window: nat, target: nat)
    requires Follows(h, u, kept) && h.channels != [] && window > 0
    ensures Shaped(h) && Shaped(u) && u.channels != []
    ensures Show(h, window, target) == Show(u, window, target) <==>
            Min(Least(h.channels), window) == Min(Least(u.channels), window)
  {
    FollowsMeta(h, u, kept);
    CoverageShown(h, window, target);
    CoverageShown(u, window, target);
    var a, b := Least(h.channels), Least(u.channels);
    if Show(h, window, target) == Show(u, window, target) {
      CoverageDecides(a, b, window);
    }
    if Min(a, window) == Min(b, window) && a > 0 {
      SomethingLeft(h.channels);
      SomethingLeft(u.channels);
      hide *;
      ShowIs(h, window, target);
      ShowIs(u, window, target);
      SameParts(h, u, kept, Min(a, window), target);
      SameCoverage(a, b, window);
    }
  }

  // ---- One call ----

  /** The bounded history holds a whole window, or has lost nothing of its least channel. */
  predicate HoldsEnough(h: History, u: History, window: nat)
    requires h.channels != [] && u.channels != []
  {
    Least(h.channels) >= window || Least(h.channels) == Least(u.channels)
  }

  lemma LeastUnfold(channels: seq<seq<int16>>)
    requires |channels| > 1
    ensures var last := |channels| - 1; Least(channels) == Min(Least(channels[..last]), |channels[last]|)
  {
  }

  lemma LeastOfOne(channels: seq<seq<int16>>)
    requires |channels| == 1
    ensures Least(channels) == |channels[0]|
  {
  }

  lemma CappedButLast(channels: seq<seq<int16>>, most: nat)
    requires channels != []
    ensures CappedAll(channels, most)[..|channels| - 1] == CappedAll(channels[..|channels| - 1], most)
  {
  }

  lemma CappedLast(channels: seq<seq<int16>>, most: nat)
    requires channels != []
    ensures |CappedAll(channels, most)| == |channels|
    ensures |CappedAll(channels, most)[|channels| - 1]| == Min(|channels[|channels| - 1]|, most)
  {
  }

  lemma {:induction false} LeastCapped(channels: seq<seq<int16>>, most: nat)
    requires channels != []
    ensures Least(CappedAll(channels, most)) == Min(Least(channels), most)
  {
    var last := |channels| - 1;
    var capped := CappedAll(channels, most);
    hide Least, CappedAll;
    if last > 0 {
      LeastCapped(channels[..last], most);
      CappedButLast(channels, most);
      LeastUnfold(channels);
      LeastUnfold(capped);
    } else {
      LeastOfOne(channels);
      LeastOfOne(capped);
    }
    CappedLast(channels, most);
  }

  lemma TrimmedLeast(h: History, window: nat)
    requires Shaped(h) && h.channels != []
    ensures Trim(h, window).channels != [] && Least(Trim(h, window).channels) == Min(Least(h.channels), 2 * window)
  {
    LeastCapped(h.channels, 2 * window);
    hide Least, Pruned;
  }

  /** Do the outcomes of a call on h and on u agree, as far as the lengths of their histories decide? */
  ghost predicate CallAgrees(h: History, u: History, batch: seq<Frame>, span: real)
    requires Shaped(h) && Shaped(u) && forall i :: 0 <= i < |batch| ==> Stage.WellFormed(batch[i])
  {
    var g, v := AcceptAll(h, batch), AcceptAll(u, batch);
    var w := WindowOf(g, span);
    w == 0 || (g.channels != [] && v.channels != [] && HoldsEnough(g, v, w))
  }

  lemma WindowNeedsChannels(h: History, span: real)
    requires Shaped(h) && WindowOf(h, span) > 0
    ensures h.channels != []
  {
  }

  lemma TrimmedAgreesIff(g: History, v: History, kept: Option<nat>, window: nat, target: nat)
    requires Follows(g, v, kept) && g.channels != [] && window > 0
    ensures Shaped(g) && Shaped(v) && v.channels != []
    ensures Show(Trim(g, window), window, target) == Show(v, window, target) <==> HoldsEnough(g, v, window)
  {
    FollowsShaped(g, v, kept);
    TrimFollows(g, v, kept, window);
    TrimmedLeast(g, window);
    LeastFollows(g, v, kept);
    hide *;
    ShowsTheSameIff(Trim(g, window), v, Tighter(kept, 2 * window), window, target);
    MinDecides(Least(g.channels), Least(v.channels), window);
    HoldsEnoughIs(g, v, window);
  }

  lemma MinDecides(a: nat, b: nat, window: nat)
    requires a <= b
    ensures Min(Min(a, 2 * window), window) == Min(b, window) <==> a >= window || a == b
  {
  }

  lemma HoldsEnoughIs(g: History, v: History, window: nat)
    requires g.channels != [] && v.channels != []
    ensures HoldsEnough(g, v, window) <==> Least(g.channels) >= window || Least(g.channels) == Least(v.channels)
  {
  }

  lemma CallAgreesIs(h: History, u: History, batch: seq<Frame>, span: real)
    requires Shaped(h) && Shaped(u) && forall i :: 0 <= i < |batch| ==> Stage.WellFormed(batch[i])
    ensures var g, v := AcceptAll(h, batch), AcceptAll(u, batch); var w := WindowOf(g, span);
            && (w == 0 ==> CallAgrees(h, u, batch, span))
            && (w > 0 && g.channels != [] && v.channels != [] ==>
                  (CallAgrees(h, u, batch, span) <==> HoldsEnough(g, v, w)))
  {
    hide AcceptAll, WindowOf, HoldsEnough;
  }

  /**
   * A call on the bounded history shows what the version keeping every sample shows if and only if the
   * accumulated bounded history holds a whole window, or nothing of its least channel was lost.
   */
  lemma StepAgreesIff(h: History, u: History, kept: Option<nat>, batch: seq<Frame>, span: real, target: nat)
    requires Follows(h, u, kept) && forall i :: 0 <= i < |batch| ==> Stage.WellFormed(batch[i])
    ensures Shaped(h) && Shaped(u)
    ensures Step(h, batch, span, target).1 == UnboundedStep(u, batch, span, target).1 <==>
            CallAgrees(h, u, batch, span)
  {
    hide *;
    FollowsShaped(h, u, kept);
    AcceptAllFollows(h, u, kept, batch);
    var g, v, k := AcceptAll(h, batch), AcceptAll(u, batch), KeptAfterAll(h, batch, kept);
    FollowsShaped(g, v, k);
    SameWindowSize(g, v, k, span);
    StepIs(h, batch, span, target);
    UnboundedStepIs(u, batch, span, target);
    CallAgreesIs(h, u, batch, span);
    if WindowOf(g, span) > 0 {
      WindowNeedsChannels(g, span);
      TrimmedAgreesIff(g, v, k, WindowOf(g, span), target);
    }
  }

  // ---- Whole runs ----

  /** One call of process(), with the settings it reads. */
  datatype Call = Call(batch: seq<Frame>, span: real, target: nat)

  ghost predicate CallsWellFormed(calls: seq<Call>)
  {
    forall c, i :: 0 <= c < |calls| && 0 <= i < |calls[c].batch| ==> Stage.WellFormed(calls[c].batch[i])
  }

  ghost function RunCalls(calls: seq<Call>): (r: (History, seq<Outcome>))
    requires CallsWellFormed(calls)
    ensures Shaped(r.0) && |r.1| == |calls|
  {
    if calls == [] then (EMPTY, [])
    else
      var m := |calls| - 1;
      var before := RunCalls(calls[..m]);
      var after := Step(before.0, calls[m].batch, calls[m].span, calls[m].target);
      (after.0, before.1 + [after.1])
  }

  ghost function UnboundedCalls(calls: seq<Call>): (r: (History, seq<Outcome>))
    requires CallsWellFormed(calls)
    ensures Shaped(r.0) && |r.1| == |calls|
  {
    if calls == [] then (EMPTY, [])
    else
      var m := |calls| - 1;
      var before := UnboundedCalls(calls[..m]);
      var after := UnboundedStep(before.0, calls[m].batch, calls[m].span, calls[m].target);
      (after.0, before.1 + [after.1])
  }

  /** The condition of StepAgreesIff for the last of the calls. */
  ghost predicate LastAgrees(calls: seq<Call>)
    requires calls != [] && CallsWellFormed(calls)
  {
    var m := |calls| - 1;
    CallAgrees(RunCalls(calls[..m]).0, UnboundedCalls(calls[..m]).0, calls[m].batch, calls[m].span)
  }

  /** For every sequence of calls with changing spans and targets, the histories stay in step. */
  lemma {:induction false} CallsFollow(calls: seq<Call>) returns (kept: Option<nat>)
    requires CallsWellFormed(calls)
    ensures Follows(RunCalls(calls).0, UnboundedCalls(calls).0, kept)
  {
    if calls == [] {
      kept := None;
    } else {
      var m := |calls| - 1;
      var k := CallsFollow(calls[..m]);
      var h, u := RunCalls(calls[..m]).0, UnboundedCalls(calls[..m]).0;
      StepFollows(h, u, k, calls[m].batch, calls[m].span,
                   calls[m].target);
      kept := KeptAfterStep(h, k, calls[m].batch, calls[m].span);
      hide Step, UnboundedStep, Follows, KeptAfterStep;
    }
  }

  lemma LastOutcome(calls: seq<Call>)
    requires calls != [] && CallsWellFormed(calls)
    ensures var m := |calls| - 1;
            && (RunCalls(calls).1[m] == UnboundedCalls(calls).1[m] <==> LastAgrees(calls))
            && RunCalls(calls).1[..m] == RunCalls(calls[..m]).1
            && UnboundedCalls(calls).1[..m] == UnboundedCalls(calls[..m]).1
  {
    var m := |calls| - 1;
    var k := CallsFollow(calls[..m]);
    StepAgreesIff(RunCalls(calls[..m]).0, UnboundedCalls(calls[..m]).0, k, calls[m].batch, calls[m].span,
                   calls[m].target);
    hide Step, UnboundedStep, CallAgrees;
  }

  ghost predicate EveryCallAgrees(calls: seq<Call>)
    requires CallsWellFormed(calls)
  {
    calls == [] || (EveryCallAgrees(calls[..|calls| - 1]) && LastAgrees(calls))
  }

  /**
   * A run shows, call by call, what unlimited history would show if and only if in every call the
   * bounded history holds a whole window or has lost nothing of its least channel.
   */
  lemma {:induction false} CallsAgreeIff(calls: seq<Call>)
    requires CallsWellFormed(calls)
    ensures RunCalls(calls).1 == UnboundedCalls(calls).1 <==> EveryCallAgrees(calls)
  {
    if calls != [] {
      CallsAgreeIff(calls[..|calls| - 1]);
      LastOutcome(calls);
      SplitLast(RunCalls(calls).1, UnboundedCalls(calls).1);
      hide RunCalls, UnboundedCalls, LastAgrees;
    }
  }

  lemma SplitLast(a: seq<Outcome>, b: seq<Outcome>)
    requires |a| == |b| > 0
    ensures a == b <==> a[..|a| - 1] == b[..|b| - 1] && a[|a| - 1] == b[|b| - 1]
  {
    if a[..|a| - 1] == b[..|b| - 1] && a[|a| - 1] == b[|b| - 1] {
      assert a == a[..|a| - 1] + [a[|a| - 1]] && b == b[..|b| - 1] + [b[|b| - 1]];
    }
  }

  // ---- A span more than doubled ----

  /** Four samples at one sample a second, shown for a second and then for four. */
  const FOUR := Frame(0, 1, 4, 1.0, [1, 2, 3, 4])
  const WIDENING: seq<Call> := [Call([FOUR], 1.0, 10), Call([], 4.0, 10)]

  /** A history of one channel that needs no decimation shows its newest window as it is. */
  lemma ShowOne(h: History, s: seq<int16>, window: nat, target: nat)
    requires h.channels == [s] && h.channelCount == 1 && s != [] && window > 0 && |s| <= target
    ensures Show(h, window, target).out ==
            Some(Frame(0, 1, Min(|s|, window), h.rate, LastN(s, Min(|s|, window))))
  {
    var take := Min(|s|, window);
    assert h.channels[0] == s && Least(h.channels) == |s|;
    ShowIs(h, window, target);
    hide Show, Least;
    assert DisplayAll(h.channels, take, target) == [LastN(s, take)];
    assert Concat([LastN(s, take)]) == LastN(s, take) by { ConcatOne(LastN(s, take)); }
  }

  lemma ConcatOne(s: seq<int16>)
    ensures Concat([s]) == s
  {
    assert [s][..0] == [];
  }

  lemma AppendFirst(s: seq<int16>)
    ensures Append(Resized([], 1), [s]) == [s]
  {
    var r := Append(Resized([], 1), [s]);
    assert Resized([], 1)[0] == [];
    assert r[0] == [] + s == s;
  }

  lemma FirstFour()
    ensures Stage.WellFormed(FOUR) && Shaped(EMPTY)
    ensures Accept(EMPTY, FOUR) == History([[1, 2, 3, 4]], 1.0, 1, [4], 4)
  {
    assert Channel(FOUR.data, 4, 0) == [1, 2, 3, 4];
    assert Stage.Channels(FOUR, 0) == [];
    assert Stage.Channels(FOUR, 1) == [[1, 2, 3, 4]];
    hide Stage.Channels;
    AppendFirst([1, 2, 3, 4]);
    assert MeetRate(EMPTY, 1.0) == History([], 1.0, 0, [], 0);
  }

  lemma TrimFour(window: nat)
    requires 0 < window <= 4
    ensures var h := History([[1, 2, 3, 4]], 1.0, 1, [4], 4); var t := Trim(h, window);
            && Shaped(h) && t.rate == 1.0 && t.channelCount == 1
            && t.channels == [if window == 1 then [3, 4] else [1, 2, 3, 4]]
  {
    CapFour(window);
    hide Pruned, CappedAll;
  }

  lemma CapFour(window: nat)
    requires 0 < window <= 4
    ensures CappedAll([[1, 2, 3, 4]], 2 * window) == [if window == 1 then [3, 4] else [1, 2, 3, 4]]
  {
    var s: seq<int16> := [1, 2, 3, 4];
    assert s[2..] == [3, 4];
  }

  /** Two calls from the empty history whose spans widen fourfold: the second shows two samples instead of four. */
  lemma WideningCanDiffer()
    ensures CallsWellFormed(WIDENING)
    ensures RunCalls(WIDENING).1[1].out == Some(Frame(0, 1, 2, 1.0, [3, 4]))
    ensures UnboundedCalls(WIDENING).1[1].out == Some(Frame(0, 1, 4, 1.0, [1, 2, 3, 4]))
    ensures !EveryCallAgrees(WIDENING)
  {
    FirstFour();
    var g := History([[1, 2, 3, 4]], 1.0, 1, [4], 4);
    TrimFour(1);
    var h := Trim(g, 1);
    AcceptFour(g);
    assert CallsWellFormed(WIDENING);
    assert LastN([1, 2, 3, 4], 4) == [1, 2, 3, 4] && LastN([3, 4], 2) == [3, 4] && Min(4, 4) == 4 && Min(2, 4) == 2;
    hide *;
    TwoCalls(g, h);
    ShowOne(g, [1, 2, 3, 4], 4, 10);
    TrimTwo(h);
    ShowOne(Trim(h, 4), [3, 4], 4, 10);
    CallsAgreeIff(WIDENING);
  }

  lemma AcceptFour(g: History)
    requires Stage.WellFormed(FOUR) && Shaped(EMPTY) && Accept(EMPTY, FOUR) == g
    ensures AcceptAll(EMPTY, [FOUR]) == g
  {
    hide Accept;
    assert [FOUR][..0] == [];
    assert AcceptAll(EMPTY, []) == EMPTY;
  }

  lemma TrimTwo(h: History)
    requires h.channels == [[3, 4]] && h.channelCount == 1
    ensures Trim(h, 4).channels == [[3, 4]] && Trim(h, 4).rate == h.rate && Trim(h, 4).channelCount == 1
  {
    hide Pruned;
  }

  lemma TwoCalls(g: History, h: History)
    requires CallsWellFormed(WIDENING) && AcceptAll(EMPTY, [FOUR]) == g && Shaped(g) && h == Trim(g, 1)
    requires g.rate == 1.0 == h.rate && g.channelCount == 1 == h.channelCount
    ensures RunCalls(WIDENING).1[1] == Show(Trim(h, 4), 4, 10)
    ensures UnboundedCalls(WIDENING).1[1] == Show(g, 4, 10)
  {
    hide Show, Trim;
    assert WIDENING[..1] == [Call([FOUR], 1.0, 10)] && WIDENING[..1][..0] == [];
    assert WindowOf(g, 1.0) == 1 && WindowOf(g, 4.0) == 4 && WindowOf(h, 4.0) == 4;
    assert RunCalls([]).0 == EMPTY && UnboundedCalls([]).0 == EMPTY;
    assert RunCalls(WIDENING[..1]).0 == h;
    assert UnboundedCalls(WIDENING[..1]).0 == g;
  }
}
