/** The frame-boundary deque of channel 0, which the stage prunes as its history is trimmed. */
module VisualizationBoundaries {
  import opened Samples
  import opened Frames
  import opened ChannelMajor
  import opened Visualization
  import Refinement = VisualizationRefinement
  import Stage = DecimationStage

  ghost predicate Increasing(ends: seq<nat>)
  {
    forall i, j :: 0 <= i < j < |ends| ==> ends[i] < ends[j]
  }

  /** Boundaries rise strictly and lie after the start of the history, up to its end. */
  ghost predicate BoundariesInside(h: History)
  {
    && Shaped(h) && Start(h) >= 0
    && (h.channels == [] ==> h.appended == 0)
    && Increasing(h.frameEnds)
    && forall i :: 0 <= i < |h.frameEnds| ==> Start(h) < h.frameEnds[i] <= h.appended
  }

  lemma AcceptKeepsInside(h: History, f: Frame)
    requires BoundariesInside(h) && Stage.WellFormed(f)
    ensures BoundariesInside(Accept(h, f))
  {
    hide Stage.Channels;
    if !Stage.IsSkipped(f) {
      var g, r := MeetRate(h, f.sampleRate), Accept(h, f);
      assert BoundariesInside(g);
      assert Stage.Channels(f, f.channelCount)[0] != [];
      assert Start(r) == Start(g);
    }
  }

  lemma {:induction false} AcceptAllKeepsInside(h: History, batch: seq<Frame>)
    requires BoundariesInside(h) && forall i :: 0 <= i < |batch| ==> Stage.WellFormed(batch[i])
    ensures BoundariesInside(AcceptAll(h, batch))
  {
    if batch != [] {
      hide Accept, BoundariesInside;
      assert Shaped(h) by { InsideShaped(h); }
      AcceptAllKeepsInside(h, batch[..|batch| - 1]);
      AcceptKeepsInside(AcceptAll(h, batch[..|batch| - 1]), batch[|batch| - 1]);
    }
  }

  lemma InsideShaped(h: History)
    requires BoundariesInside(h)
    ensures Shaped(h)
  {
  }

  lemma PrunedInside(ends: seq<nat>, start: int, last: nat)
    requires Increasing(ends) && forall i :: 0 <= i < |ends| ==> ends[i] <= last
    ensures var kept := Pruned(ends, start);
            Increasing(kept) && forall i :: 0 <= i < |kept| ==> start < kept[i] <= last
  {
    var kept := Pruned(ends, start);
    hide Pruned;
    SuffixIncreases(ends, |ends| - |kept|);
    if kept != [] {
      SuffixInside(ends, |ends| - |kept|, start, last);
    }
  }

  lemma SuffixInside(ends: seq<nat>, k: nat, start: int, last: nat)
    requires k < |ends| && Increasing(ends[k..]) && ends[k] > start
    requires forall i :: 0 <= i < |ends| ==> ends[i] <= last
    ensures forall i :: 0 <= i < |ends[k..]| ==> start < ends[k..][i] <= last
  {
    hide Increasing;
    forall i | 0 <= i < |ends[k..]|
      ensures start < ends[k..][i] <= last
    {
      NotBeforeFirst(ends[k..], i);
    }
  }

  lemma SuffixIncreases(ends: seq<nat>, k: nat)
    requires Increasing(ends) && k <= |ends|
    ensures Increasing(ends[k..])
  {
  }

  lemma NotBeforeFirst(ends: seq<nat>, i: nat)
    requires Increasing(ends) && i < |ends|
    ensures ends[0] <= ends[i]
  {
    assert 0 < i ==> ends[0] < ends[i];
  }

  lemma TrimKeepsInside(h: History, window: nat)
    requires BoundariesInside(h)
    ensures BoundariesInside(Trim(h, window))
  {
    var g := h.(channels := CappedAll(h.channels, 2 * window));
    assert Start(h) <= Start(g) == Start(Trim(h, window)) <= h.appended;
    PrunedInside(h.frameEnds, Start(g), h.appended);
  }

  /** In every state of every run, with any fixed span, the boundaries lie inside the history. */
  lemma {:induction false} AlwaysInside(batches: seq<seq<Frame>>, span: real, target: nat)
    requires forall b, i :: 0 <= b < |batches| && 0 <= i < |batches[b]| ==> Stage.WellFormed(batches[b][i])
    ensures BoundariesInside(Refinement.Run(EMPTY, batches, span, target).0)
  {
    if batches != [] {
      var m := |batches| - 1;
      AlwaysInside(batches[..m], span, target);
      var h := Refinement.Run(EMPTY, batches[..m], span, target).0;
      hide BoundariesInside, Show, Trim, AcceptAll, WindowOf;
      AcceptAllKeepsInside(h, batches[m]);
      var g := AcceptAll(h, batches[m]);
      TrimKeepsInside(g, WindowOf(g, span));
    }
  }

  /** h knows exactly those boundaries of u that lie after the start of its own history. */
  ghost predicate BoundariesAgree(h: History, u: History)
  {
    h.frameEnds == Pruned(u.frameEnds, Start(h))
  }

  lemma {:induction false} PruneTwice(ends: seq<nat>, early: int, late: int)
    requires early <= late
    ensures Pruned(Pruned(ends, early), late) == Pruned(ends, late)
  {
    if ends != [] && ends[0] <= early {
      PruneTwice(ends[1..], early, late);
    }
  }

  lemma {:induction false} PruneAppend(ends: seq<nat>, start: int, e: nat)
    requires e > start
    ensures Pruned(ends + [e], start) == Pruned(ends, start) + [e]
  {
    if ends != [] && ends[0] <= start {
      assert (ends + [e])[1..] == ends[1..] + [e];
      PruneAppend(ends[1..], start, e);
    }
  }

  lemma MeetRateAgrees(h: History, u: History, kept: Option<nat>, rate: real)
    requires Refinement.Follows(h, u, kept) && BoundariesAgree(h, u)
    ensures BoundariesAgree(MeetRate(h, rate), MeetRate(u, rate))
  {
    hide Refinement.Keeps;
    if rate > 0.0 && h.rate > 0.0 && rate != h.rate {
      NothingToPrune(Start(MeetRate(h, rate)));
    }
  }

  lemma NothingToPrune(start: int)
    ensures Pruned([], start) == []
  {
  }

  lemma MeetRateInside(h: History, rate: real)
    requires BoundariesInside(h)
    ensures BoundariesInside(MeetRate(h, rate))
  {
  }

  lemma MeetRateAppended(h: History, u: History, kept: Option<nat>, rate: real)
    requires Refinement.Follows(h, u, kept)
    ensures MeetRate(h, rate).appended == MeetRate(u, rate).appended
  {
    hide Refinement.Keeps;
  }

  /** Appending a frame does not move the start of the history. */
  lemma StartStays(h: History, f: Frame)
    requires BoundariesInside(h) && Stage.WellFormed(f) && !Stage.IsSkipped(f)
    ensures Start(Accept(h, f)) == Start(MeetRate(h, f.sampleRate)) <= MeetRate(h, f.sampleRate).appended
  {
    MeetRateInside(h, f.sampleRate);
    hide MeetRate, Stage.Channels;
    assert Stage.Channels(f, f.channelCount)[0] != [];
  }

  lemma AcceptAgrees(h: History, u: History, kept: Option<nat>, f: Frame)
    requires Refinement.Follows(h, u, kept) && BoundariesInside(h) && BoundariesAgree(h, u) && Stage.WellFormed(f)
    ensures Shaped(u) && BoundariesAgree(Accept(h, f), Accept(u, f))
  {
    Refinement.FollowsShaped(h, u, kept);
    InsideShaped(h);
    hide *;
    if Stage.IsSkipped(f) {
      SkipLeaves(h, f);
      SkipLeaves(u, f);
    } else {
      MeetRateAgrees(h, u, kept, f.sampleRate);
      MeetRateAppended(h, u, kept, f.sampleRate);
      StartStays(h, f);
      AcceptEnds(h, f);
      AcceptEnds(u, f);
      TakenHasSamples(f);
      AppendAgrees(MeetRate(h, f.sampleRate), MeetRate(u, f.sampleRate), Accept(h, f), Accept(u, f),
                   f.samplesPerChannel);
    }
  }

  lemma TakenHasSamples(f: Frame)
    requires Stage.WellFormed(f) && !Stage.IsSkipped(f)
    ensures f.samplesPerChannel > 0
  {
  }

  lemma SkipLeaves(h: History, f: Frame)
    requires Shaped(h) && Stage.WellFormed(f) && Stage.IsSkipped(f)
    ensures Accept(h, f) == h
  {
  }

  lemma AppendAgrees(g: History, v: History, r: History, w: History, spc: nat)
    requires BoundariesAgree(g, v) && g.appended == v.appended && spc > 0
    requires Start(r) == Start(g) <= g.appended
    requires OneMoreEnd(g, r, spc) && OneMoreEnd(v, w, spc)
    ensures BoundariesAgree(r, w)
  {
    hide Pruned, Start;
    PruneAppend(v.frameEnds, Start(g), g.appended + spc);
  }

  /** Between g and r one frame of spc samples per channel was appended. */
  ghost predicate OneMoreEnd(g: History, r: History, spc: nat)
  {
    r.frameEnds == g.frameEnds + [g.appended + spc]
  }

  lemma AcceptEnds(h: History, f: Frame)
    requires Shaped(h) && Stage.WellFormed(f) && !Stage.IsSkipped(f)
    ensures OneMoreEnd(MeetRate(h, f.sampleRate), Accept(h, f), f.samplesPerChannel)
  {
    hide MeetRate, Stage.Channels;
  }

  lemma TrimAgrees(h: History, u: History, window: nat)
    requires BoundariesInside(h) && BoundariesAgree(h, u)
    ensures BoundariesAgree(Trim(h, window), u)
  {
    var g := h.(channels := CappedAll(h.channels, 2 * window));
    assert Start(h) <= Start(g) == Start(Trim(h, window));
    PruneTwice(u.frameEnds, Start(h), Start(g));
  }

  lemma {:induction false} AcceptAllAgrees(h: History, u: History, kept: Option<nat>, batch: seq<Frame>)
    requires Refinement.Follows(h, u, kept) && BoundariesInside(h) && BoundariesAgree(h, u)
    requires forall i :: 0 <= i < |batch| ==> Stage.WellFormed(batch[i])
    ensures Shaped(h) && Shaped(u) && BoundariesAgree(AcceptAll(h, batch), AcceptAll(u, batch))
  {
    Refinement.FollowsShaped(h, u, kept);
    if batch != [] {
      var m := |batch| - 1;
      hide Accept, BoundariesInside, BoundariesAgree, Refinement.Follows, Refinement.KeptAfterAll;
      AcceptAllAgrees(h, u, kept, batch[..m]);
      AcceptAllKeepsInside(h, batch[..m]);
      Refinement.AcceptAllFollows(h, u, kept, batch[..m]);
      AcceptAgrees(AcceptAll(h, batch[..m]), AcceptAll(u, batch[..m]),
                   Refinement.KeptAfterAll(h, batch[..m], kept), batch[m]);
    }
  }

  /** Pruning loses no boundary that still lies inside the history, over any run with a fixed span. */
  lemma {:induction false} AlwaysAgree(batches: seq<seq<Frame>>, span: real, target: nat)
    requires forall b, i :: 0 <= b < |batches| && 0 <= i < |batches[b]| ==> Stage.WellFormed(batches[b][i])
    ensures BoundariesAgree(Refinement.Run(EMPTY, batches, span, target).0,
                            Refinement.UnboundedRun(EMPTY, batches, span, target).0)
  {
    assert Shaped(EMPTY);
    if batches == [] {
      assert BoundariesAgree(EMPTY, EMPTY);
    } else {
      hide *;
      var m := |batches| - 1;
      AlwaysAgree(batches[..m], span, target);
      AlwaysInside(batches[..m], span, target);
      var kept := Refinement.RunRefines(batches[..m], span, target);
      var h, u := Refinement.Run(EMPTY, batches[..m], span, target).0,
                  Refinement.UnboundedRun(EMPTY, batches[..m], span, target).0;
      StepAgrees(h, u, kept, batches[m], span, target);
      LastCall(batches, span, target);
    }
  }

  lemma LastCall(batches: seq<seq<Frame>>, span: real, target: nat)
    requires Shaped(EMPTY) && batches != []
    requires forall b, i :: 0 <= b < |batches| && 0 <= i < |batches[b]| ==> Stage.WellFormed(batches[b][i])
    ensures var m := |batches| - 1;
            && Refinement.Run(EMPTY, batches, span, target).0 ==
               Step(Refinement.Run(EMPTY, batches[..m], span, target).0, batches[m], span, target).0
            && Refinement.UnboundedRun(EMPTY, batches, span, target).0 ==
               UnboundedStep(Refinement.UnboundedRun(EMPTY, batches[..m], span, target).0, batches[m], span, target).0
  {
    hide Step, UnboundedStep, Stage.WellFormed, Shaped;
  }

  lemma StepAgrees(h: History, u: History, kept: Option<nat>, batch: seq<Frame>, span: real, target: nat)
    requires Refinement.Follows(h, u, kept) && BoundariesInside(h) && BoundariesAgree(h, u)
    requires forall i :: 0 <= i < |batch| ==> Stage.WellFormed(batch[i])
    ensures Shaped(h) && Shaped(u)
    ensures BoundariesAgree(Step(h, batch, span, target).0, UnboundedStep(u, batch, span, target).0)
  {
    hide *;
    Refinement.FollowsShaped(h, u, kept);
    AcceptAllAgrees(h, u, kept, batch);
    AcceptAllKeepsInside(h, batch);
    Refinement.AcceptAllFollows(h, u, kept, batch);
    var g, v := AcceptAll(h, batch), AcceptAll(u, batch);
    Refinement.SameWindowSize(g, v, Refinement.KeptAfterAll(h, batch, kept), span);
    TrimAgrees(g, v, WindowOf(g, span));
    Refinement.StepIs(h, batch, span, target);
    Refinement.UnboundedStepIs(u, batch, span, target);
  }
}
