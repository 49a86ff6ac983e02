/** Conservation through a whole pipeline: every frame the source's output leads to is accounted for. */
module RuntimeConservation {
  import opened Frames
  import opened InProcessQueue
  import opened LinearRuntime

  /** The final outputs that frames standing in queue i lead to. */
  function Downstream(cfg: Config, i: nat, xs: seq<Frame>): seq<Frame>
    requires i < |cfg.wiring|
    decreases |cfg.wiring| - i
  {
    if i == |cfg.wiring| - 1 then xs else Downstream(cfg, i + 1, Emitted(cfg, i + 1, xs))
  }

  /** The same, counted frame by frame. */
  function Worth(cfg: Config, i: nat, xs: seq<Frame>): multiset<Frame>
    requires i < |cfg.wiring|
  {
    if xs == [] then multiset{}
    else Worth(cfg, i, xs[..|xs| - 1]) + multiset(Downstream(cfg, i, [xs[|xs| - 1]]))
  }

  lemma LastDecides(cfg: Config, i: nat, xs: seq<Frame>, ys: seq<Frame>)
    requires Memoryless(cfg) && ys != []
    ensures cfg.transform(i, xs + ys) == cfg.transform(i, ys)
  {
    assert (xs + ys)[|xs + ys| - 1] == ys[|ys| - 1];
  }

  lemma EmittedUnfold(cfg: Config, i: nat, xs: seq<Frame>)
    requires xs != []
    ensures Emitted(cfg, i, xs) == Emitted(cfg, i, xs[..|xs| - 1]) + cfg.transform(i, xs)
  {
  }

  lemma EmittedNothing(cfg: Config, i: nat)
    ensures Emitted(cfg, i, []) == []
  {
  }

  lemma {:induction false} EmittedConcat(cfg: Config, i: nat, xs: seq<Frame>, ys: seq<Frame>)
    requires Memoryless(cfg)
    ensures Emitted(cfg, i, xs + ys) == Emitted(cfg, i, xs) + Emitted(cfg, i, ys)
  {
    hide *;
    if ys == [] {
      assert xs + ys == xs;
      EmittedNothing(cfg, i);
    } else {
      var y := |ys| - 1;
      EmittedConcat(cfg, i, xs, ys[..y]);
      assert (xs + ys)[..|xs + ys| - 1] == xs + ys[..y];
      LastDecides(cfg, i, xs, ys);
      EmittedUnfold(cfg, i, xs + ys);
      EmittedUnfold(cfg, i, ys);
    }
  }

  lemma {:induction false} DownstreamConcat(cfg: Config, i: nat, xs: seq<Frame>, ys: seq<Frame>)
    requires Memoryless(cfg) && i < |cfg.wiring|
    ensures Downstream(cfg, i, xs + ys) == Downstream(cfg, i, xs) + Downstream(cfg, i, ys)
    decreases |cfg.wiring| - i
  {
    if i < |cfg.wiring| - 1 {
      EmittedConcat(cfg, i + 1, xs, ys);
      DownstreamConcat(cfg, i + 1, Emitted(cfg, i + 1, xs), Emitted(cfg, i + 1, ys));
    }
  }

  lemma {:induction false} DownstreamEmpty(cfg: Config, i: nat)
    requires i < |cfg.wiring|
    ensures Downstream(cfg, i, []) == []
    decreases |cfg.wiring| - i
  {
    if i < |cfg.wiring| - 1 {
      DownstreamEmpty(cfg, i + 1);
    }
  }

  lemma {:induction false} WorthIsDownstream(cfg: Config, i: nat, xs: seq<Frame>)
    requires Memoryless(cfg) && i < |cfg.wiring|
    ensures Worth(cfg, i, xs) == multiset(Downstream(cfg, i, xs))
  {
    if xs == [] {
      DownstreamEmpty(cfg, i);
    } else {
      var x := |xs| - 1;
      WorthIsDownstream(cfg, i, xs[..x]);
      assert xs == xs[..x] + [xs[x]];
      DownstreamConcat(cfg, i, xs[..x], [xs[x]]);
    }
  }

  lemma WorthConcat(cfg: Config, i: nat, xs: seq<Frame>, ys: seq<Frame>)
    requires Memoryless(cfg) && i < |cfg.wiring|
    ensures Worth(cfg, i, xs + ys) == Worth(cfg, i, xs) + Worth(cfg, i, ys)
  {
    WorthIsDownstream(cfg, i, xs);
    WorthIsDownstream(cfg, i, ys);
    WorthIsDownstream(cfg, i, xs + ys);
    DownstreamConcat(cfg, i, xs, ys);
  }

  /** The last frame of xs stands somewhere in any permutation of xs. */
  lemma TakeOut(xs: seq<Frame>, ys: seq<Frame>) returns (a: seq<Frame>, b: seq<Frame>)
    requires xs != [] && multiset(xs) == multiset(ys)
    ensures ys == (a + [xs[|xs| - 1]]) + b && multiset(xs[..|xs| - 1]) == multiset(a + b)
  {
    var x := |xs| - 1;
    assert xs == xs[..x] + [xs[x]];
    assert xs[x] in multiset(ys);
    var k :| 0 <= k < |ys| && ys[k] == xs[x];
    a, b := ys[..k], ys[k + 1..];
    assert ys == (a + [xs[x]]) + b;
    assert multiset(xs) == multiset(xs[..x]) + multiset{xs[x]};
    assert multiset(a + b) == multiset(ys) - multiset{xs[x]};
  }

  /** Worth does not depend on the order in which frames stand. */
  lemma {:induction false} WorthOfPermutation(cfg: Config, i: nat, xs: seq<Frame>, ys: seq<Frame>)
    requires Memoryless(cfg) && i < |cfg.wiring| && multiset(xs) == multiset(ys)
    ensures Worth(cfg, i, xs) == Worth(cfg, i, ys)
  {
    if xs == [] {
      assert |multiset(ys)| == 0;
    } else {
      hide Worth, Downstream;
      var x := |xs| - 1;
      assert xs == xs[..x] + [xs[x]];
      var a, b := TakeOut(xs, ys);
      WorthOfPermutation(cfg, i, xs[..x], a + b);
      WorthConcat(cfg, i, xs[..x], [xs[x]]);
      WorthConcat(cfg, i, a + [xs[x]], b);
      WorthConcat(cfg, i, a, [xs[x]]);
      WorthConcat(cfg, i, a, b);
    }
  }

  /** Frames standing at stage i: still queued, lost, waiting to be enqueued, or inside process(). */
  function Standing(cfg: Config, s: State, i: nat): multiset<Frame>
    requires WellShaped(cfg, s) && i < |s.links|
  {
    Worth(cfg, i, s.links[i].q.items) + Worth(cfg, i, s.links[i].lost) +
    Worth(cfg, i, Pending(s.workers[i])) + Worth(cfg, i, InProcess(cfg, s, i))
  }

  /** What the running process() call of stage i is going to return. */
  function InProcess(cfg: Config, s: State, i: nat): seq<Frame>
    requires WellShaped(cfg, s) && i < |s.links|
  {
    if i > 0 && s.workers[i] == Processing && s.links[i - 1].taken != []
    then cfg.transform(i, s.links[i - 1].taken) else []
  }

  function AllStanding(cfg: Config, s: State, m: nat): multiset<Frame>
    requires WellShaped(cfg, s) && m <= |s.links|
  {
    if m == 0 then multiset{} else AllStanding(cfg, s, m - 1) + Standing(cfg, s, m - 1)
  }

  lemma LinkBalance(cfg: Config, s: State, i: nat)
    requires Inv(cfg, s) && Memoryless(cfg) && i < |s.links|
    ensures Worth(cfg, i, s.links[i].offered) ==
            Worth(cfg, i, s.links[i].taken) + Worth(cfg, i, s.links[i].q.items) + Worth(cfg, i, s.links[i].lost)
  {
    var l := s.links[i];
    assert LinkInv(l, cfg.wiring[i]);
    hide Worth, Inv;
    WorthOfPermutation(cfg, i, l.offered, (l.taken + l.q.items) + l.lost);
    WorthConcat(cfg, i, l.taken + l.q.items, l.lost);
    WorthConcat(cfg, i, l.taken, l.q.items);
  }

  /** Taking frames into stage i turns their worth into worth that is offered, pending or in process. */
  lemma StageBalance(cfg: Config, s: State, i: nat)
    requires Inv(cfg, s) && Memoryless(cfg) && 0 < i < |s.links|
    ensures Worth(cfg, i - 1, s.links[i - 1].taken) ==
            Worth(cfg, i, s.links[i].offered) + Worth(cfg, i, Pending(s.workers[i])) +
            Worth(cfg, i, InProcess(cfg, s, i))
  {
    var taken, offered, pending := s.links[i - 1].taken, s.links[i].offered, Pending(s.workers[i]);
    var returning := InProcess(cfg, s, i);
    StageOutput(cfg, s, i);
    WorthThroughStage(cfg, i, taken);
    hide *;
    WorthConcat(cfg, i, offered + pending, returning);
    WorthConcat(cfg, i, offered, pending);
  }

  lemma StageOutput(cfg: Config, s: State, i: nat)
    requires Inv(cfg, s) && 0 < i < |s.links|
    ensures Emitted(cfg, i, s.links[i - 1].taken) ==
            (s.links[i].offered + Pending(s.workers[i])) + InProcess(cfg, s, i)
  {
    hide LinkInv;
    assert StageInv(cfg, s, i);
  }

  lemma WorthThroughStage(cfg: Config, i: nat, taken: seq<Frame>)
    requires Memoryless(cfg) && 0 < i < |cfg.wiring|
    ensures Worth(cfg, i - 1, taken) == Worth(cfg, i, Emitted(cfg, i, taken))
  {
    hide Memoryless, Worth, Emitted;
    WorthIsDownstream(cfg, i - 1, taken);
    WorthIsDownstream(cfg, i, Emitted(cfg, i, taken));
  }

  lemma Standings(cfg: Config, s: State, m: nat)
    requires WellShaped(cfg, s) && m < |s.links|
    ensures AllStanding(cfg, s, m + 1) ==
            AllStanding(cfg, s, m) +
            (Worth(cfg, m, s.links[m].q.items) + Worth(cfg, m, s.links[m].lost) +
             Worth(cfg, m, Pending(s.workers[m])) + Worth(cfg, m, InProcess(cfg, s, m)))
  {
  }

  lemma SourceBalance(cfg: Config, s: State)
    requires Sensible(cfg) && Inv(cfg, s) && Memoryless(cfg)
    ensures BalancedInto(cfg, s, 0)
  {
    assert StageInv(cfg, s, 0);
    assert Worth(cfg, 0, InProcess(cfg, s, 0)) == multiset{} && AllStanding(cfg, s, 0) == multiset{};
    hide Worth, AllStanding, InProcess, Inv, StageInv, Memoryless;
    WorthConcat(cfg, 0, s.links[0].offered, Pending(s.workers[0]));
  }

  lemma InvShape(cfg: Config, s: State)
    requires Inv(cfg, s)
    ensures WellShaped(cfg, s) && |s.links| == |s.workers| == |cfg.wiring|
  {
    hide LinkInv, StageInv;
  }

  lemma {:induction false} UpToStage(cfg: Config, s: State, m: nat)
    requires Sensible(cfg) && Inv(cfg, s) && Memoryless(cfg) && m < |s.links|
    ensures BalancedThrough(cfg, s, m)
    decreases m
  {
    hide *;
    InvShape(cfg, s);
    if m == 0 {
      SourceBalance(cfg, s);
    } else {
      UpToStage(cfg, s, m - 1);
      IntoStage(cfg, s, m);
    }
    ThroughLink(cfg, s, m);
  }

  /** What the source produced is standing up to queue m, or was taken from it. */
  ghost predicate BalancedThrough(cfg: Config, s: State, m: nat)
    requires WellShaped(cfg, s) && m < |s.links|
  {
    Worth(cfg, 0, s.sourced) == AllStanding(cfg, s, m + 1) + Worth(cfg, m, s.links[m].taken)
  }

  /** What the source produced is standing before stage m, or has come into stage m. */
  ghost predicate BalancedInto(cfg: Config, s: State, m: nat)
    requires WellShaped(cfg, s) && m < |s.links|
  {
    Worth(cfg, 0, s.sourced) ==
      AllStanding(cfg, s, m) + (Worth(cfg, m, s.links[m].offered) + Worth(cfg, m, Pending(s.workers[m])) +
                                Worth(cfg, m, InProcess(cfg, s, m)))
  }

  lemma IntoStage(cfg: Config, s: State, m: nat)
    requires Sensible(cfg) && Inv(cfg, s) && Memoryless(cfg) && 0 < m < |s.links|
    requires BalancedThrough(cfg, s, m - 1)
    ensures BalancedInto(cfg, s, m)
  {
    hide Worth, AllStanding, Inv, InProcess, Memoryless;
    StageBalance(cfg, s, m);
  }

  lemma ThroughLink(cfg: Config, s: State, m: nat)
    requires Sensible(cfg) && Inv(cfg, s) && Memoryless(cfg) && m < |s.links|
    requires BalancedInto(cfg, s, m)
    ensures BalancedThrough(cfg, s, m)
  {
    assert WellShaped(cfg, s);
    hide Worth, AllStanding, Inv, InProcess, Memoryless;
    LinkBalance(cfg, s, m);
    Standings(cfg, s, m);
    Regroup(Worth(cfg, 0, s.sourced), AllStanding(cfg, s, m), Worth(cfg, m, s.links[m].offered),
            Worth(cfg, m, s.links[m].taken), Worth(cfg, m, s.links[m].q.items), Worth(cfg, m, s.links[m].lost),
            Worth(cfg, m, Pending(s.workers[m])), Worth(cfg, m, InProcess(cfg, s, m)));
  }

  lemma Regroup(total: multiset<Frame>, before: multiset<Frame>, offered: multiset<Frame>, t: multiset<Frame>,
                q: multiset<Frame>, l: multiset<Frame>, p: multiset<Frame>, r: multiset<Frame>)
    requires total == before + (offered + p + r) && offered == t + q + l
    ensures total == (before + (q + l + p + r)) + t
  {
    forall f
      ensures total[f] == ((before + (q + l + p + r)) + t)[f]
    {
    }
  }

  lemma {:induction false} DownstreamIsComposed(cfg: Config, i: nat, sourced: seq<Frame>)
    requires i < |cfg.wiring|
    ensures Downstream(cfg, i, Composed(cfg, i, sourced)) == Composed(cfg, |cfg.wiring| - 1, sourced)
    decreases |cfg.wiring| - i
  {
    if i < |cfg.wiring| - 1 {
      DownstreamIsComposed(cfg, i + 1, sourced);
    }
  }

  /**
   * Frame conservation in every reachable state: the outputs due to everything the source has
   * produced are the polled frames plus what is due to the frames queued, lost, pending or in process.
   */
  lemma FramesConserved(cfg: Config, es: seq<Event>)
    requires Sensible(cfg) && Memoryless(cfg) && Exec(cfg, es).Some?
    ensures var s := Exec(cfg, es).value;
            multiset(Composed(cfg, |s.links| - 1, s.sourced)) ==
            multiset(Polled(s)) + AllStanding(cfg, s, |s.links|)
  {
    AlwaysInv(cfg, es);
    var s := Exec(cfg, es).value;
    var last := |s.links| - 1;
    UpToStage(cfg, s, last);
    WorthIsDownstream(cfg, last, Polled(s));
    WorthIsDownstream(cfg, 0, s.sourced);
    DownstreamIsComposed(cfg, 0, s.sourced);
  }

  // ---- Stages of any kind ----

  /** Everything that stage i has returned from process(). */
  function EmittedAt(cfg: Config, s: State, i: nat): multiset<Frame>
    requires WellShaped(cfg, s) && i < |s.links|
  {
    multiset(if i == 0 then s.sourced else Emitted(cfg, i, Completed(s.workers[i], s.links[i - 1].taken)))
  }

  /** Where these frames are: taken by the next stage or the poller, queued, lost, or waiting to be enqueued. */
  function PlacesAt(cfg: Config, s: State, i: nat): multiset<Frame>
    requires WellShaped(cfg, s) && i < |s.links|
  {
    var l := s.links[i];
    multiset(l.taken) + multiset(l.q.items) + multiset(l.lost) + multiset(Pending(s.workers[i]))
  }

  function AllEmitted(cfg: Config, s: State, m: nat): multiset<Frame>
    requires WellShaped(cfg, s) && m <= |s.links|
  {
    if m == 0 then multiset{} else AllEmitted(cfg, s, m - 1) + EmittedAt(cfg, s, m - 1)
  }

  function AllPlaces(cfg: Config, s: State, m: nat): multiset<Frame>
    requires WellShaped(cfg, s) && m <= |s.links|
  {
    if m == 0 then multiset{} else AllPlaces(cfg, s, m - 1) + PlacesAt(cfg, s, m - 1)
  }

  lemma OneStagePlaces(cfg: Config, s: State, i: nat)
    requires Inv(cfg, s) && i < |s.links|
    ensures EmittedAt(cfg, s, i) == PlacesAt(cfg, s, i)
  {
    assert LinkInv(s.links[i], cfg.wiring[i]) && StageInv(cfg, s, i);
    hide Emitted;
    assert multiset(s.links[i].offered + Pending(s.workers[i])) ==
           multiset(s.links[i].offered) + multiset(Pending(s.workers[i]));
  }

  ghost predicate Accounted(cfg: Config, s: State, m: nat)
    requires WellShaped(cfg, s) && m <= |s.links|
  {
    AllEmitted(cfg, s, m) == AllPlaces(cfg, s, m)
  }

  lemma {:induction false} EmittedIsPlaced(cfg: Config, s: State, m: nat)
    requires Inv(cfg, s) && m <= |s.links|
    ensures Accounted(cfg, s, m)
    decreases m
  {
    hide *;
    InvShaped(cfg, s);
    if m == 0 {
      NothingPlaced(cfg, s);
    } else {
      EmittedIsPlaced(cfg, s, m - 1);
      OneMoreStage(cfg, s, m - 1);
    }
  }

  lemma InvShaped(cfg: Config, s: State)
    requires Inv(cfg, s)
    ensures WellShaped(cfg, s) && |s.links| == |s.workers| == |cfg.wiring|
  {
  }

  lemma NothingPlaced(cfg: Config, s: State)
    requires WellShaped(cfg, s)
    ensures Accounted(cfg, s, 0)
  {
  }

  lemma OneMoreStage(cfg: Config, s: State, m: nat)
    requires Inv(cfg, s) && m < |s.links| && Accounted(cfg, s, m)
    ensures Accounted(cfg, s, m + 1)
  {
    OneStagePlaces(cfg, s, m);
    assert WellShaped(cfg, s);
    hide Inv, EmittedAt, PlacesAt;
    SumsAgree(AllEmitted(cfg, s, m), AllPlaces(cfg, s, m), EmittedAt(cfg, s, m), PlacesAt(cfg, s, m));
  }

  lemma SumsAgree(a: multiset<Frame>, b: multiset<Frame>, x: multiset<Frame>, y: multiset<Frame>)
    requires a == b && x == y
    ensures a + x == b + y
  {
  }

  /**
   * Conservation for stages of any kind, with or without memory: in every reachable state each frame
   * that any stage has returned from process() is accounted for exactly once. It was taken by the next
   * stage or polled, is queued, was lost at its queue, or waits to be enqueued.
   */
  lemma EmissionsConserved(cfg: Config, es: seq<Event>)
    requires Sensible(cfg) && Exec(cfg, es).Some?
    ensures var s := Exec(cfg, es).value;
            AllEmitted(cfg, s, |s.links|) == AllPlaces(cfg, s, |s.links|)
  {
    AlwaysInv(cfg, es);
    var s := Exec(cfg, es).value;
    EmittedIsPlaced(cfg, s, |s.links|);
  }
}
