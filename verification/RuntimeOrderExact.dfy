/**
 * For which stages a pipeline of a source and one stage polls in source order: exactly for those that
 * map subsequences of their input to subsequences of their output.
 */
module RuntimeOrderExact {
  import opened Frames
  import opened InProcessQueue
  import opened Subsequence
  import opened LinearRuntime
  import opened RuntimeOrder

  type Transform = (nat, seq<Frame>) -> seq<Frame>

  /** Both queues hold one frame; the first drops its oldest frame, so any frame can be made to get lost. */
  const LOSSY: seq<StageEntry> := [StageEntry(1, DropOldest), StageEntry(1, Block)]

  function Lossy(t: Transform): Config { Config(LOSSY, t) }

  ghost predicate Reachable(cfg: Config, s: State)
    requires Sensible(cfg)
  {
    exists es :: Exec(cfg, es) == Some(s)
  }

  lemma ReachNext(cfg: Config, s: State, e: Event)
    requires Sensible(cfg) && WellShaped(cfg, s) && Reachable(cfg, s) && Enabled(cfg, s, e)
    ensures Reachable(cfg, Next(cfg, s, e))
  {
    var es :| Exec(cfg, es) == Some(s);
    assert (es + [e])[..|es|] == es;
    hide Next, Enabled;
    assert Exec(cfg, es + [e]) == Some(Next(cfg, s, e));
  }

  // ---- The steps of the two workers, on states written out ----

  function Two(l0: Link, l1: Link, w0: Worker, w1: Worker, ys: seq<Frame>): State
  {
    State(false, [l0, l1], [w0, w1], ys)
  }

  lemma AdmitSource(t: Transform, l0: Link, l1: Link, w1: Worker, ys: seq<Frame>)
    requires Reachable(Lossy(t), Two(l0, l1, AtTop, w1, ys))
    ensures Reachable(Lossy(t), Two(l0, l1, Processing, w1, ys))
  {
    var s := Two(l0, l1, AtTop, w1, ys);
    assert Next(Lossy(t), s, TestStop(0)) == Two(l0, l1, Admitted, w1, ys);
    ReachNext(Lossy(t), s, TestStop(0));
    s := Two(l0, l1, Admitted, w1, ys);
    assert Next(Lossy(t), s, TakeInput(0)) == Two(l0, l1, Processing, w1, ys);
    ReachNext(Lossy(t), s, TakeInput(0));
  }

  lemma SourceReturns(t: Transform, l0: Link, l1: Link, w1: Worker, ys: seq<Frame>, y: Frame)
    requires Reachable(Lossy(t), Two(l0, l1, Processing, w1, ys))
    ensures Reachable(Lossy(t), Two(l0, l1, Emitting([y], false, Awake), w1, ys + [y]))
  {
    var s := Two(l0, l1, Processing, w1, ys);
    var e := ProcessReturns(0, [y], false);
    assert Next(Lossy(t), s, e) == Two(l0, l1, Emitting([y], false, Awake), w1, ys + [y]);
    ReachNext(Lossy(t), s, e);
  }

  /** A queue of capacity one that was just offered y by a caller that does not have to wait holds y alone. */
  lemma OfferedAlone(l: Link, entry: StageEntry, y: Frame)
    requires entry.queueCapacity == 1 && |l.q.items| <= 1 && (entry.policy == DropOldest || l.q.items == [])
    ensures Attempt(l.q, entry, y, false).1 == Accepted
    ensures var r := Offered(l, entry, y, false);
            r.q.items == [y] && r.q.shutdown == l.q.shutdown && r.taken == l.taken
  {
  }

  lemma SourceEnqueues(t: Transform, l0: Link, l1: Link, w1: Worker, ys: seq<Frame>, y: Frame)
    requires |l0.q.items| <= 1 && Reachable(Lossy(t), Two(l0, l1, Emitting([y], false, Awake), w1, ys))
    ensures Reachable(Lossy(t), Two(Offered(l0, LOSSY[0], y, false), l1, AtTop, w1, ys))
  {
    OfferedAlone(l0, LOSSY[0], y);
    hide Attempt, Offered;
    var s := Two(l0, l1, Emitting([y], false, Awake), w1, ys);
    var l := Offered(l0, LOSSY[0], y, false);
    assert [y][1..] == [];
    assert Next(Lossy(t), s, EnqueueOne(0)) == Two(l, l1, Emitting([], false, Awake), w1, ys);
    ReachNext(Lossy(t), s, EnqueueOne(0));
    s := Two(l, l1, Emitting([], false, Awake), w1, ys);
    assert Next(Lossy(t), s, FinishIteration(0)) == Two(l, l1, AtTop, w1, ys);
    ReachNext(Lossy(t), s, FinishIteration(0));
  }

  lemma StageTakes(t: Transform, l0: Link, l1: Link, w0: Worker, ys: seq<Frame>)
    requires l0.q.items != [] && Reachable(Lossy(t), Two(l0, l1, w0, AtTop, ys))
    ensures Reachable(Lossy(t), Two(Taken(l0), l1, w0, Processing, ys))
  {
    var s := Two(l0, l1, w0, AtTop, ys);
    assert Next(Lossy(t), s, TestStop(1)) == Two(l0, l1, w0, Admitted, ys);
    ReachNext(Lossy(t), s, TestStop(1));
    s := Two(l0, l1, w0, Admitted, ys);
    assert Next(Lossy(t), s, TakeInput(1)) == Two(Taken(l0), l1, w0, Processing, ys);
    ReachNext(Lossy(t), s, TakeInput(1));
  }

  lemma StageReturns(t: Transform, l0: Link, l1: Link, w0: Worker, ys: seq<Frame>)
    requires Reachable(Lossy(t), Two(l0, l1, w0, Processing, ys))
    ensures Reachable(Lossy(t), Two(l0, l1, w0, Emitting(t(1, l0.taken), false, Awake), ys))
  {
    var s := Two(l0, l1, w0, Processing, ys);
    var e := ProcessReturns(1, t(1, l0.taken), false);
    assert Next(Lossy(t), s, e) == Two(l0, l1, w0, Emitting(t(1, l0.taken), false, Awake), ys);
    ReachNext(Lossy(t), s, e);
  }

  /** The stage enqueues one frame and the main thread polls it. */
  lemma StageDelivers(t: Transform, l0: Link, l1: Link, w0: Worker, ys: seq<Frame>, rest: seq<Frame>)
    requires rest != [] && l1.q.items == []
    requires Reachable(Lossy(t), Two(l0, l1, w0, Emitting(rest, false, Awake), ys))
    ensures Offered(l1, LOSSY[1], rest[0], false).q.items != []
    ensures Reachable(Lossy(t), Two(l0, Taken(Offered(l1, LOSSY[1], rest[0], false)), w0,
                                Emitting(rest[1..], false, Awake), ys))
  {
    OfferedAlone(l1, LOSSY[1], rest[0]);
    hide Attempt, Offered;
    var s, l := Two(l0, l1, w0, Emitting(rest, false, Awake), ys), Offered(l1, LOSSY[1], rest[0], false);
    assert Next(Lossy(t), s, EnqueueOne(1)) == Two(l0, l, w0, Emitting(rest[1..], false, Awake), ys);
    ReachNext(Lossy(t), s, EnqueueOne(1));
    s := Two(l0, l, w0, Emitting(rest[1..], false, Awake), ys);
    assert Next(Lossy(t), s, Poll) == Two(l0, Taken(l), w0, Emitting(rest[1..], false, Awake), ys);
    ReachNext(Lossy(t), s, Poll);
  }

  lemma StageReturnsToTop(t: Transform, l0: Link, l1: Link, w0: Worker, ys: seq<Frame>)
    requires Reachable(Lossy(t), Two(l0, l1, w0, Emitting([], false, Awake), ys))
    ensures Reachable(Lossy(t), Two(l0, l1, w0, AtTop, ys))
  {
    var s := Two(l0, l1, w0, Emitting([], false, Awake), ys);
    assert Next(Lossy(t), s, FinishIteration(1)) == Two(l0, l1, w0, AtTop, ys);
    ReachNext(Lossy(t), s, FinishIteration(1));
  }

  /** All of the stage's outputs get polled. */
  lemma {:induction false} StageDeliversAll(t: Transform, l0: Link, l1: Link, w0: Worker, ys: seq<Frame>,
                                            rest: seq<Frame>)
    returns (l: Link)
    requires l1.q.items == [] && Reachable(Lossy(t), Two(l0, l1, w0, Emitting(rest, false, Awake), ys))
    ensures l.q.items == [] && l.taken == l1.taken + rest
    ensures Reachable(Lossy(t), Two(l0, l, w0, AtTop, ys))
    decreases |rest|
  {
    if rest == [] {
      l := l1;
      StageReturnsToTop(t, l0, l1, w0, ys);
    } else {
      StageDelivers(t, l0, l1, w0, ys, rest);
      OfferedAlone(l1, LOSSY[1], rest[0]);
      hide Offered, Reachable, Attempt, Two, Lossy;
      l := StageDeliversAll(t, l0, Taken(Offered(l1, LOSSY[1], rest[0], false)), w0, ys, rest[1..]);
      assert rest == [rest[0]] + rest[1..];
    }
  }

  // ---- Any choice of lost frames can happen ----

  /** The source has emitted ys, the stage has taken just xs, and everything it made of them was polled. */
  ghost predicate AtRest(t: Transform, l0: Link, l1: Link, xs: seq<Frame>)
  {
    && |l0.q.items| <= 1 && l0.taken == xs
    && l1.q.items == [] && l1.taken == Emitted(Lossy(t), 1, xs)
  }

  lemma Begin(t: Transform)
    ensures Reachable(Lossy(t), Two(Link(EMPTY, [], [], []), Link(EMPTY, [], [], []), AtTop, AtTop, []))
  {
    assert Init(Lossy(t)) == Two(Link(EMPTY, [], [], []), Link(EMPTY, [], [], []), AtTop, AtTop, []);
    assert Exec(Lossy(t), []) == Some(Init(Lossy(t)));
  }

  lemma OneMore(t: Transform, l0: Link, l1: Link, ys: seq<Frame>, y: Frame) returns (l: Link)
    requires |l0.q.items| <= 1 && Reachable(Lossy(t), Two(l0, l1, AtTop, AtTop, ys))
    ensures l.q.items == [y] && l.taken == l0.taken
    ensures Reachable(Lossy(t), Two(l, l1, AtTop, AtTop, ys + [y]))
  {
    hide Reachable;
    AdmitSource(t, l0, l1, AtTop, ys);
    SourceReturns(t, l0, l1, AtTop, ys, y);
    SourceEnqueues(t, l0, l1, AtTop, ys + [y], y);
    OfferedAlone(l0, LOSSY[0], y);
    l := Offered(l0, LOSSY[0], y, false);
  }

  lemma {:induction false} Build(t: Transform, xs: seq<Frame>, ys: seq<Frame>) returns (l0: Link, l1: Link)
    requires Subseq(xs, ys)
    ensures AtRest(t, l0, l1, xs) && Reachable(Lossy(t), Two(l0, l1, AtTop, AtTop, ys))
    decreases |ys|
  {
    hide Reachable;
    if ys == [] {
      Begin(t);
      l0, l1 := Link(EMPTY, [], [], []), Link(EMPTY, [], [], []);
    } else {
      var x, y := |xs| - 1, |ys| - 1;
      assert ys == ys[..y] + [ys[y]];
      if xs != [] && xs[x] == ys[y] && Subseq(xs[..x], ys[..y]) {
        var k0, k1 := Build(t, xs[..x], ys[..y]);
        l0 := OneMore(t, k0, k1, ys[..y], ys[y]);
        StageTakes(t, l0, k1, AtTop, ys);
        l0 := Taken(l0);
        assert l0.taken == xs;
        StageReturns(t, l0, k1, AtTop, ys);
        l1 := StageDeliversAll(t, l0, k1, AtTop, ys, t(1, xs));
      } else {
        var k0, k1 := Build(t, xs, ys[..y]);
        l0 := OneMore(t, k0, k1, ys[..y], ys[y]);
        l1 := k1;
      }
    }
  }

  // ---- The exact condition ----

  ghost predicate InOrder(cfg: Config, s: State)
    requires WellShaped(cfg, s) && |cfg.wiring| == 2
  {
    Subseq(Polled(s), Composed(cfg, 1, s.sourced))
  }

  /** With this stage, every pipeline and every run of it polls in source order. */
  ghost predicate AlwaysInOrder(t: Transform)
  {
    forall wiring: seq<StageEntry>, es ::
      |wiring| == 2 && Sensible(Config(wiring, t)) && Exec(Config(wiring, t), es).Some? ==>
        InOrder(Config(wiring, t), Exec(Config(wiring, t), es).value)
  }

  lemma {:induction false} EmittedByTransform(cfg: Config, other: Config, i: nat, xs: seq<Frame>)
    requires cfg.transform == other.transform
    ensures Emitted(cfg, i, xs) == Emitted(other, i, xs)
  {
    if xs != [] {
      EmittedByTransform(cfg, other, i, xs[..|xs| - 1]);
    }
  }

  lemma MonotoneByTransform(cfg: Config, t: Transform)
    requires |cfg.wiring| == 2 && cfg.transform == t && Monotone(Lossy(t), 1)
    ensures StagesMonotone(cfg)
  {
    forall xs, ys | Subseq(xs, ys)
      ensures Subseq(Emitted(cfg, 1, xs), Emitted(cfg, 1, ys))
    {
      EmittedByTransform(cfg, Lossy(t), 1, xs);
      EmittedByTransform(cfg, Lossy(t), 1, ys);
    }
    assert Monotone(cfg, 1);
  }

  lemma ComposedOfOne(cfg: Config, ys: seq<Frame>)
    ensures Composed(cfg, 1, ys) == Emitted(cfg, 1, ys)
  {
  }

  /**
   * The order of polling is the source's order, for every queue setting and every interleaving, if
   * and only if the stage maps subsequences to subsequences.
   */
  lemma InOrderIffMonotone(t: Transform)
    ensures AlwaysInOrder(t) <==> Monotone(Lossy(t), 1)
  {
    if Monotone(Lossy(t), 1) {
      forall wiring: seq<StageEntry>, es |
        |wiring| == 2 && Sensible(Config(wiring, t)) && Exec(Config(wiring, t), es).Some?
        ensures InOrder(Config(wiring, t), Exec(Config(wiring, t), es).value)
      {
        hide Monotone, Exec;
        MonotoneByTransform(Config(wiring, t), t);
        PolledInSourceOrder(Config(wiring, t), es);
      }
    }
    if AlwaysInOrder(t) {
      forall xs, ys | Subseq(xs, ys)
        ensures Subseq(Emitted(Lossy(t), 1, xs), Emitted(Lossy(t), 1, ys))
      {
        RunShowsOrder(t, xs, ys);
      }
    }
  }

  lemma RunShowsOrder(t: Transform, xs: seq<Frame>, ys: seq<Frame>)
    requires AlwaysInOrder(t) && Subseq(xs, ys)
    ensures Subseq(Emitted(Lossy(t), 1, xs), Emitted(Lossy(t), 1, ys))
  {
    var l0, l1 := Build(t, xs, ys);
    var s := Two(l0, l1, AtTop, AtTop, ys);
    var es :| Exec(Lossy(t), es) == Some(s);
    assert Config(LOSSY, t) == Lossy(t);
    ComposedOfOne(Lossy(t), ys);
    hide Subseq, Exec, Emitted, Composed;
    assert InOrder(Lossy(t), s);
  }

  // ---- A stage that keeps state ----

  const FIRST := Frame(1, 0, 0, 0.0, [])
  const SECOND := Frame(2, 0, 0, 0.0, [])

  /** A stage that passes only the first frame it sees. */
  const FIRST_ONLY: Transform := (i, xs) => if |xs| == 1 then xs else []

  /**
   * With such a stage behind a lossy queue, the polled frames need not occur in the composed output
   * at all: the stage starts from another frame than it would without the loss.
   */
  lemma MemoryMatters() returns (es: seq<Event>)
    ensures Exec(Lossy(FIRST_ONLY), es).Some?
    ensures var s := Exec(Lossy(FIRST_ONLY), es).value;
            Polled(s) == [SECOND] && Composed(Lossy(FIRST_ONLY), 1, s.sourced) == [FIRST]
    ensures !AlwaysInOrder(FIRST_ONLY)
  {
    var xs, ys := [SECOND], [FIRST, SECOND];
    assert xs[..0] == [] && ys[..1] == [FIRST] && Subseq([], [FIRST]) && Subseq(xs, ys);
    var l0, l1 := Build(FIRST_ONLY, xs, ys);
    es :| Exec(Lossy(FIRST_ONLY), es) == Some(Two(l0, l1, AtTop, AtTop, ys));
    ComposedOfOne(Lossy(FIRST_ONLY), ys);
    FirstOnly();
    hide Exec, Emitted, Composed;
    assert !Subseq([SECOND], [FIRST]);
    assert !InOrder(Lossy(FIRST_ONLY), Exec(Lossy(FIRST_ONLY), es).value);
  }

  lemma FirstOnly()
    ensures Emitted(Lossy(FIRST_ONLY), 1, [FIRST, SECOND]) == [FIRST]
    ensures Emitted(Lossy(FIRST_ONLY), 1, [SECOND]) == [SECOND]
  {
    var cfg := Lossy(FIRST_ONLY);
    assert [FIRST, SECOND][..1] == [FIRST] && [FIRST][..0] == [] && [SECOND][..0] == [];
    assert Emitted(cfg, 1, []) == [];
    assert Emitted(cfg, 1, [SECOND]) == Emitted(cfg, 1, []) + [SECOND];
    assert Emitted(cfg, 1, [FIRST]) == Emitted(cfg, 1, []) + [FIRST];
    assert Emitted(cfg, 1, [FIRST, SECOND]) == Emitted(cfg, 1, [FIRST]) + [];
  }
}
