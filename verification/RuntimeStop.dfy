/** Stopping takes boundedly many worker steps, and nothing can keep a worker from finishing. */
module RuntimeStop {
  import opened Frames
  import opened InProcessQueue
  import opened LinearRuntime

  // ---- Waking up ----

  /** Queue i is shut down and the worker that feeds it does not sleep. */
  predicate Released(s: State, i: nat)
  {
    i < |s.links| == |s.workers| && s.links[i].q.shutdown && !IsAsleep(s.workers[i])
  }

  lemma NotifyReleases(cfg: Config, s: State, i: nat)
    requires Sensible(cfg) && WellShaped(cfg, s) && Enabled(cfg, s, NotifyQueue(i))
    ensures Released(Next(cfg, s, NotifyQueue(i)), i)
  {
  }

  /** A released worker never sleeps again. */
  lemma ReleasedStays(cfg: Config, s: State, e: Event, i: nat)
    requires Sensible(cfg) && WellShaped(cfg, s) && Enabled(cfg, s, e) && Released(s, i)
    ensures Released(Next(cfg, s, e), i)
  {
  }

  lemma {:induction false} ReleasedAfter(cfg: Config, es: seq<Event>, i: nat)
    requires Sensible(cfg) && Exec(cfg, es).Some? && NotifyQueue(i) in es
    ensures Released(Exec(cfg, es).value, i)
  {
    var m := |es| - 1;
    var s := Exec(cfg, es[..m]).value;
    hide Next, Enabled, Released;
    if es[m] == NotifyQueue(i) {
      NotifyReleases(cfg, s, i);
    } else {
      ReleasedAfter(cfg, es[..m], i);
      ReleasedStays(cfg, s, es[m], i);
    }
  }

  /** stop() has raised the flag, and every queue has been shut down and has notified its sleeper. */
  predicate Stopped(s: State)
  {
    s.stop && |s.links| == |s.workers| && forall i :: 0 <= i < |s.links| ==> Released(s, i)
  }

  lemma {:induction false} FlagStays(cfg: Config, es: seq<Event>)
    requires Sensible(cfg) && Exec(cfg, es).Some? && RaiseStop in es
    ensures Exec(cfg, es).value.stop
  {
    var m := |es| - 1;
    if es[m] != RaiseStop {
      FlagStays(cfg, es[..m]);
    }
  }

  /** However the calls of stop() interleave with everything else, afterwards the runtime is stopped. */
  lemma StopTakesEffect(cfg: Config, es: seq<Event>)
    requires Sensible(cfg) && Exec(cfg, es).Some?
    requires RaiseStop in es && forall i :: 0 <= i < |cfg.wiring| ==> NotifyQueue(i) in es
    ensures Stopped(Exec(cfg, es).value)
  {
    FlagStays(cfg, es);
    var s := Exec(cfg, es).value;
    forall i | 0 <= i < |s.links|
      ensures Released(s, i)
    {
      ReleasedAfter(cfg, es, i);
    }
  }

  /** A worker only sleeps before a full queue that blocks: taking a frame always wakes it. */
  ghost predicate SleepsForReason(cfg: Config, s: State, i: nat)
    requires WellShaped(cfg, s) && i < |s.links|
  {
    && (s.workers[i].Emitting? && s.workers[i].sleep != Awake ==> cfg.wiring[i].policy == Block)
    && (IsAsleep(s.workers[i]) ==> |s.links[i].q.items| >= cfg.wiring[i].queueCapacity)
  }

  lemma ReasonKept(cfg: Config, s: State, e: Event, i: nat)
    requires Sensible(cfg) && WellShaped(cfg, s) && Enabled(cfg, s, e) && i < |s.links| && SleepsForReason(cfg, s, i)
    ensures SleepsForReason(cfg, Next(cfg, s, e), i)
  {
    if e.EnqueueOne? {
      EnqueueKeepsReason(cfg, s, e.w, i);
    } else if e.TakeInput? {
      TakingKeepsReason(cfg, s, e.w, i);
    }
    hide Attempt, Offered, Sensible;
  }

  lemma EnqueueKeepsReason(cfg: Config, s: State, w: nat, i: nat)
    requires Sensible(cfg) && WellShaped(cfg, s) && Enabled(cfg, s, EnqueueOne(w)) && i < |s.links|
    requires SleepsForReason(cfg, s, i)
    ensures SleepsForReason(cfg, Next(cfg, s, EnqueueOne(w)), i)
  {
    if w == i {
      WaitingMeansFull(s.links[i].q, cfg.wiring[i], s.workers[i].rest[0], s.workers[i].sleep == Notified);
    }
    hide Attempt, Offered, Sensible;
  }

  lemma TakingKeepsReason(cfg: Config, s: State, w: nat, i: nat)
    requires Sensible(cfg) && WellShaped(cfg, s) && Enabled(cfg, s, TakeInput(w)) && i < |s.links|
    requires SleepsForReason(cfg, s, i)
    ensures SleepsForReason(cfg, Next(cfg, s, TakeInput(w)), i)
  {
    hide Attempt, Offered, Sensible;
  }

  lemma WaitingMeansFull(q: Contents, entry: StageEntry, x: Frame, slept: bool)
    requires entry.queueCapacity > 0
    ensures Attempt(q, entry, x, slept).1 == MustWait ==>
              |q.items| >= entry.queueCapacity && (slept || entry.policy == Block)
  {
  }

  /** In every reachable state a sleeping worker faces a full queue: no wake-up is lost in the pipeline. */
  lemma {:induction false} SleepersFaceFullQueues(cfg: Config, es: seq<Event>, i: nat)
    requires Sensible(cfg) && Exec(cfg, es).Some? && i < |cfg.wiring|
    ensures SleepsForReason(cfg, Exec(cfg, es).value, i)
  {
    if es != [] {
      var m := |es| - 1;
      SleepersFaceFullQueues(cfg, es[..m], i);
      hide Next, Enabled, SleepsForReason;
      ReasonKept(cfg, Exec(cfg, es[..m]).value, es[m], i);
    }
  }

  // ---- Progress after stop ----

  /** How far a worker is from its exit, in loop positions. */
  function PhaseOf(pc: Worker): nat
  {
    match pc
    case Exited => 0
    case AtTop => 1
    case Emitting(_, _, _) => 2
    case Processing => 3
    case Admitted => 4
  }

  /** Frames that a worker has yet to enqueue. */
  function PendingOf(pc: Worker): nat { |Pending(pc)| }

  /** Calls of process() that a worker will still return from once stop is raised. */
  function CallsOf(pc: Worker): nat { if pc == Admitted || pc == Processing then 1 else 0 }

  function Total(workers: seq<Worker>, f: Worker -> nat): nat
  {
    if workers == [] then 0 else Total(workers[..|workers| - 1], f) + f(workers[|workers| - 1])
  }

  lemma {:induction false} TotalUpdate(workers: seq<Worker>, w: nat, pc: Worker, f: Worker -> nat)
    requires w < |workers|
    ensures Total(workers[w := pc], f) == Total(workers, f) - f(workers[w]) + f(pc)
  {
    var m := |workers| - 1;
    if w < m {
      assert workers[w := pc][..m] == workers[..m][w := pc];
      TotalUpdate(workers[..m], w, pc, f);
    } else {
      assert workers[w := pc][..m] == workers[..m];
    }
  }

  predicate IsWorkerStep(e: Event)
  {
    e.TestStop? || e.TakeInput? || e.ProcessReturns? || e.EnqueueOne? || e.FinishIteration?
  }

  /** The frames that an event hands to a worker for enqueueing. */
  function OutputsOf(e: Event): nat { if e.ProcessReturns? then |e.outs| else 0 }

  function CallsIn(e: Event): nat { if e.ProcessReturns? then 1 else 0 }

  lemma StaysStopped(cfg: Config, s: State, e: Event)
    requires Sensible(cfg) && WellShaped(cfg, s) && Enabled(cfg, s, e) && Stopped(s)
    ensures Stopped(Next(cfg, s, e))
  {
    var t := Next(cfg, s, e);
    assert t.stop;
    hide Next, Enabled, Released;
    forall i | 0 <= i < |t.links|
      ensures Released(t, i)
    {
      ReleasedStays(cfg, s, e, i);
    }
  }

  /** After stop a worker step moves just that worker: closer to its exit, or to fewer pending frames. */
  lemma WorkerMovesOn(cfg: Config, s: State, e: Event)
    requires Sensible(cfg) && WellShaped(cfg, s) && Enabled(cfg, s, e) && Stopped(s) && IsWorkerStep(e)
    ensures var t := Next(cfg, s, e);
            && e.w < |s.workers| == |t.workers| && t.workers == s.workers[e.w := t.workers[e.w]]
            && var pc, pc' := s.workers[e.w], t.workers[e.w];
            && (PhaseOf(pc') < PhaseOf(pc) || (PhaseOf(pc') == PhaseOf(pc) && PendingOf(pc') < PendingOf(pc)))
            && PhaseOf(pc') + PendingOf(pc') + 1 <= PhaseOf(pc) + PendingOf(pc) + OutputsOf(e)
            && CallsOf(pc') + CallsIn(e) <= CallsOf(pc)
  {
    assert Released(s, e.w);
    if e.TakeInput? && e.w > 0 {
      assert Released(s, e.w - 1);
    }
  }

  lemma WorkersUntouched(cfg: Config, s: State, e: Event)
    requires Sensible(cfg) && WellShaped(cfg, s) && Enabled(cfg, s, e) && Stopped(s) && !IsWorkerStep(e)
    ensures Next(cfg, s, e).workers == s.workers
  {
    assert forall i :: 0 <= i < |s.links| ==> Released(s, i) && !IsAsleep(s.workers[i]);
  }

  /** Worker steps left once stop has taken effect, apart from the frames that process() may still return. */
  function Load(workers: seq<Worker>): nat { Total(workers, PhaseOf) + Total(workers, PendingOf) }

  /**
   * After stopping, every worker step lowers the pair (loop positions, pending frames) in the
   * lexicographic order, whatever process() returns, and no other step changes a worker.
   */
  lemma StepLowersRank(cfg: Config, s: State, e: Event)
    requires Sensible(cfg) && WellShaped(cfg, s) && Enabled(cfg, s, e) && Stopped(s)
    ensures var t := Next(cfg, s, e);
            && Stopped(t)
            && (!IsWorkerStep(e) ==> t.workers == s.workers)
            && (IsWorkerStep(e) ==>
                  || Total(t.workers, PhaseOf) < Total(s.workers, PhaseOf)
                  || (Total(t.workers, PhaseOf) == Total(s.workers, PhaseOf) &&
                      Total(t.workers, PendingOf) < Total(s.workers, PendingOf)))
            && Load(t.workers) + (if IsWorkerStep(e) then 1 else 0) <= Load(s.workers) + OutputsOf(e)
            && Total(t.workers, CallsOf) + CallsIn(e) <= Total(s.workers, CallsOf)
  {
    var t := Next(cfg, s, e);
    StaysStopped(cfg, s, e);
    hide Next, Stopped;
    if IsWorkerStep(e) {
      WorkerMovesOn(cfg, s, e);
      TotalUpdate(s.workers, e.w, t.workers[e.w], PhaseOf);
      TotalUpdate(s.workers, e.w, t.workers[e.w], PendingOf);
      TotalUpdate(s.workers, e.w, t.workers[e.w], CallsOf);
    } else {
      WorkersUntouched(cfg, s, e);
    }
    hide Total, PhaseOf, PendingOf, CallsOf;
  }

  /** Once stopped, every worker that has not exited has a step to take. */
  lemma NobodyStuck(cfg: Config, s: State, w: nat) returns (e: Event)
    requires Sensible(cfg) && WellShaped(cfg, s) && Stopped(s)
    requires w < |s.workers| && s.workers[w] != Exited
    ensures IsWorkerStep(e) && e.w == w && Enabled(cfg, s, e)
    ensures e.ProcessReturns? && w == 0 ==> e.outs == []
  {
    assert Released(s, w);
    match s.workers[w]
    case AtTop => e := TestStop(w);
    case Admitted => e := TakeInput(w);
    case Processing => e := ProcessReturns(w, if w > 0 then cfg.transform(w, s.links[w - 1].taken) else [], false);
    case Emitting(rest, _, _) => e := if rest == [] then FinishIteration(w) else EnqueueOne(w);
  }

  /** Events that happen one after another from s. */
  function Continue(cfg: Config, s: State, es: seq<Event>): (r: Option<State>)
    requires Sensible(cfg) && WellShaped(cfg, s)
    ensures r.Some? ==> WellShaped(cfg, r.value)
  {
    if es == [] then Some(s)
    else
      match Continue(cfg, s, es[..|es| - 1])
      case None => None
      case Some(t) => if Enabled(cfg, t, es[|es| - 1]) then Some(Next(cfg, t, es[|es| - 1])) else None
  }

  function WorkerSteps(es: seq<Event>): nat
  {
    if es == [] then 0 else WorkerSteps(es[..|es| - 1]) + if IsWorkerStep(es[|es| - 1]) then 1 else 0
  }

  /** Frames returned by the process() calls among the events. */
  function Returned(es: seq<Event>): nat
  {
    if es == [] then 0 else Returned(es[..|es| - 1]) + OutputsOf(es[|es| - 1])
  }

  function ProcessCalls(es: seq<Event>): nat
  {
    if es == [] then 0 else ProcessCalls(es[..|es| - 1]) + CallsIn(es[|es| - 1])
  }

  /**
   * However the threads interleave after stop, each worker returns from process() at most once more,
   * and the workers take at most Load(s) steps and one for every frame that these calls return.
   */
  lemma {:induction false} StopIsBounded(cfg: Config, s: State, es: seq<Event>)
    requires Sensible(cfg) && WellShaped(cfg, s) && Stopped(s) && Continue(cfg, s, es).Some?
    ensures var t := Continue(cfg, s, es).value;
            && Stopped(t)
            && WorkerSteps(es) + Load(t.workers) <= Load(s.workers) + Returned(es)
            && ProcessCalls(es) + Total(t.workers, CallsOf) <= Total(s.workers, CallsOf) <= |s.workers|
  {
    CallsAtMostOneEach(s.workers);
    if es != [] {
      var m := |es| - 1;
      assert Continue(cfg, s, es[..m]).Some?;
      StopIsBounded(cfg, s, es[..m]);
      var t := Continue(cfg, s, es[..m]).value;
      hide Load, Total, Next, Stopped;
      StepLowersRank(cfg, t, es[m]);
    }
  }

  lemma {:induction false} CallsAtMostOneEach(workers: seq<Worker>)
    ensures Total(workers, CallsOf) <= |workers|
  {
    if workers != [] {
      CallsAtMostOneEach(workers[..|workers| - 1]);
    }
  }

  /** A run that no worker step can extend has ended with every worker gone: join() returns. */
  lemma JoinReturns(cfg: Config, s: State)
    requires Sensible(cfg) && WellShaped(cfg, s) && Stopped(s)
    requires forall e: Event :: IsWorkerStep(e) ==> !Enabled(cfg, s, e)
    ensures forall w :: 0 <= w < |s.workers| ==> s.workers[w] == Exited
  {
    forall w | 0 <= w < |s.workers|
      ensures s.workers[w] == Exited
    {
      if s.workers[w] != Exited {
        var e := NobodyStuck(cfg, s, w);
      }
    }
  }

  /** Stopping can always run to the end: some continuation makes every worker exit, whatever process() returns. */
  lemma {:induction false} CanFinish(cfg: Config, s: State) returns (es: seq<Event>)
    requires Sensible(cfg) && WellShaped(cfg, s) && Stopped(s)
    ensures Continue(cfg, s, es).Some?
    ensures forall w :: 0 <= w < |s.workers| ==> Continue(cfg, s, es).value.workers[w] == Exited
    decreases Total(s.workers, PhaseOf), Total(s.workers, PendingOf)
  {
    if w :| 0 <= w < |s.workers| && s.workers[w] != Exited {
      hide Stopped, Total;
      var e := NobodyStuck(cfg, s, w);
      StepLowersRank(cfg, s, e);
      var t := Next(cfg, s, e);
      var rest := CanFinish(cfg, t);
      Prepend(cfg, s, e, rest);
      es := [e] + rest;
    } else {
      es := [];
    }
  }

  lemma {:induction false} Prepend(cfg: Config, s: State, e: Event, es: seq<Event>)
    requires Sensible(cfg) && WellShaped(cfg, s) && Enabled(cfg, s, e)
    ensures Continue(cfg, s, [e] + es) == Continue(cfg, Next(cfg, s, e), es)
  {
    hide Next, Enabled;
    if es == [] {
      assert [e] + es == [e] && [e][..0] == [];
      assert Continue(cfg, s, []) == Some(s);
    } else {
      Prepend(cfg, s, e, es[..|es| - 1]);
      assert ([e] + es)[..|es|] == [e] + es[..|es| - 1];
    }
  }
}
