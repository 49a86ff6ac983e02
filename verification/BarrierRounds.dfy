/** Each worker drains each of its channels exactly once for every signal, and nothing else is recorded. */
module BarrierRounds {
  import opened GenerationBarrier
  import ChannelAssignment
  import History = DrainHistory

  /** Of the slots of a worker in a cycle, those before its position have been drained for this signal. */
  predicate AlreadyDrained(pc: Pc, i: nat)
  {
    match pc
    case Draining(at) => i < at
    case Decimating(at) => i <= at
    case Waiting => true
    case Reporting => true
  }

  ghost predicate OncePerSignal(cfg: Config, s: State)
    requires Shaped(cfg, s)
  {
    forall w, i :: 0 <= w < cfg.workers && 0 <= i < |s.rounds[w]| ==>
      |s.rounds[w][i]| + (if AlreadyDrained(s.workers[w].pc, i) then 0 else 1) == s.workers[w].last
  }

  lemma StepKeepsCount(cfg: Config, s: State, e: Event)
    requires Shaped(cfg, s) && CounterInv(cfg, s) && OncePerSignal(cfg, s) && Enabled(cfg, s, e)
    ensures OncePerSignal(cfg, Next(cfg, s, e))
  {
    if e.Start? {
      assert WorkerInv(s.workers[e.w], s.signals);
    }
    hide ChannelAssignment.WorkerResult, History.Drained, FinishedCount, Placed;
  }

  lemma LastOf(cfg: Config, es: seq<Event>)
    requires Sensible(cfg) && es != [] && Exec(cfg, es).Some?
    ensures var m := |es| - 1; var r := Exec(cfg, es[..m]);
            && r.Some? && Enabled(cfg, r.value, es[m]) && Exec(cfg, es).value == Next(cfg, r.value, es[m])
  {
    hide Next, Enabled;
  }

  lemma {:induction false} AlwaysOnce(cfg: Config, es: seq<Event>)
    requires Sensible(cfg) && Exec(cfg, es).Some?
    ensures OncePerSignal(cfg, Exec(cfg, es).value)
  {
    if es != [] {
      var m := |es| - 1;
      LastOf(cfg, es);
      AlwaysOnce(cfg, es[..m]);
      AlwaysInv(cfg, es[..m]);
      hide Exec, Next, Enabled, OncePerSignal, CounterInv, ResultInv, DrainInv, GatherInv;
      StepKeepsCount(cfg, Exec(cfg, es[..m]).value, es[m]);
    }
  }

  /** When results are gathered, every channel has been drained once for each signal so far. */
  lemma DrainedOncePerSignal(cfg: Config, es: seq<Event>, w: nat, i: nat)
    requires Sensible(cfg) && Exec(cfg, es).Some? && w < cfg.workers
    requires i < |Exec(cfg, es).value.rounds[w]| && Exec(cfg, es).value.coordinator != Awaiting
    ensures |Exec(cfg, es).value.rounds[w][i]| == Exec(cfg, es).value.signals
  {
    AlwaysOnce(cfg, es);
    AlwaysInv(cfg, es);
    var s := Exec(cfg, es).value;
    hide Exec, ResultInv, DrainInv, GatherInv;
    assert Finished(s.workers[w], s.signals);
  }

  /** The drains of worker w at slot i in a run: what each of them saw in the ring, and its window. */
  ghost function Drains(cfg: Config, es: seq<Event>, w: nat, i: nat): seq<History.Round>
    requires Sensible(cfg) && Exec(cfg, es).Some? && w < cfg.workers
  {
    if es == [] then []
    else
      var m := |es| - 1;
      LastOf(cfg, es);
      var before := Drains(cfg, es[..m], w, i);
      if es[m].Drain? && es[m].w == w && Exec(cfg, es[..m]).value.workers[w].pc == Draining(i)
      then before + [History.Round(es[m].observed, es[m].window)] else before
  }

  lemma StepRecords(cfg: Config, s: State, e: Event, w: nat, i: nat)
    requires Shaped(cfg, s) && Enabled(cfg, s, e) && w < cfg.workers && i < |s.rounds[w]|
    ensures var t := Next(cfg, s, e);
            && i < |t.rounds[w]|
            && t.rounds[w][i] ==
               if e.Drain? && e.w == w && s.workers[w].pc == Draining(i)
               then s.rounds[w][i] + [History.Round(e.observed, e.window)] else s.rounds[w][i]
  {
    hide ChannelAssignment.WorkerResult, History.Drained, Placed;
  }

  /** What is recorded for a channel is exactly what its drains took, in order. */
  lemma {:induction false} RoundsAreDrains(cfg: Config, es: seq<Event>, w: nat, i: nat)
    requires Sensible(cfg) && Exec(cfg, es).Some? && w < cfg.workers && i < |cfg.owned[w]|
    ensures i < |Exec(cfg, es).value.rounds[w]| && Exec(cfg, es).value.rounds[w][i] == Drains(cfg, es, w, i)
  {
    if es != [] {
      var m := |es| - 1;
      LastOf(cfg, es);
      RoundsAreDrains(cfg, es[..m], w, i);
      hide Next, Enabled;
      StepRecords(cfg, Exec(cfg, es[..m]).value, es[m], w, i);
    }
  }
}
