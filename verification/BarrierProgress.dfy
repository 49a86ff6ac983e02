/** A cycle of the barrier always ends, until the 32-bit generation counter wraps; and it does wrap. */
module BarrierProgress {
  import opened Frames
  import opened GenerationBarrier
  import History = DrainHistory
  import ChannelAssignment

  // ---- A cycle ends, and the counter does wrap ----

  /** Steps that a worker still has to take for the latest signal. */
  function LeftOf(wk: Worker, slots: nat, signals: nat): nat
  {
    if Finished(wk, signals) then 0
    else match wk.pc
      case Waiting => 2 * slots + 2
      case Draining(i) => if i < slots then 2 * (slots - i) + 1 else 0
      case Decimating(i) => if i < slots then 2 * (slots - i) else 0
      case Reporting => 1
  }

  function Left(workers: seq<Worker>, owned: seq<seq<nat>>, signals: nat): nat
    requires |workers| == |owned|
  {
    var m := |workers| - 1;
    if workers == [] then 0 else Left(workers[..m], owned[..m], signals) + LeftOf(workers[m], |owned[m]|, signals)
  }

  lemma {:induction false} LeftUpdate(workers: seq<Worker>, owned: seq<seq<nat>>, signals: nat, w: nat, wk: Worker)
    requires |workers| == |owned| && w < |workers|
    ensures Left(workers[w := wk], owned, signals) ==
            Left(workers, owned, signals) - LeftOf(workers[w], |owned[w]|, signals) + LeftOf(wk, |owned[w]|, signals)
  {
    var m := |workers| - 1;
    hide LeftOf;
    if w < m {
      assert workers[w := wk][..m] == workers[..m][w := wk];
      LeftUpdate(workers[..m], owned[..m], signals, w, wk);
    } else {
      assert workers[w := wk][..m] == workers[..m];
    }
  }

  /** Steps left in the cycle in progress. */
  ghost function StepsLeft(cfg: Config, s: State): nat
    requires Shaped(cfg, s)
  {
    Left(s.workers, cfg.owned, s.signals)
  }

  lemma OneWorkerMoves(cfg: Config, s: State, e: Event)
    requires Shaped(cfg, s) && CounterInv(cfg, s) && Enabled(cfg, s, e)
    requires e.Start? || e.Drain? || e.DecimateSlot? || e.Report?
    ensures var t := Next(cfg, s, e);
            && t.signals == s.signals && t.coordinator == s.coordinator && t.generation == s.generation
            && t.workers == s.workers[e.w := t.workers[e.w]]
            && LeftOf(t.workers[e.w], |cfg.owned[e.w]|, s.signals) < LeftOf(s.workers[e.w], |cfg.owned[e.w]|, s.signals)
  {
    assert WorkerInv(s.workers[e.w], s.signals);
    hide ChannelAssignment.WorkerResult, History.Drained, FinishedCount;
  }

  /** While the coordinator waits, every step but its own brings the cycle one step closer to its end. */
  lemma CycleStepCounts(cfg: Config, s: State, e: Event)
    requires Sensible(cfg) && Inv(cfg, s) && Enabled(cfg, s, e) && s.coordinator == Awaiting && e != Collect
    ensures var t := Next(cfg, s, e);
            && t.signals == s.signals && t.coordinator == Awaiting && t.generation == s.generation
            && StepsLeft(cfg, t) < StepsLeft(cfg, s)
  {
    hide Sensible, ResultInv, GatherInv, DrainInv;
    OneWorkerMoves(cfg, s, e);
    var t := Next(cfg, s, e);
    LeftUpdate(s.workers, cfg.owned, s.signals, e.w, t.workers[e.w]);
    hide Next, Enabled, CounterInv, LeftOf, Left;
  }

  lemma LastStep(cfg: Config, es: seq<Event>, more: seq<Event>)
    requires Sensible(cfg) && more != [] && Exec(cfg, es + more).Some?
    ensures var m := |more| - 1; var r := Exec(cfg, es + more[..m]);
            && r.Some? && Enabled(cfg, r.value, more[m]) && Exec(cfg, es + more).value == Next(cfg, r.value, more[m])
  {
    assert (es + more)[..|es + more| - 1] == es + more[..|more| - 1];
    hide Enabled, Next;
  }

  /** From any reachable state with a waiting coordinator, at most StepsLeft worker steps come before it collects. */
  lemma {:induction false} CycleIsBounded(cfg: Config, es: seq<Event>, more: seq<Event>)
    requires Sensible(cfg) && Exec(cfg, es).Some? && Exec(cfg, es + more).Some? && Collect !in more
    requires Exec(cfg, es).value.coordinator == Awaiting
    ensures var s, t := Exec(cfg, es).value, Exec(cfg, es + more).value;
            t.coordinator == Awaiting && |more| + StepsLeft(cfg, t) <= StepsLeft(cfg, s)
  {
    if more == [] {
      assert es + more == es;
    } else {
      var m := |more| - 1;
      LastStep(cfg, es, more);
      var t := Exec(cfg, es + more[..m]).value;
      CycleIsBounded(cfg, es, more[..m]);
      hide *;
      AlwaysInv(cfg, es + more[..m]);
      CycleStepCounts(cfg, t, more[m]);
    }
  }

  lemma Extend(cfg: Config, es: seq<Event>, e: Event)
    requires Sensible(cfg) && Exec(cfg, es).Some? && Enabled(cfg, Exec(cfg, es).value, e)
    ensures Exec(cfg, es + [e]) == Frames.Some(Next(cfg, Exec(cfg, es).value, e))
  {
    assert (es + [e])[..|es|] == es;
    hide Next, Enabled;
  }

  /** From the state after es, the events `more` lead to the end of the cycle in which its buffer is published. */
  ghost predicate Publishes(cfg: Config, es: seq<Event>, more: seq<Event>, signals: nat)
    requires Sensible(cfg)
  {
    && Exec(cfg, es + more).Some? && more != [] && more[|more| - 1] == Publish
    && Exec(cfg, es + more).value.coordinator == Idle && Exec(cfg, es + more).value.signals == signals
  }

  lemma PublishesEarlier(cfg: Config, es: seq<Event>, e: Event, rest: seq<Event>, signals: nat)
    requires Sensible(cfg) && Publishes(cfg, es + [e], rest, signals)
    ensures Publishes(cfg, es, [e] + rest, signals)
  {
    hide Exec, Sensible;
    assert es + ([e] + rest) == es + [e] + rest;
  }

  lemma PublishNow(cfg: Config, es: seq<Event>)
    requires Sensible(cfg) && Exec(cfg, es).Some? && Enabled(cfg, Exec(cfg, es).value, Publish)
    ensures Publishes(cfg, es, [Publish], Exec(cfg, es).value.signals)
  {
    hide Exec, Sensible;
    Extend(cfg, es, Publish);
  }

  /** How far a gather is from its end. */
  function ChannelsLeft(c: Coordinator, channels: nat): nat
  {
    if c.Gathering? && c.ch < channels then channels - c.ch else 0
  }

  lemma GatherStep(cfg: Config, s: State)
    requires Sensible(cfg) && Inv(cfg, s) && s.coordinator.Gathering?
    ensures ChannelsLeft(s.coordinator, cfg.channels) == 0 ==> Enabled(cfg, s, Publish)
    ensures ChannelsLeft(s.coordinator, cfg.channels) > 0 ==>
              && Enabled(cfg, s, GatherOne)
              && var t := Next(cfg, s, GatherOne);
              && t.coordinator.Gathering? && t.signals == s.signals
              && ChannelsLeft(t.coordinator, cfg.channels) < ChannelsLeft(s.coordinator, cfg.channels)
  {
    AllPlaced(cfg);
    hide Sensible, CounterInv, ResultInv, DrainInv, Placed;
  }

  /** The gather runs to the end and publishes. */
  lemma {:induction false} FinishGather(cfg: Config, es: seq<Event>, signals: nat) returns (more: seq<Event>)
    requires Sensible(cfg) && Exec(cfg, es).Some? && Exec(cfg, es).value.coordinator.Gathering?
    requires Exec(cfg, es).value.signals == signals
    ensures Publishes(cfg, es, more, signals)
    decreases ChannelsLeft(Exec(cfg, es).value.coordinator, cfg.channels)
  {
    hide *;
    AlwaysInv(cfg, es);
    var s := Exec(cfg, es).value;
    GatherStep(cfg, s);
    if ChannelsLeft(s.coordinator, cfg.channels) == 0 {
      PublishNow(cfg, es);
      more := [Publish];
    } else {
      Extend(cfg, es, GatherOne);
      more := FinishGather(cfg, es + [GatherOne], signals);
      PublishesEarlier(cfg, es, GatherOne, more, signals);
      more := [GatherOne] + more;
    }
  }

  lemma CollectStep(cfg: Config, s: State)
    requires Shaped(cfg, s) && Enabled(cfg, s, Collect)
    ensures Next(cfg, s, Collect).coordinator.Gathering? && Next(cfg, s, Collect).signals == s.signals
  {
  }

  /** Some continuation of a cycle in progress publishes its buffer, as long as the counter has not wrapped. */
  lemma {:induction false} CycleFinishes(cfg: Config, es: seq<Event>, signals: nat) returns (more: seq<Event>)
    requires Sensible(cfg) && Exec(cfg, es).Some? && Exec(cfg, es).value.signals == signals
    requires Exec(cfg, es).value.coordinator == Awaiting && Exec(cfg, es).value.generation != 0
    ensures Publishes(cfg, es, more, signals)
    decreases StepsLeft(cfg, Exec(cfg, es).value)
  {
    hide *;
    AlwaysInv(cfg, es);
    var s := Exec(cfg, es).value;
    var e := SomeStep(cfg, s);
    Extend(cfg, es, e);
    if e == Collect {
      CollectStep(cfg, s);
      more := FinishGather(cfg, es + [e], signals);
    } else {
      CycleStepCounts(cfg, s, e);
      more := CycleFinishes(cfg, es + [e], signals);
    }
    PublishesEarlier(cfg, es, e, more, signals);
    more := [e] + more;
  }

  /** Any number of cycles below the counter's range can be run to the end. */
  lemma {:induction false} RunCycles(cfg: Config, n: nat) returns (es: seq<Event>)
    requires Sensible(cfg) && n < GENERATIONS
    ensures Exec(cfg, es).Some? && Exec(cfg, es).value.coordinator == Idle && Exec(cfg, es).value.signals == n
    decreases n
  {
    if n == 0 {
      es := [];
    } else {
      var before := RunCycles(cfg, n - 1);
      es := SignalOnce(cfg, before);
      var more := CycleFinishes(cfg, es, n);
      assert Publishes(cfg, es, more, n);
      es := es + more;
    }
  }

  /** One signal from an idle coordinator. */
  lemma SignalOnce(cfg: Config, es: seq<Event>) returns (all: seq<Event>)
    requires Sensible(cfg) && Exec(cfg, es).Some? && Exec(cfg, es).value.coordinator == Idle
    ensures Exec(cfg, all).Some?
    ensures var s, t := Exec(cfg, es).value, Exec(cfg, all).value;
            && t.coordinator == Awaiting && t.signals == s.signals + 1
            && t.generation == (if t.signals < GENERATIONS then t.signals else 0)
  {
    AlwaysInv(cfg, es);
    var s := Exec(cfg, es).value;
    assert CounterInv(cfg, s);
    SignalKeepsCounter(cfg, s);
    hide Exec, Sensible, Inv;
    Extend(cfg, es, Signal);
    all := es + [Signal];
  }

  /** After 2^32 - 1 complete cycles one more signal leads to a state in which nothing can happen. */
  lemma WrapIsReached(cfg: Config) returns (es: seq<Event>)
    requires Sensible(cfg)
    ensures Exec(cfg, es).Some?
    ensures var s := Exec(cfg, es).value;
            && s.coordinator == Awaiting && s.signals == GENERATIONS && s.generation == 0
            && forall e :: !Enabled(cfg, s, e)
  {
    var before := RunCycles(cfg, GENERATIONS - 1);
    es := SignalOnce(cfg, before);
    AlwaysInv(cfg, es);
    hide Exec, Inv, Sensible;
    Wrapped(cfg, Exec(cfg, es).value);
  }
}
