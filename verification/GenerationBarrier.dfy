/**
 * The coordinator and worker threads of DecimationThread, before stop: a 32-bit generation counter
 * starts each cycle, a done count ends it, and the coordinator then gathers the workers' results.
 */
module GenerationBarrier {
  import opened Samples
  import opened Frames
  import opened Decimation
  import opened ChannelAssignment
  import History = DrainHistory

  const GENERATIONS: nat := 0x1_0000_0000

  datatype Config = Config(workers: nat, channels: nat, owned: seq<seq<nat>>, mode: Mode, target: nat)

  ghost predicate Sensible(cfg: Config)
  {
    IsRoundRobin(cfg.owned, cfg.workers, cfg.channels)
  }

  /** A worker waits for a generation, drains slot i, decimates slot i, or is about to report. */
  datatype Pc = Waiting | Draining(i: nat) | Decimating(i: nat) | Reporting

  /** last is last_generation; runs is the history of the signals it has answered. */
  datatype Worker = Worker(pc: Pc, last: nat, runs: seq<nat>)

  datatype Coordinator = Idle | Awaiting | Gathering(ch: nat, out: seq<int16>)

  datatype State = State(
    generation: nat, done: nat, coordinator: Coordinator, workers: seq<Worker>,
    hist: seq<seq<seq<int16>>>,   // per worker and slot: the sliding history
    dec: seq<seq<seq<int16>>>,    // per worker and slot: the decimated result
    rounds: seq<seq<seq<History.Round>>>, // history: what each drain of a slot took from its ring
    signals: nat)                 // history: how often the coordinator has signalled

  datatype Event =
    | Signal
    | Collect                                  // the coordinator sees done_count_ reach num_workers_
    | GatherOne
    | Publish
    | Start(w: nat)
    | Drain(w: nat, observed: seq<int16>, window: nat) // the ring's samples, and the window in force
    | DecimateSlot(w: nat)
    | Report(w: nat)

  ghost function Init(cfg: Config): State
    requires Sensible(cfg)
  {
    var slots := seq(cfg.workers, w requires 0 <= w < cfg.workers => seq(|cfg.owned[w]|, _ => []));
    var untouched := seq(cfg.workers, w requires 0 <= w < cfg.workers => seq(|cfg.owned[w]|, _ => []));
    State(0, 0, Idle, seq(cfg.workers, _ => Worker(Waiting, 0, [])), slots, slots, untouched, 0)
  }

  ghost predicate Shaped(cfg: Config, s: State)
  {
    && |s.workers| == |s.hist| == |s.dec| == |s.rounds| == |cfg.owned| == cfg.workers > 0
    && (forall w :: 0 <= w < cfg.workers ==> |s.hist[w]| == |s.dec[w]| == |s.rounds[w]| == |cfg.owned[w]|)
    && forall w :: 0 <= w < cfg.workers ==> SlotInside(s.workers[w].pc, |s.hist[w]|)
  }

  predicate SlotInside(pc: Pc, slots: nat)
  {
    pc.Draining? || pc.Decimating? ==> pc.i < slots
  }

  /** The place of channel ch among the workers' slots. */
  ghost predicate Placed(cfg: Config, ch: nat)
  {
    && cfg.workers > 0 && ch % cfg.workers < |cfg.owned|
    && ch / cfg.workers < |cfg.owned[ch % cfg.workers]|
  }

  ghost predicate Enabled(cfg: Config, s: State, e: Event)
    requires Shaped(cfg, s)
  {
    match e
    case Signal => s.coordinator == Idle
    case Collect => s.coordinator == Awaiting && s.done >= cfg.workers
    case GatherOne => s.coordinator.Gathering? && s.coordinator.ch < cfg.channels && Placed(cfg, s.coordinator.ch)
    case Publish => s.coordinator.Gathering? && s.coordinator.ch == cfg.channels
    case Start(w) => w < cfg.workers && s.workers[w].pc == Waiting && s.generation > s.workers[w].last
    case Drain(w, _, _) => w < cfg.workers && s.workers[w].pc.Draining?
    case DecimateSlot(w) => w < cfg.workers && s.workers[w].pc.Decimating?
    case Report(w) => w < cfg.workers && s.workers[w].pc == Reporting
  }

  /** Where a worker goes when slot i is the next one. */
  function AtSlot(i: nat, slots: nat): Pc
  {
    if i < slots then Draining(i) else Reporting
  }

  function WithPc(s: State, w: nat, pc: Pc): State
    requires w < |s.workers|
  {
    s.(workers := s.workers[w := s.workers[w].(pc := pc)])
  }

  ghost function Started(cfg: Config, s: State, w: nat): (t: State)
    requires Shaped(cfg, s) && Enabled(cfg, s, Start(w))
    ensures Shaped(cfg, t)
  {
    s.(workers := s.workers[w := Worker(AtSlot(0, |s.hist[w]|), s.generation, s.workers[w].runs + [s.signals])])
  }

  ghost function DrainedSlot(cfg: Config, s: State, w: nat, observed: seq<int16>, window: nat): (t: State)
    requires Shaped(cfg, s) && Enabled(cfg, s, Drain(w, observed, window))
    ensures Shaped(cfg, t)
  {
    var i := s.workers[w].pc.i;
    var newHist := History.Drained(s.hist[w][i], observed, window);
    var taken := s.rounds[w][i] + [History.Round(observed, window)];
    WithPc(s.(hist := s.hist[w := s.hist[w][i := newHist]], rounds := s.rounds[w := s.rounds[w][i := taken]]),
           w, Decimating(i))
  }

  ghost function DecimatedSlot(cfg: Config, s: State, w: nat): (t: State)
    requires Shaped(cfg, s) && Enabled(cfg, s, DecimateSlot(w))
    ensures Shaped(cfg, t)
  {
    var i := s.workers[w].pc.i;
    WithPc(s.(dec := s.dec[w := s.dec[w][i := WorkerResult(s.hist[w][i], cfg.mode, cfg.target)]]), w,
           AtSlot(i + 1, |s.hist[w]|))
  }

  ghost function Next(cfg: Config, s: State, e: Event): (t: State)
    requires Shaped(cfg, s) && Enabled(cfg, s, e)
    ensures Shaped(cfg, t)
  {
    match e
    case Signal =>
      s.(generation := (s.generation + 1) % GENERATIONS, done := 0, coordinator := Awaiting, signals := s.signals + 1)
    case Collect => s.(coordinator := Gathering(0, []))
    case GatherOne =>
      var c := s.coordinator;
      var dec := s.dec[c.ch % cfg.workers][c.ch / cfg.workers];
      s.(coordinator := Gathering(c.ch + 1, c.out + GatherPart(dec, cfg.target)))
    case Publish => s.(coordinator := Idle)
    case Start(w) => Started(cfg, s, w)
    case Drain(w, observed, window) => DrainedSlot(cfg, s, w, observed, window)
    case DecimateSlot(w) => DecimatedSlot(cfg, s, w)
    case Report(w) => WithPc(s.(done := s.done + 1), w, Waiting)
  }

  ghost function Exec(cfg: Config, es: seq<Event>): (r: Option<State>)
    requires Sensible(cfg)
    ensures r.Some? ==> Shaped(cfg, r.value)
  {
    if es == [] then Frames.Some(Init(cfg))
    else
      match Exec(cfg, es[..|es| - 1])
      case None => Frames.None
      case Some(s) => if Enabled(cfg, s, es[|es| - 1]) then Frames.Some(Next(cfg, s, es[|es| - 1])) else Frames.None
  }

  // ---- The barrier invariant ----

  /** Worker wk has answered the latest signal and reported. */
  predicate Finished(wk: Worker, signals: nat)
  {
    wk.pc == Waiting && wk.last == signals
  }

  function FinishedCount(workers: seq<Worker>, signals: nat): nat
  {
    if workers == [] then 0
    else FinishedCount(workers[..|workers| - 1], signals) + if Finished(workers[|workers| - 1], signals) then 1 else 0
  }

  /** last is the number of the latest signal or one less, and every signal up to it was answered once. */
  ghost predicate WorkerInv(wk: Worker, signals: nat)
  {
    && (wk.last == signals || wk.last + 1 == signals)
    && wk.last < GENERATIONS
    && (wk.pc != Waiting ==> wk.last == signals)
    && |wk.runs| == wk.last && forall k :: 0 <= k < wk.last ==> wk.runs[k] == k + 1
  }

  ghost predicate CounterInv(cfg: Config, s: State)
    requires Shaped(cfg, s)
  {
    && s.signals <= GENERATIONS
    && s.generation == (if s.signals < GENERATIONS then s.signals else 0)
    && (forall w :: 0 <= w < cfg.workers ==> WorkerInv(s.workers[w], s.signals))
    && (s.coordinator == Awaiting ==> s.signals > 0 && s.done == FinishedCount(s.workers, s.signals))
    && (s.coordinator != Awaiting ==> forall w :: 0 <= w < cfg.workers ==> Finished(s.workers[w], s.signals))
  }

  /** Every result fits its history, except in the slot a worker is in the middle of. */
  ghost predicate ResultInv(cfg: Config, s: State)
    requires Shaped(cfg, s)
  {
    forall w, i :: 0 <= w < cfg.workers && 0 <= i < |s.hist[w]| && s.workers[w].pc != Decimating(i) ==>
      s.dec[w][i] == WorkerResult(s.hist[w][i], cfg.mode, cfg.target)
  }

  /** Every history is what its drains, one after another, make of the samples they took. */
  ghost predicate DrainInv(cfg: Config, s: State)
    requires Shaped(cfg, s)
  {
    forall w, i :: 0 <= w < cfg.workers && 0 <= i < |s.hist[w]| ==>
      s.hist[w][i] == History.HistoryAfter(s.rounds[w][i])
  }

  ghost function HistoryOf(cfg: Config, s: State, ch: nat): seq<int16>
    requires Shaped(cfg, s) && Placed(cfg, ch)
  {
    s.hist[ch % cfg.workers][ch / cfg.workers]
  }

  /** The histories in channel order. */
  ghost function Histories(cfg: Config, s: State, m: nat): (hs: seq<seq<int16>>)
    requires Shaped(cfg, s) && forall ch :: 0 <= ch < m ==> Placed(cfg, ch)
    ensures |hs| == m && forall ch :: 0 <= ch < m ==> Placed(cfg, ch) && hs[ch] == HistoryOf(cfg, s, ch)
  {
    if m == 0 then []
    else
      assert Placed(cfg, m - 1);
      Histories(cfg, s, m - 1) + [HistoryOf(cfg, s, m - 1)]
  }

  /** What has been gathered so far is the multi-threaded buffer for the histories of those channels. */
  ghost predicate GatherInv(cfg: Config, s: State)
    requires Shaped(cfg, s) && forall ch :: 0 <= ch < cfg.channels ==> Placed(cfg, ch)
  {
    s.coordinator.Gathering? ==>
      && s.coordinator.ch <= cfg.channels
      && s.coordinator.out == Gathered(Histories(cfg, s, s.coordinator.ch), cfg.mode, cfg.target)
  }

  lemma AllPlaced(cfg: Config)
    requires Sensible(cfg)
    ensures forall ch :: 0 <= ch < cfg.channels ==> Placed(cfg, ch)
  {
    forall ch | 0 <= ch < cfg.channels
      ensures Placed(cfg, ch)
    {
      RoundRobinShape(cfg.owned, cfg.workers, cfg.channels);
      PlaceOf(cfg.owned, cfg.workers, cfg.channels, ch);
    }
  }

  ghost predicate Inv(cfg: Config, s: State)
    requires Sensible(cfg)
  {
    && Shaped(cfg, s) && CounterInv(cfg, s) && ResultInv(cfg, s) && DrainInv(cfg, s)
    && (AllPlaced(cfg); GatherInv(cfg, s))
  }

  lemma {:induction false} CountUpdate(workers: seq<Worker>, w: nat, wk: Worker, signals: nat)
    requires w < |workers|
    ensures FinishedCount(workers[w := wk], signals) ==
            FinishedCount(workers, signals) + (if Finished(wk, signals) then 1 else 0) -
            (if Finished(workers[w], signals) then 1 else 0)
  {
    var m := |workers| - 1;
    if w < m {
      assert workers[w := wk][..m] == workers[..m][w := wk];
      CountUpdate(workers[..m], w, wk, signals);
    } else {
      assert workers[w := wk][..m] == workers[..m];
    }
  }

  lemma {:induction false} CountBounds(workers: seq<Worker>, signals: nat)
    ensures FinishedCount(workers, signals) <= |workers|
    ensures FinishedCount(workers, signals) == |workers| <==>
            forall w :: 0 <= w < |workers| ==> Finished(workers[w], signals)
    ensures FinishedCount(workers, signals) == 0 <==>
            forall w :: 0 <= w < |workers| ==> !Finished(workers[w], signals)
  {
    if workers != [] {
      CountBounds(workers[..|workers| - 1], signals);
      assert forall w :: 0 <= w < |workers| - 1 ==> workers[..|workers| - 1][w] == workers[w];
    }
  }

  /** A worker's own step changes the count only when it reports. */
  lemma WorkerStepCounts(cfg: Config, s: State, w: nat, wk: Worker, done: nat)
    requires Shaped(cfg, s) && CounterInv(cfg, s) && w < cfg.workers
    requires s.workers[w].pc != Waiting || s.workers[w].last != s.signals
    requires WorkerInv(wk, s.signals) && SlotInside(wk.pc, |s.hist[w]|)
    requires done == s.done + if Finished(wk, s.signals) then 1 else 0
    ensures CounterInv(cfg, s.(workers := s.workers[w := wk], done := done))
  {
    CountUpdate(s.workers, w, wk, s.signals);
    hide WorkerInv, FinishedCount;
    assert !Finished(s.workers[w], s.signals);
    assert s.coordinator == Awaiting;
  }

  lemma StartKeepsCounter(cfg: Config, s: State, w: nat)
    requires Shaped(cfg, s) && CounterInv(cfg, s) && Enabled(cfg, s, Start(w))
    ensures CounterInv(cfg, Next(cfg, s, Start(w)))
  {
    assert WorkerInv(s.workers[w], s.signals);
    var wk := Worker(AtSlot(0, |s.hist[w]|), s.generation, s.workers[w].runs + [s.signals]);
    assert s.workers[w].last + 1 == s.signals == s.generation;
    WorkerStepCounts(cfg, s, w, wk, s.done);
    assert Next(cfg, s, Start(w)) == s.(workers := s.workers[w := wk], done := s.done);
  }

  lemma PcKeepsWorker(wk: Worker, signals: nat, pc: Pc)
    requires WorkerInv(wk, signals) && wk.pc != Waiting
    ensures WorkerInv(wk.(pc := pc), signals)
  {
  }

  lemma RunKeepsCounter(cfg: Config, s: State, e: Event)
    requires Shaped(cfg, s) && CounterInv(cfg, s) && Enabled(cfg, s, e)
    requires e.Drain? || e.DecimateSlot? || e.Report?
    ensures CounterInv(cfg, Next(cfg, s, e))
  {
    var t := Next(cfg, s, e);
    var wk := s.workers[e.w];
    assert WorkerInv(wk, s.signals);
    PcKeepsWorker(wk, s.signals, t.workers[e.w].pc);
    WorkerStepCounts(cfg, s, e.w, t.workers[e.w], t.done);
    SameCounters(cfg, s.(workers := s.workers[e.w := t.workers[e.w]], done := t.done), t);
  }

  /** The counters do not depend on the histories and results. */
  lemma SameCounters(cfg: Config, s: State, t: State)
    requires Shaped(cfg, s) && Shaped(cfg, t) && CounterInv(cfg, s)
    requires t.workers == s.workers && t.done == s.done && t.coordinator == s.coordinator
    requires t.signals == s.signals && t.generation == s.generation
    ensures CounterInv(cfg, t)
  {
  }

  lemma SignalKeepsCounter(cfg: Config, s: State)
    requires Shaped(cfg, s) && CounterInv(cfg, s) && Enabled(cfg, s, Signal)
    ensures CounterInv(cfg, Next(cfg, s, Signal))
  {
    var t := Next(cfg, s, Signal);
    assert Finished(s.workers[0], s.signals) && WorkerInv(s.workers[0], s.signals);
    assert s.signals < GENERATIONS;
    forall w | 0 <= w < cfg.workers
      ensures WorkerInv(t.workers[w], t.signals) && !Finished(t.workers[w], t.signals)
    {
      assert Finished(s.workers[w], s.signals) && WorkerInv(s.workers[w], s.signals);
    }
    CountBounds(t.workers, t.signals);
  }

  lemma CounterKept(cfg: Config, s: State, e: Event)
    requires Shaped(cfg, s) && CounterInv(cfg, s) && Enabled(cfg, s, e)
    ensures CounterInv(cfg, Next(cfg, s, e))
  {
    match e
    case Signal => SignalKeepsCounter(cfg, s);
    case Collect => CountBounds(s.workers, s.signals);
    case GatherOne =>
    case Publish =>
    case Start(w) => StartKeepsCounter(cfg, s, w);
    case Drain(_, _, _) => RunKeepsCounter(cfg, s, e);
    case DecimateSlot(_) => RunKeepsCounter(cfg, s, e);
    case Report(_) => RunKeepsCounter(cfg, s, e);
  }

  lemma ResultKept(cfg: Config, s: State, e: Event)
    requires Shaped(cfg, s) && ResultInv(cfg, s) && Enabled(cfg, s, e)
    ensures ResultInv(cfg, Next(cfg, s, e))
  {
    hide WorkerResult, Placed, History.Drained;
  }

  lemma DrainKept(cfg: Config, s: State, e: Event)
    requires Shaped(cfg, s) && DrainInv(cfg, s) && Enabled(cfg, s, e)
    ensures DrainInv(cfg, Next(cfg, s, e))
  {
    hide WorkerResult, Placed, History.Drained, History.HistoryAfter;
    if e.Drain? {
      DrainedSlotKept(cfg, s, e.w, e.observed, e.window);
      hide DrainInv, DrainedSlot;
    }
  }

  lemma DrainedSlotKept(cfg: Config, s: State, w: nat, observed: seq<int16>, window: nat)
    requires Shaped(cfg, s) && DrainInv(cfg, s) && Enabled(cfg, s, Drain(w, observed, window))
    ensures DrainInv(cfg, DrainedSlot(cfg, s, w, observed, window))
  {
    var i := s.workers[w].pc.i;
    OneMoreRound(s.rounds[w][i], History.Round(observed, window));
    hide WorkerResult, Placed, History.Drained, History.HistoryAfter;
  }

  lemma OneMoreRound(rounds: seq<History.Round>, r: History.Round)
    ensures History.HistoryAfter(rounds + [r]) == History.Drained(History.HistoryAfter(rounds), r.observed, r.window)
  {
    assert (rounds + [r])[..|rounds|] == rounds;
  }

  /** While results are gathered nobody but the coordinator moves. */
  lemma OnlyCoordinatorMoves(cfg: Config, s: State, e: Event)
    requires Shaped(cfg, s) && CounterInv(cfg, s) && Enabled(cfg, s, e) && s.coordinator.Gathering?
    ensures e == GatherOne || e == Publish
  {
    forall w | 0 <= w < cfg.workers
      ensures s.workers[w].pc == Waiting && s.generation <= s.workers[w].last
    {
      assert WorkerInv(s.workers[w], s.signals) && Finished(s.workers[w], s.signals);
    }
  }

  lemma GatherOneKeeps(cfg: Config, s: State)
    requires Sensible(cfg) && Inv(cfg, s) && Enabled(cfg, s, GatherOne)
    ensures Inv(cfg, Next(cfg, s, GatherOne))
  {
    AllPlaced(cfg);
    CounterKept(cfg, s, GatherOne);
    ResultKept(cfg, s, GatherOne);
    DrainKept(cfg, s, GatherOne);
    var t, ch := Next(cfg, s, GatherOne), s.coordinator.ch;
    assert ch < cfg.channels;
    ResultAtRest(cfg, s, ch);
    SameHistories(cfg, s, t, ch + 1);
    hide IsRoundRobin, CounterInv, ResultInv, DrainInv, Gathered, WorkerResult, Placed;
    GatheredStep(cfg, s, ch);
  }

  /** A parked worker's result fits its history. */
  lemma ResultAtRest(cfg: Config, s: State, ch: nat)
    requires Shaped(cfg, s) && CounterInv(cfg, s) && ResultInv(cfg, s) && s.coordinator.Gathering?
    requires Placed(cfg, ch)
    ensures s.dec[ch % cfg.workers][ch / cfg.workers] == WorkerResult(HistoryOf(cfg, s, ch), cfg.mode, cfg.target)
  {
    hide WorkerResult;
    var w, i := ch % cfg.workers, ch / cfg.workers;
    assert Finished(s.workers[w], s.signals);
    assert s.workers[w].pc != Decimating(i);
    assert 0 <= i < |s.hist[w]|;
    assert s.dec[w][i] == WorkerResult(s.hist[w][i], cfg.mode, cfg.target);
  }

  lemma GatheredStep(cfg: Config, s: State, ch: nat)
    requires Shaped(cfg, s) && forall c :: 0 <= c < ch + 1 ==> Placed(cfg, c)
    ensures Gathered(Histories(cfg, s, ch + 1), cfg.mode, cfg.target) ==
            Gathered(Histories(cfg, s, ch), cfg.mode, cfg.target) +
            GatherPart(WorkerResult(HistoryOf(cfg, s, ch), cfg.mode, cfg.target), cfg.target)
  {
    hide WorkerResult, GatherPart, HistoryOf, Placed;
    assert Histories(cfg, s, ch + 1)[..ch] == Histories(cfg, s, ch);
  }

  lemma {:induction false} SameHistories(cfg: Config, s: State, t: State, m: nat)
    requires Shaped(cfg, s) && Shaped(cfg, t) && s.hist == t.hist && forall ch :: 0 <= ch < m ==> Placed(cfg, ch)
    ensures Histories(cfg, s, m) == Histories(cfg, t, m)
  {
  }

  lemma StepKeeps(cfg: Config, s: State, e: Event)
    requires Sensible(cfg) && Inv(cfg, s) && Enabled(cfg, s, e)
    ensures Inv(cfg, Next(cfg, s, e))
  {
    if e == GatherOne {
      GatherOneKeeps(cfg, s);
    } else {
      AllPlaced(cfg);
      CounterKept(cfg, s, e);
      ResultKept(cfg, s, e);
      DrainKept(cfg, s, e);
      if s.coordinator.Gathering? {
        OnlyCoordinatorMoves(cfg, s, e);
      }
      hide Sensible, CounterInv, ResultInv, DrainInv, Placed, Gathered, IsRoundRobin;
      assert GatherInv(cfg, Next(cfg, s, e));
    }
  }

  lemma InitInv(cfg: Config)
    requires Sensible(cfg)
    ensures Inv(cfg, Init(cfg))
  {
    AllPlaced(cfg);
    RoundRobinShape(cfg.owned, cfg.workers, cfg.channels);
    hide IsRoundRobin;
  }

  lemma {:induction false} AlwaysInv(cfg: Config, es: seq<Event>)
    requires Sensible(cfg)
    ensures Exec(cfg, es).Some? ==> Inv(cfg, Exec(cfg, es).value)
  {
    if es == [] {
      InitInv(cfg);
    } else {
      AlwaysInv(cfg, es[..|es| - 1]);
      match Exec(cfg, es[..|es| - 1])
      case None =>
      case Some(s) =>
        if Enabled(cfg, s, es[|es| - 1]) {
          hide Inv, Enabled, Sensible;
          StepKeeps(cfg, s, es[|es| - 1]);
        }
    }
  }

  // ---- The results ----

  /** In every reachable state each worker has answered signals 1, 2, ... up to the latest or the one before, once. */
  lemma EachGenerationOnce(cfg: Config, es: seq<Event>, w: nat)
    requires Sensible(cfg) && Exec(cfg, es).Some? && w < cfg.workers
    ensures var s := Exec(cfg, es).value; var wk := s.workers[w];
            && (wk.last == s.signals || wk.last + 1 == s.signals)
            && wk.runs == seq(wk.last, k => k + 1)
            && (s.signals < GENERATIONS ==> s.generation == s.signals)
  {
    AlwaysInv(cfg, es);
    var s := Exec(cfg, es).value;
    assert WorkerInv(s.workers[w], s.signals) && CounterInv(cfg, s);
    hide *;
    WorkerHistory(cfg, s, w);
  }

  lemma WorkerHistory(cfg: Config, s: State, w: nat)
    requires Shaped(cfg, s) && CounterInv(cfg, s) && w < cfg.workers
    ensures var wk := s.workers[w];
            && (wk.last == s.signals || wk.last + 1 == s.signals)
            && wk.runs == seq(wk.last, k => k + 1)
            && (s.signals < GENERATIONS ==> s.generation == s.signals)
  {
    hide FinishedCount, Finished;
    assert WorkerInv(s.workers[w], s.signals);
  }

  /** While the coordinator gathers, every worker is parked: none can write a history or a result. */
  lemma NoRaceWhileGathering(cfg: Config, es: seq<Event>)
    requires Sensible(cfg) && Exec(cfg, es).Some?
    ensures var s := Exec(cfg, es).value;
            s.coordinator.Gathering? ==>
              && (forall w :: 0 <= w < cfg.workers ==> s.workers[w].pc == Waiting)
              && forall e :: Enabled(cfg, s, e) ==> Next(cfg, s, e).hist == s.hist && Next(cfg, s, e).dec == s.dec
  {
    AlwaysInv(cfg, es);
    var s := Exec(cfg, es).value;
    hide Exec;
    if s.coordinator.Gathering? {
      forall e | Enabled(cfg, s, e)
        ensures Next(cfg, s, e).hist == s.hist && Next(cfg, s, e).dec == s.dec
      {
        OnlyCoordinatorMoves(cfg, s, e);
      }
      forall w | 0 <= w < cfg.workers
        ensures s.workers[w].pc == Waiting
      {
        assert Finished(s.workers[w], s.signals);
      }
    }
  }

  /**
   * When a cycle is published, the buffer is what one thread would have built from the same
   * histories, exactly when the target is zero, is enough for the mode, or nothing was recorded yet.
   */
  lemma PublishedIsSinglePass(cfg: Config, es: seq<Event>)
    requires Sensible(cfg) && Exec(cfg, es).Some? && Enabled(cfg, Exec(cfg, es).value, Publish)
    ensures (AllPlaced(cfg); var s := Exec(cfg, es).value; var hs := Histories(cfg, s, cfg.channels);
             s.coordinator.out == SinglePass(hs, cfg.mode, cfg.target) <==>
             cfg.target == 0 || cfg.target >= LeastTarget(cfg.mode) || forall ch :: 0 <= ch < |hs| ==> hs[ch] == [])
  {
    AllPlaced(cfg);
    AlwaysInv(cfg, es);
    var s := Exec(cfg, es).value;
    hide Exec;
    GatherEqualsSinglePass(Histories(cfg, s, cfg.channels), cfg.mode, cfg.target);
  }

  /** What the drains of channel ch have taken from its ring, one round per drain. */
  ghost function RoundsOf(cfg: Config, s: State, ch: nat): seq<History.Round>
    requires Shaped(cfg, s) && Placed(cfg, ch)
  {
    s.rounds[ch % cfg.workers][ch / cfg.workers]
  }

  /**
   * The published buffer in terms of what the rings delivered: it is gathered from one history per
   * channel, a gap-free suffix of everything consumed from the channel's ring, and with a constant
   * positive window exactly its newest window.
   */
  lemma PublishedFromStreams(cfg: Config, es: seq<Event>, ch: nat)
    requires Sensible(cfg) && Exec(cfg, es).Some? && Enabled(cfg, Exec(cfg, es).value, Publish) && ch < cfg.channels
    ensures (AllPlaced(cfg); var s := Exec(cfg, es).value; var hs := Histories(cfg, s, cfg.channels);
             && s.coordinator.out == Gathered(hs, cfg.mode, cfg.target)
             && History.ComesFrom(hs[ch], RoundsOf(cfg, s, ch)))
  {
    AllPlaced(cfg);
    AlwaysInv(cfg, es);
    var s := Exec(cfg, es).value;
    assert Placed(cfg, ch);
    HistoryIsDrained(cfg, s, ch);
    hide Exec, Gathered, CounterInv, ResultInv, DrainInv, IsRoundRobin, History.ComesFrom, RoundsOf, HistoryOf;
  }

  /** At one rate and span, the buffer is gathered from exactly the newest samples that the span asks for. */
  lemma PublishedAtSpan(cfg: Config, es: seq<Event>, ch: nat, sampleRate: real, timeSpan: real, maxSamples: nat)
    returns (n: nat)
    requires Sensible(cfg) && Exec(cfg, es).Some? && Enabled(cfg, Exec(cfg, es).value, Publish) && ch < cfg.channels
    requires Placed(cfg, ch) && History.AtSpan(RoundsOf(cfg, Exec(cfg, es).value, ch), sampleRate, timeSpan, maxSamples)
    ensures History.IsWindow(n, sampleRate, timeSpan, maxSamples)
    ensures (AllPlaced(cfg); var s := Exec(cfg, es).value; var hs := Histories(cfg, s, cfg.channels);
             var all := History.Consumed(RoundsOf(cfg, s, ch));
             && s.coordinator.out == Gathered(hs, cfg.mode, cfg.target)
             && hs[ch] == if 0 < n < |all| then all[|all| - n..] else all)
  {
    hide Exec, Gathered, IsRoundRobin, History.ComesFrom, RoundsOf, HistoryOf, History.IsWindow, Enabled, Sensible;
    hide History.AtSpan, Placed;
    AllPlaced(cfg);
    PublishedFromStreams(cfg, es, ch);
    var s := Exec(cfg, es).value;
    n := History.SpanHistory(Histories(cfg, s, cfg.channels)[ch], RoundsOf(cfg, s, ch), sampleRate, timeSpan,
                             maxSamples);
  }

  lemma HistoryIsDrained(cfg: Config, s: State, ch: nat)
    requires Shaped(cfg, s) && DrainInv(cfg, s) && Placed(cfg, ch)
    ensures History.ComesFrom(HistoryOf(cfg, s, ch), RoundsOf(cfg, s, ch))
  {
    assert 0 <= ch % cfg.workers < cfg.workers;
    History.DrainedHistory(RoundsOf(cfg, s, ch));
    hide History.ComesFrom;
  }

  /**
   * A cycle in progress can move on exactly when the counter has not wrapped to zero: signal number
   * 2^32 makes the generation 0, which no waiting worker takes for new work.
   */
  lemma CycleProgresses(cfg: Config, es: seq<Event>)
    requires Sensible(cfg) && Exec(cfg, es).Some? && Exec(cfg, es).value.coordinator == Awaiting
    ensures var s := Exec(cfg, es).value; (exists e :: Enabled(cfg, s, e)) <==> s.generation != 0
  {
    AlwaysInv(cfg, es);
    var s := Exec(cfg, es).value;
    hide Exec;
    if s.generation != 0 {
      var e := SomeStep(cfg, s);
    } else {
      Wrapped(cfg, s);
    }
  }

  lemma SomeStep(cfg: Config, s: State) returns (e: Event)
    requires Sensible(cfg) && Inv(cfg, s) && s.coordinator == Awaiting && s.generation != 0
    ensures Enabled(cfg, s, e)
  {
    hide Sensible, ResultInv, GatherInv;
    CountBounds(s.workers, s.signals);
    if s.done >= cfg.workers {
      e := Collect;
    } else {
      var w :| 0 <= w < cfg.workers && !Finished(s.workers[w], s.signals);
      assert WorkerInv(s.workers[w], s.signals);
      match s.workers[w].pc
      case Waiting => e := Start(w);
      case Draining(_) => e := Drain(w, [], 0);
      case Decimating(_) => e := DecimateSlot(w);
      case Reporting => e := Report(w);
    }
  }

  lemma Wrapped(cfg: Config, s: State)
    requires Sensible(cfg) && Inv(cfg, s) && s.coordinator == Awaiting && s.generation == 0
    ensures forall e :: !Enabled(cfg, s, e)
  {
    hide Sensible, ResultInv, GatherInv;
    CountBounds(s.workers, s.signals);
    forall w | 0 <= w < cfg.workers
      ensures s.workers[w].pc == Waiting && !Finished(s.workers[w], s.signals)
    {
      assert WorkerInv(s.workers[w], s.signals);
    }
  }
}
