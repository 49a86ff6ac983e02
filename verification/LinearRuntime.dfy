/**
 * LinearRuntime: one worker thread per stage, one bounded queue behind each stage, a polling main
 * thread and a stop sequence, interleaved in every possible way.
 */
module LinearRuntime {
  import opened Frames
  import opened InProcessQueue
  import opened Subsequence

  datatype StageEntry = StageEntry(queueCapacity: nat, policy: Policy)

  /**
   * stages[i] and the transducer `transform`: transform(i, inputs) is what stage i emits in the
   * call that takes the last of `inputs`, having taken the earlier ones before it. Stage 0 is the
   * source, whose output is not determined by any input.
   */
  datatype Config = Config(wiring: seq<StageEntry>, transform: (nat, seq<Frame>) -> seq<Frame>)

  predicate Sensible(cfg: Config)
  {
    cfg.wiring != [] && forall i :: 0 <= i < |cfg.wiring| ==> cfg.wiring[i].queueCapacity > 0
  }

  /** start(): the queue behind stage i is configured by stage i+1, the last one by its own stage. */
  method Wire(entries: seq<StageEntry>) returns (wiring: seq<StageEntry>)
    ensures |wiring| == |entries|
    ensures forall i :: 0 <= i < |entries| ==>
      var e := entries[if i + 1 < |entries| then i + 1 else i];
      wiring[i] == StageEntry(if e.queueCapacity > 0 then e.queueCapacity else 1, e.policy)
    ensures entries != [] ==> forall f :: Sensible(Config(wiring, f))
  {
    wiring := [];
    var n := |entries|;
    for i := 0 to n
      invariant |wiring| == i
      invariant forall j :: 0 <= j < i ==> wiring[j] == Effective(entries[if j + 1 < n then j + 1 else j])
    {
      var cap, pol := entries[i].queueCapacity, entries[i].policy;
      if i + 1 < n {
        cap, pol := entries[i + 1].queueCapacity, entries[i + 1].policy;
      }
      wiring := wiring + [Effective(StageEntry(cap, pol))];
    }
  }

  /** The queue's constructor raises a zero capacity to one. */
  function Effective(e: StageEntry): StageEntry
  {
    e.(queueCapacity := if e.queueCapacity > 0 then e.queueCapacity else 1)
  }

  /** Where a worker is in its loop. */
  datatype Worker =
    | AtTop      // about to test the stop flag
    | Admitted   // the test passed, nothing dequeued yet
    | Processing // inside process()
    | Emitting(rest: seq<Frame>, exiting: bool, sleep: Sleep) // enqueueing what process() returned
    | Exited

  /** A worker inside enqueue is awake, waiting on the queue's condition variable, or notified but not running yet. */
  datatype Sleep = Awake | Asleep | Notified

  /** A queue with the record of what was offered to it, taken from it and lost at it. */
  datatype Link = Link(q: Contents, offered: seq<Frame>, taken: seq<Frame>, lost: seq<Frame>)

  datatype State = State(stop: bool, links: seq<Link>, workers: seq<Worker>, sourced: seq<Frame>)

  datatype Event =
    | TestStop(w: nat)
    | TakeInput(w: nat)
    | ProcessReturns(w: nat, outs: seq<Frame>, exiting: bool)
    | EnqueueOne(w: nat)
    | FinishIteration(w: nat)
    | WakeSpuriously(w: nat)
    | Poll
    | RaiseStop
    | ShutdownQueue(i: nat)  // the locked half of shutdown()
    | NotifyQueue(i: nat)    // its notify_all

  function Init(cfg: Config): State
  {
    State(false, seq(|cfg.wiring|, _ => Link(EMPTY, [], [], [])), seq(|cfg.wiring|, _ => AtTop), [])
  }

  predicate WellShaped(cfg: Config, s: State)
  {
    |s.links| == |s.workers| == |cfg.wiring|
  }

  predicate IsAsleep(pc: Worker)
  {
    pc.Emitting? && pc.sleep == Asleep
  }

  predicate Enabled(cfg: Config, s: State, e: Event)
    requires Sensible(cfg) && WellShaped(cfg, s)
  {
    var n := |s.workers|;
    match e
    case TestStop(w) => w < n && s.workers[w] == AtTop
    case TakeInput(w) => w < n && s.workers[w] == Admitted
    case ProcessReturns(w, outs, _) =>
      w < n && s.workers[w] == Processing && (w > 0 ==> outs == cfg.transform(w, s.links[w - 1].taken))
    case EnqueueOne(w) =>
      w < n && s.workers[w].Emitting? && s.workers[w].rest != [] && s.workers[w].sleep != Asleep
    case WakeSpuriously(w) => w < n && IsAsleep(s.workers[w])
    case FinishIteration(w) => w < n && s.workers[w].Emitting? && s.workers[w].rest == []
    case Poll => s.links[n - 1].q.items != []
    case RaiseStop => true
    case ShutdownQueue(i) => s.stop && i < n
    case NotifyQueue(i) => i < n && s.links[i].q.shutdown
  }

  function Taken(l: Link): Link
    requires l.q.items != []
  {
    l.(q := l.q.(items := l.q.items[1..]), taken := l.taken + [l.q.items[0]])
  }

  /** One locked section of enqueue: from its start, or from where the producer slept. */
  function Attempt(q: Contents, entry: StageEntry, x: Frame, slept: bool): (Contents, Outcome)
    requires entry.queueCapacity > 0
  {
    if slept then Resume(q, entry.queueCapacity, x) else Offer(q, entry.queueCapacity, entry.policy, x)
  }

  /** The link after an enqueue call has returned. */
  function Offered(l: Link, entry: StageEntry, x: Frame, slept: bool): Link
    requires entry.queueCapacity > 0
  {
    var (q, outcome) := Attempt(l.q, entry, x, slept);
    var gone :=
      if outcome == Refused then [x]
      else if slept then []
      else Evicted(l.q, entry.queueCapacity, entry.policy);
    l.(q := q, offered := l.offered + [x], lost := l.lost + gone)
  }

  function SetWorker(s: State, w: nat, pc: Worker): State
    requires w < |s.workers|
  {
    s.(workers := s.workers[w := pc])
  }

  function Woken(pc: Worker): Worker
  {
    if IsAsleep(pc) then pc.(sleep := Notified) else pc
  }

  /** The front of queue i is taken; with the Block policy the worker that feeds it is notified. */
  function Dequeued(cfg: Config, s: State, i: nat): State
    requires WellShaped(cfg, s) && i < |s.links| && s.links[i].q.items != []
  {
    var t := s.(links := s.links[i := Taken(s.links[i])]);
    if cfg.wiring[i].policy == Block then SetWorker(t, i, Woken(s.workers[i])) else t
  }

  function Next(cfg: Config, s: State, e: Event): (t: State)
    requires Sensible(cfg) && WellShaped(cfg, s) && Enabled(cfg, s, e)
    ensures WellShaped(cfg, t)
  {
    match e
    case TestStop(w) => SetWorker(s, w, if s.stop then Exited else Admitted)
    case TakeInput(w) =>
      if w == 0 then SetWorker(s, w, Processing)
      else if s.links[w - 1].q.items == [] then SetWorker(s, w, if s.stop then Exited else AtTop)
      else SetWorker(Dequeued(cfg, s, w - 1), w, Processing)
    case ProcessReturns(w, outs, exiting) =>
      SetWorker(if w == 0 then s.(sourced := s.sourced + outs) else s, w, Emitting(outs, exiting, Awake))
    case EnqueueOne(w) =>
      var pc, l := s.workers[w], s.links[w];
      var slept := pc.sleep == Notified;
      if Attempt(l.q, cfg.wiring[w], pc.rest[0], slept).1 == MustWait then SetWorker(s, w, pc.(sleep := Asleep))
      else SetWorker(s.(links := s.links[w := Offered(l, cfg.wiring[w], pc.rest[0], slept)]), w,
                     pc.(rest := pc.rest[1..], sleep := Awake))
    case FinishIteration(w) => SetWorker(s, w, if s.workers[w].exiting then Exited else AtTop)
    case WakeSpuriously(w) => SetWorker(s, w, Woken(s.workers[w]))
    case Poll => Dequeued(cfg, s, |s.links| - 1)
    case RaiseStop => s.(stop := true)
    case ShutdownQueue(i) => s.(links := s.links[i := s.links[i].(q := s.links[i].q.(shutdown := true))])
    case NotifyQueue(i) => SetWorker(s, i, Woken(s.workers[i]))
  }

  function Exec(cfg: Config, es: seq<Event>): (r: Option<State>)
    requires Sensible(cfg)
    ensures r.Some? ==> WellShaped(cfg, r.value)
  {
    if es == [] then Some(Init(cfg))
    else
      match Exec(cfg, es[..|es| - 1])
      case None => None
      case Some(s) => if Enabled(cfg, s, es[|es| - 1]) then Some(Next(cfg, s, es[|es| - 1])) else None
  }

  /** All frames that the main thread has polled. */
  function Polled(s: State): seq<Frame>
    requires s.links != []
  {
    s.links[|s.links| - 1].taken
  }

  // ---- What stages emit over a whole stream ----

  /** Everything stage i emits while taking xs one by one. */
  function Emitted(cfg: Config, i: nat, xs: seq<Frame>): seq<Frame>
  {
    if xs == [] then [] else Emitted(cfg, i, xs[..|xs| - 1]) + cfg.transform(i, xs)
  }

  /** What would reach queue i if nothing were ever lost: the composed stages applied to the source. */
  function Composed(cfg: Config, i: nat, sourced: seq<Frame>): seq<Frame>
  {
    if i == 0 then sourced else Emitted(cfg, i, Composed(cfg, i - 1, sourced))
  }

  /** No stage but the source remembers earlier frames. */
  ghost predicate Memoryless(cfg: Config)
  {
    forall i: nat, xs: seq<Frame>, ys: seq<Frame> ::
      xs != [] && ys != [] && xs[|xs| - 1] == ys[|ys| - 1] ==> cfg.transform(i, xs) == cfg.transform(i, ys)
  }

  // ---- The invariant, one link and one worker at a time ----

  function Pending(pc: Worker): seq<Frame>
  {
    if pc.Emitting? then pc.rest else []
  }

  /** The inputs whose processing has returned. */
  function Completed(pc: Worker, taken: seq<Frame>): seq<Frame>
  {
    if pc == Processing && taken != [] then taken[..|taken| - 1] else taken
  }

  ghost predicate LinkInv(l: Link, entry: StageEntry)
  {
    && |l.q.items| <= entry.queueCapacity
    && Subseq(l.taken + l.q.items, l.offered)
    && multiset(l.offered) == multiset(l.taken) + multiset(l.q.items) + multiset(l.lost)
    && (l.lost == [] ==> l.offered == l.taken + l.q.items)
    && (entry.policy == Block && !l.q.shutdown ==> l.lost == [])
  }

  /** What stage i has offered and still holds is exactly what it emitted for its completed inputs. */
  ghost predicate StageInv(cfg: Config, s: State, i: nat)
    requires WellShaped(cfg, s) && i < |s.links|
  {
    if i == 0 then s.links[0].offered + Pending(s.workers[0]) == s.sourced
    else
      && (s.workers[i] == Processing ==> s.links[i - 1].taken != [])
      && s.links[i].offered + Pending(s.workers[i]) ==
         Emitted(cfg, i, Completed(s.workers[i], s.links[i - 1].taken))
  }

  ghost predicate Inv(cfg: Config, s: State)
  {
    && WellShaped(cfg, s)
    && (forall i :: 0 <= i < |s.links| ==> LinkInv(s.links[i], cfg.wiring[i]))
    && (forall i :: 0 <= i < |s.links| ==> StageInv(cfg, s, i))
  }

  lemma TakenKeeps(l: Link, entry: StageEntry)
    requires l.q.items != [] && LinkInv(l, entry)
    ensures LinkInv(Taken(l), entry)
  {
    assert l.q.items == [l.q.items[0]] + l.q.items[1..];
    assert l.taken + l.q.items == Taken(l).taken + Taken(l).q.items;
    assert multiset(l.q.items) == multiset{l.q.items[0]} + multiset(l.q.items[1..]);
  }

  lemma OfferedKeeps(l: Link, entry: StageEntry, x: Frame, slept: bool)
    requires entry.queueCapacity > 0 && LinkInv(l, entry)
    requires Attempt(l.q, entry, x, slept).1 != MustWait
    ensures LinkInv(Offered(l, entry, x, slept), entry)
  {
    var t := Offered(l, entry, x, slept);
    var kept := l.taken + l.q.items;
    hide Subseq, LinkInv;
    assert Subseq(kept, l.offered) && |l.q.items| <= entry.queueCapacity by { LinkFacts(l, entry); }
    if Attempt(l.q, entry, x, slept).1 == Refused {
      Skip(kept, l.offered, x);
      RefusedOffer(l, entry, x, t);
    } else if |l.q.items| < entry.queueCapacity {
      Both(kept, l.offered, x);
      PlainOffer(l, entry, x, t);
    } else {
      EvictingOffer(l, entry, x, t);
    }
  }

  lemma LinkFacts(l: Link, entry: StageEntry)
    requires LinkInv(l, entry)
    ensures Subseq(l.taken + l.q.items, l.offered) && |l.q.items| <= entry.queueCapacity
  {
  }

  lemma PlainOffer(l: Link, entry: StageEntry, x: Frame, t: Link)
    requires LinkInv(l, entry) && |l.q.items| < entry.queueCapacity
    requires t.q.items == l.q.items + [x] && t.taken == l.taken && t.offered == l.offered + [x]
    requires t.q.shutdown == l.q.shutdown && t.lost == l.lost + []
    requires Subseq((l.taken + l.q.items) + [x], t.offered)
    ensures LinkInv(t, entry)
  {
    hide Subseq;
    assert t.lost == l.lost;
    assert t.taken + t.q.items == (l.taken + l.q.items) + [x];
  }

  lemma RefusedOffer(l: Link, entry: StageEntry, x: Frame, t: Link)
    requires LinkInv(l, entry)
    requires t.q.items == l.q.items && t.taken == l.taken && t.offered == l.offered + [x]
    requires t.lost == l.lost + [x] && (entry.policy == Block ==> t.q.shutdown)
    requires Subseq(l.taken + l.q.items, t.offered)
    ensures LinkInv(t, entry)
  {
    hide Subseq;
  }

  lemma EvictingOffer(l: Link, entry: StageEntry, x: Frame, t: Link)
    requires LinkInv(l, entry) && l.q.items != [] && entry.policy == DropOldest
    requires t.q.items == l.q.items[1..] + [x] && t.taken == l.taken && t.offered == l.offered + [x]
    requires t.lost == l.lost + [l.q.items[0]]
    ensures LinkInv(t, entry)
  {
    hide Subseq;
    var first, others := l.q.items[0], l.q.items[1..];
    assert l.q.items == [first] + others;
    EvictingOrder(l, t, x, first, others);
    EvictingBalance(l, t, x, first, others);
  }

  lemma EvictingOrder(l: Link, t: Link, x: Frame, first: Frame, others: seq<Frame>)
    requires l.q.items == [first] + others && t.q.items == others + [x]
    requires t.taken == l.taken && t.offered == l.offered + [x] && Subseq(l.taken + l.q.items, l.offered)
    ensures Subseq(t.taken + t.q.items, t.offered)
  {
    hide Subseq;
    assert l.taken + l.q.items == l.taken + [first] + others;
    RemoveOne(l.taken, first, others);
    Trans(l.taken + others, l.taken + l.q.items, l.offered);
    Both(l.taken + others, l.offered, x);
    assert t.taken + t.q.items == (l.taken + others) + [x];
  }

  lemma EvictingBalance(l: Link, t: Link, x: Frame, first: Frame, others: seq<Frame>)
    requires l.q.items == [first] + others && t.q.items == others + [x]
    requires t.offered == l.offered + [x] && t.lost == l.lost + [first] && t.taken == l.taken
    requires multiset(l.offered) == multiset(l.taken) + multiset(l.q.items) + multiset(l.lost)
    ensures multiset(t.offered) == multiset(t.taken) + multiset(t.q.items) + multiset(t.lost)
  {
    assert multiset(l.q.items) == multiset{first} + multiset(others);
    assert multiset(t.q.items) == multiset(others) + multiset{x};
    assert multiset(t.lost) == multiset(l.lost) + multiset{first};
  }

  /** One step keeps every link's account. */
  lemma LinksKept(cfg: Config, s: State, e: Event)
    requires Sensible(cfg) && Inv(cfg, s) && Enabled(cfg, s, e)
    ensures var t := Next(cfg, s, e); forall i :: 0 <= i < |t.links| ==> LinkInv(t.links[i], cfg.wiring[i])
  {
    hide Subseq, LinkInv, StageInv, Offered, Taken, Attempt, Woken;
    match e
    case TakeInput(w) =>
      if w > 0 && s.links[w - 1].q.items != [] {
        TakenKeeps(s.links[w - 1], cfg.wiring[w - 1]);
      }
    case Poll => TakenKeeps(s.links[|s.links| - 1], cfg.wiring[|s.links| - 1]);
    case EnqueueOne(w) =>
      var pc := s.workers[w];
      if Attempt(s.links[w].q, cfg.wiring[w], pc.rest[0], pc.sleep == Notified).1 != MustWait {
        OfferedKeeps(s.links[w], cfg.wiring[w], pc.rest[0], pc.sleep == Notified);
      }
    case ShutdownQueue(i) => ShutdownKeeps(s.links[i], cfg.wiring[i]);
    case TestStop(_) =>
    case ProcessReturns(_, _, _) =>
    case FinishIteration(_) =>
    case WakeSpuriously(_) =>
    case RaiseStop =>
    case NotifyQueue(_) =>
  }

  lemma ShutdownKeeps(l: Link, entry: StageEntry)
    requires LinkInv(l, entry)
    ensures LinkInv(l.(q := l.q.(shutdown := true)), entry)
  {
  }

  /** A stage's account depends on few parts of the state. */
  lemma StageCongruence(cfg: Config, s: State, t: State, i: nat)
    requires WellShaped(cfg, s) && WellShaped(cfg, t) && i < |s.links| && StageInv(cfg, s, i)
    requires t.links[i].offered + Pending(t.workers[i]) == s.links[i].offered + Pending(s.workers[i])
    requires i == 0 ==> t.sourced == s.sourced
    requires i > 0 ==>
      Completed(t.workers[i], t.links[i - 1].taken) == Completed(s.workers[i], s.links[i - 1].taken)
    requires i > 0 && t.workers[i] == Processing ==> t.links[i - 1].taken != []
    ensures StageInv(cfg, t, i)
  {
  }

  lemma ReturnKeepsStage(cfg: Config, s: State, w: nat, outs: seq<Frame>, exiting: bool)
    requires Sensible(cfg) && WellShaped(cfg, s) && Enabled(cfg, s, ProcessReturns(w, outs, exiting))
    requires StageInv(cfg, s, w)
    ensures StageInv(cfg, Next(cfg, s, ProcessReturns(w, outs, exiting)), w)
  {
    assert s.links[w].offered + [] == s.links[w].offered;
    if w > 0 {
      var xs := s.links[w - 1].taken;
      assert Emitted(cfg, w, xs) == Emitted(cfg, w, xs[..|xs| - 1]) + outs;
    }
  }

  /** One step keeps every stage's account. */
  lemma StagesKept(cfg: Config, s: State, e: Event, i: nat)
    requires Sensible(cfg) && Inv(cfg, s) && Enabled(cfg, s, e) && i < |s.links|
    ensures StageInv(cfg, Next(cfg, s, e), i)
  {
    assert StageInv(cfg, s, i);
    hide LinkInv, StageInv, Next, Emitted;
    match e
    case TakeInput(w) => InputKeepsStage(cfg, s, w, i);
    case EnqueueOne(w) => EmitKeepsStage(cfg, s, w, i);
    case ProcessReturns(w, outs, exiting) =>
      if w == i {
        ReturnKeepsStage(cfg, s, w, outs, exiting);
      } else {
        OtherKeepsStage(cfg, s, e, i);
      }
    case TestStop(_) => OtherKeepsStage(cfg, s, e, i);
    case FinishIteration(_) => OtherKeepsStage(cfg, s, e, i);
    case WakeSpuriously(_) => OtherKeepsStage(cfg, s, e, i);
    case NotifyQueue(_) => OtherKeepsStage(cfg, s, e, i);
    case Poll => OtherKeepsStage(cfg, s, e, i);
    case RaiseStop => OtherKeepsStage(cfg, s, e, i);
    case ShutdownQueue(_) => OtherKeepsStage(cfg, s, e, i);
  }

  /** Events that neither take stage i's input, return from its process(), nor emit for anyone. */
  lemma OtherKeepsStage(cfg: Config, s: State, e: Event, i: nat)
    requires Sensible(cfg) && WellShaped(cfg, s) && Enabled(cfg, s, e) && i < |s.links| && StageInv(cfg, s, i)
    requires !e.TakeInput? && !e.EnqueueOne? && (e.ProcessReturns? ==> e.w != i)
    ensures StageInv(cfg, Next(cfg, s, e), i)
  {
    ProcessingHasInput(cfg, s, i);
    OtherLeavesStage(cfg, s, e, i);
    hide *;
    StageCongruence(cfg, s, Next(cfg, s, e), i);
  }

  lemma ProcessingHasInput(cfg: Config, s: State, i: nat)
    requires WellShaped(cfg, s) && i < |s.links| && StageInv(cfg, s, i)
    ensures i > 0 && s.workers[i] == Processing ==> s.links[i - 1].taken != []
  {
  }

  lemma OtherLeavesStage(cfg: Config, s: State, e: Event, i: nat)
    requires Sensible(cfg) && WellShaped(cfg, s) && Enabled(cfg, s, e) && i < |s.links|
    requires !e.TakeInput? && !e.EnqueueOne? && (e.ProcessReturns? ==> e.w != i)
    requires i > 0 && s.workers[i] == Processing ==> s.links[i - 1].taken != []
    ensures var t := Next(cfg, s, e);
            && WellShaped(cfg, t)
            && t.links[i].offered == s.links[i].offered && Pending(t.workers[i]) == Pending(s.workers[i])
            && (i == 0 ==> t.sourced == s.sourced)
            && (i > 0 ==> Completed(t.workers[i], t.links[i - 1].taken) ==
                          Completed(s.workers[i], s.links[i - 1].taken))
            && (i > 0 && t.workers[i] == Processing ==> t.links[i - 1].taken != [])
  {
    hide Offered, Attempt;
  }

  lemma EmitKeepsStage(cfg: Config, s: State, w: nat, i: nat)
    requires Sensible(cfg) && WellShaped(cfg, s) && Enabled(cfg, s, EnqueueOne(w)) && i < |s.links|
    requires StageInv(cfg, s, i)
    ensures StageInv(cfg, Next(cfg, s, EnqueueOne(w)), i)
  {
    ProcessingHasInput(cfg, s, i);
    EmitLeavesStage(cfg, s, w, i);
    hide *;
    StageCongruence(cfg, s, Next(cfg, s, EnqueueOne(w)), i);
  }

  /** The frame that an enqueue call settles moves from pending to offered. */
  lemma EmitLeavesStage(cfg: Config, s: State, w: nat, i: nat)
    requires Sensible(cfg) && WellShaped(cfg, s) && Enabled(cfg, s, EnqueueOne(w)) && i < |s.links|
    requires i > 0 && s.workers[i] == Processing ==> s.links[i - 1].taken != []
    ensures var t := Next(cfg, s, EnqueueOne(w));
            && WellShaped(cfg, t)
            && t.links[i].offered + Pending(t.workers[i]) == s.links[i].offered + Pending(s.workers[i])
            && (i == 0 ==> t.sourced == s.sourced)
            && (i > 0 ==> Completed(t.workers[i], t.links[i - 1].taken) ==
                          Completed(s.workers[i], s.links[i - 1].taken))
            && (i > 0 && t.workers[i] == Processing ==> t.links[i - 1].taken != [])
  {
    hide Evicted, Attempt;
    OneMoreOffered(s.links[w].offered, s.workers[w].rest);
  }

  lemma OneMoreOffered(offered: seq<Frame>, rest: seq<Frame>)
    requires rest != []
    ensures offered + rest == (offered + [rest[0]]) + rest[1..]
  {
  }

  lemma InputKeepsStage(cfg: Config, s: State, w: nat, i: nat)
    requires Sensible(cfg) && WellShaped(cfg, s) && Enabled(cfg, s, TakeInput(w)) && i < |s.links|
    requires StageInv(cfg, s, i)
    ensures StageInv(cfg, Next(cfg, s, TakeInput(w)), i)
  {
    ProcessingHasInput(cfg, s, i);
    InputLeavesStage(cfg, s, w, i);
    hide *;
    StageCongruence(cfg, s, Next(cfg, s, TakeInput(w)), i);
  }

  /** The frame that a worker takes is not completed yet. */
  lemma InputLeavesStage(cfg: Config, s: State, w: nat, i: nat)
    requires Sensible(cfg) && WellShaped(cfg, s) && Enabled(cfg, s, TakeInput(w)) && i < |s.links|
    requires i > 0 && s.workers[i] == Processing ==> s.links[i - 1].taken != []
    ensures var t := Next(cfg, s, TakeInput(w));
            && WellShaped(cfg, t)
            && t.links[i].offered == s.links[i].offered && Pending(t.workers[i]) == Pending(s.workers[i])
            && (i == 0 ==> t.sourced == s.sourced)
            && (i > 0 ==> Completed(t.workers[i], t.links[i - 1].taken) ==
                          Completed(s.workers[i], s.links[i - 1].taken))
            && (i > 0 && t.workers[i] == Processing ==> t.links[i - 1].taken != [])
  {
    if w > 0 && s.links[w - 1].q.items != [] {
      LastNotCompleted(s.links[w - 1].taken, s.links[w - 1].q.items[0]);
    }
    hide Completed;
  }

  lemma LastNotCompleted(taken: seq<Frame>, x: Frame)
    ensures Completed(Processing, taken + [x]) == taken
    ensures forall pc: Worker :: pc != Processing ==> Completed(pc, taken) == taken
  {
    assert (taken + [x])[..|taken|] == taken;
  }

  lemma {:induction false} AlwaysInv(cfg: Config, es: seq<Event>)
    requires Sensible(cfg)
    ensures Exec(cfg, es).Some? ==> Inv(cfg, Exec(cfg, es).value)
  {
    if es == [] {
      assert forall i :: 0 <= i < |cfg.wiring| ==> StageInv(cfg, Init(cfg), i);
    } else {
      AlwaysInv(cfg, es[..|es| - 1]);
      match Exec(cfg, es[..|es| - 1])
      case None =>
      case Some(s) =>
        var e := es[|es| - 1];
        if Enabled(cfg, s, e) {
          hide Next, Enabled, LinkInv, StageInv;
          LinksKept(cfg, s, e);
          forall i | 0 <= i < |s.links|
            ensures StageInv(cfg, Next(cfg, s, e), i)
          {
            StagesKept(cfg, s, e, i);
          }
        }
    }
  }
}
