/**
 * Any number of producers on one InProcessQueue, with sleeping, notification, spurious wake-ups
 * and shutdown: no wake-up is lost, and each policy keeps its own conservation law.
 */
module QueueWaiting {
  import opened Frames
  import opened InProcessQueue

  /** Where a producer is: outside enqueue, asleep, or awake again but not yet holding the lock. */
  datatype Producer = Outside | Asleep(item: Frame) | Notified(item: Frame) | Spurious(item: Frame)

  /** The queue, its producers, and the history of every frame that was ever offered. */
  datatype State = State(
    q: Contents,
    producers: seq<Producer>,
    notifyAllDue: bool,        // shutdown_ is set but notify_all has not been called yet
    offered: seq<Frame>,
    accepted: seq<Frame>,
    refused: seq<Frame>,
    evicted: seq<Frame>,
    taken: seq<Frame>)

  datatype Event =
    | Enter(p: nat, x: Frame)
    | Wake(p: nat)              // a spurious wake-up
    | Reacquire(p: nat)
    | Take(wakes: Option<nat>)  // dequeue, with the producer its notify_one reaches
    | SetShutdown
    | NotifyAll

  datatype Config = Config(capacity: nat, policy: Policy, producers: nat)

  predicate Sensible(cfg: Config) { cfg.capacity > 0 }

  function Init(cfg: Config): State
  {
    State(EMPTY, seq(cfg.producers, _ => Outside), false, [], [], [], [], [])
  }

  predicate AnyAsleep(s: State)
  {
    exists p :: 0 <= p < |s.producers| && s.producers[p].Asleep?
  }

  predicate Enabled(cfg: Config, s: State, e: Event)
  {
    match e
    case Enter(p, _) => p < |s.producers| && s.producers[p].Outside?
    case Wake(p) => p < |s.producers| && s.producers[p].Asleep?
    case Reacquire(p) => p < |s.producers| && (s.producers[p].Notified? || s.producers[p].Spurious?)
    case Take(wakes) =>
      && s.q.items != []
      && (wakes.Some? ==> cfg.policy == Block && wakes.value < |s.producers| && s.producers[wakes.value].Asleep?)
      && (wakes.None? ==> cfg.policy != Block || !AnyAsleep(s))
    case SetShutdown => true
    case NotifyAll => s.notifyAllDue
  }

  /** Record how one producer's attempt ended. */
  function Finish(s: State, p: nat, q: Contents, outcome: Outcome, x: Frame, out: seq<Frame>): State
    requires p < |s.producers|
  {
    var t := s.(q := q, evicted := s.evicted + out);
    match outcome
    case Accepted => t.(accepted := s.accepted + [x], producers := s.producers[p := Outside])
    case Refused => t.(refused := s.refused + [x], producers := s.producers[p := Outside])
    case MustWait => t.(producers := s.producers[p := Asleep(x)])
  }

  function NotifyOne(pr: Producer): Producer
  {
    if pr.Asleep? then Notified(pr.item) else pr
  }

  function NotifyEach(ps: seq<Producer>): (r: seq<Producer>)
    ensures |r| == |ps| && forall i :: 0 <= i < |ps| ==> r[i] == NotifyOne(ps[i])
  {
    if ps == [] then [] else NotifyEach(ps[..|ps| - 1]) + [NotifyOne(ps[|ps| - 1])]
  }

  function Next(cfg: Config, s: State, e: Event): State
    requires Sensible(cfg) && Enabled(cfg, s, e)
  {
    match e
    case Enter(p, x) =>
      var (q, outcome) := Offer(s.q, cfg.capacity, cfg.policy, x);
      Finish(s.(offered := s.offered + [x]), p, q, outcome, x, Evicted(s.q, cfg.capacity, cfg.policy))
    case Wake(p) =>
      s.(producers := s.producers[p := Spurious(s.producers[p].item)])
    case Reacquire(p) =>
      var x := s.producers[p].item;
      var (q, outcome) := Resume(s.q, cfg.capacity, x);
      Finish(s, p, q, outcome, x, [])
    case Take(wakes) =>
      s.(q := s.q.(items := s.q.items[1..]), taken := s.taken + [s.q.items[0]],
         producers := if wakes.Some? then s.producers[wakes.value := NotifyOne(s.producers[wakes.value])]
                      else s.producers)
    case SetShutdown => s.(q := s.q.(shutdown := true), notifyAllDue := true)
    case NotifyAll => s.(producers := NotifyEach(s.producers), notifyAllDue := false)
  }

  /** The state after a sequence of events, or None if one of them could not happen. */
  function Exec(cfg: Config, es: seq<Event>): Option<State>
    requires Sensible(cfg)
  {
    if es == [] then Some(Init(cfg))
    else
      match Exec(cfg, es[..|es| - 1])
      case None => None
      case Some(s) => if Enabled(cfg, s, es[|es| - 1]) then Some(Next(cfg, s, es[|es| - 1])) else None
  }

  /** How many producers have been notified and have not run since. */
  function NotifiedCount(ps: seq<Producer>): nat
  {
    if ps == [] then 0
    else NotifiedCount(ps[..|ps| - 1]) + if ps[|ps| - 1].Notified? then 1 else 0
  }

  /** The frames held by producers that are inside enqueue. */
  function Held(ps: seq<Producer>): multiset<Frame>
  {
    if ps == [] then multiset{}
    else Held(ps[..|ps| - 1]) + HeldBy(ps[|ps| - 1])
  }

  function HeldBy(pr: Producer): multiset<Frame>
  {
    if pr.Outside? then multiset{} else multiset{pr.item}
  }

  /** If someone sleeps un-notified, every free slot already has a notified producer coming for it. */
  ghost predicate NoLostWakeUp(cfg: Config, s: State)
  {
    && (!s.q.shutdown && AnyAsleep(s) ==> cfg.capacity - |s.q.items| <= NotifiedCount(s.producers))
    && (s.q.shutdown && AnyAsleep(s) ==> s.notifyAllDue)
  }

  /** Every offered frame was accepted, refused, or is in the hands of a producer still inside enqueue. */
  ghost predicate OffersAccounted(s: State)
  {
    multiset(s.offered) == multiset(s.accepted) + multiset(s.refused) + Held(s.producers)
  }

  /** Every accepted frame was taken, evicted, or is queued; what is queued is the newest part, in order. */
  ghost predicate AcceptedAccounted(cfg: Config, s: State)
  {
    && multiset(s.accepted) == multiset(s.taken) + multiset(s.evicted) + multiset(s.q.items)
    && (cfg.policy != DropOldest ==> s.evicted == [] && s.accepted == s.taken + s.q.items)
    && |s.q.items| <= |s.accepted| && s.q.items == s.accepted[|s.accepted| - |s.q.items|..]
  }

  /** The exact account of every frame. */
  ghost predicate Conserved(cfg: Config, s: State)
  {
    OffersAccounted(s) && AcceptedAccounted(cfg, s)
  }

  /** The telemetry counters, policy by policy. */
  ghost predicate Counted(cfg: Config, s: State)
  {
    && s.q.enqueued == |s.accepted|
    && s.q.dropped == (match cfg.policy
                       case DropLatest => |s.refused|
                       case DropOldest => |s.evicted|
                       case Block => 0)
    && (cfg.policy == DropOldest ==> s.refused == [])
    && (cfg.policy == Block && !s.q.shutdown ==> s.refused == [])
  }

  ghost predicate Inv(cfg: Config, s: State)
  {
    && |s.producers| == cfg.producers
    && |s.q.items| <= cfg.capacity
    && (cfg.policy != Block ==> forall p :: 0 <= p < |s.producers| ==> s.producers[p].Outside?)
    && NoLostWakeUp(cfg, s)
    && Conserved(cfg, s)
    && Counted(cfg, s)
  }

  lemma {:induction false} UpdateCount(ps: seq<Producer>, p: nat, pr: Producer)
    requires p < |ps|
    ensures NotifiedCount(ps[p := pr]) ==
            NotifiedCount(ps) + (if pr.Notified? then 1 else 0) - (if ps[p].Notified? then 1 else 0)
  {
    var m := |ps| - 1;
    if p < m {
      assert ps[p := pr][..m] == ps[..m][p := pr];
      UpdateCount(ps[..m], p, pr);
    } else {
      assert ps[p := pr][..m] == ps[..m];
    }
  }

  lemma Insert(a: multiset<Frame>, b: multiset<Frame>, c: multiset<Frame>, d: multiset<Frame>, x: multiset<Frame>)
    requires a + b == c + d
    ensures (a + x) + b == (c + x) + d
  {
    assert (a + x) + b == (a + b) + x;
  }

  lemma {:induction false} UpdateHeld(ps: seq<Producer>, p: nat, pr: Producer)
    requires p < |ps|
    ensures Held(ps[p := pr]) + HeldBy(ps[p]) == Held(ps) + HeldBy(pr)
  {
    var m := |ps| - 1;
    hide HeldBy;
    if p < m {
      assert ps[p := pr][..m] == ps[..m][p := pr];
      UpdateHeld(ps[..m], p, pr);
      assert ps[..m][p] == ps[p];
      Insert(Held(ps[..m][p := pr]), HeldBy(ps[p]), Held(ps[..m]), HeldBy(pr), HeldBy(ps[m]));
    } else {
      assert ps[p := pr][..m] == ps[..m];
    }
  }

  lemma {:induction false} NotifyEachKeepsHeld(ps: seq<Producer>)
    ensures Held(NotifyEach(ps)) == Held(ps)
  {
    if ps != [] {
      NotifyEachKeepsHeld(ps[..|ps| - 1]);
      assert NotifyEach(ps)[..|ps| - 1] == NotifyEach(ps[..|ps| - 1]);
    }
  }

  lemma {:induction false} AllOutside(ps: seq<Producer>)
    requires forall p :: 0 <= p < |ps| ==> ps[p].Outside?
    ensures Held(ps) == multiset{} && NotifiedCount(ps) == 0
  {
    if ps != [] {
      AllOutside(ps[..|ps| - 1]);
    }
  }

  /** One more frame is accepted after the eviction of the frames in out. */
  lemma AcceptKeeps(cfg: Config, s: State, out: seq<Frame>, x: Frame, t: State)
    requires AcceptedAccounted(cfg, s)
    requires out == [] || (|out| == 1 && out <= s.q.items && cfg.policy == DropOldest)
    requires t.q.items == s.q.items[|out|..] + [x] && t.accepted == s.accepted + [x]
    requires t.evicted == s.evicted + out && t.taken == s.taken
    ensures AcceptedAccounted(cfg, t)
  {
    var rest := s.q.items[|out|..];
    assert s.q.items == out + rest;
    var older := s.accepted[..|s.accepted| - |s.q.items|];
    assert s.accepted == older + (out + rest);
    assert t.accepted == (older + out) + t.q.items;
    assert multiset(t.accepted) == multiset(t.taken) + multiset(t.evicted) + multiset(t.q.items) by {
      Appended(s.accepted, s.taken, s.evicted, out, rest, x);
    }
  }

  lemma Appended(accepted: seq<Frame>, taken: seq<Frame>, evicted: seq<Frame>, out: seq<Frame>, rest: seq<Frame>,
                 x: Frame)
    requires multiset(accepted) == multiset(taken) + multiset(evicted) + multiset(out + rest)
    ensures multiset(accepted + [x]) == multiset(taken) + multiset(evicted + out) + multiset(rest + [x])
  {
  }

  lemma TakeKeepsAccepted(cfg: Config, s: State, t: State)
    requires AcceptedAccounted(cfg, s) && s.q.items != []
    requires t.q.items == s.q.items[1..] && t.accepted == s.accepted
    requires t.evicted == s.evicted && t.taken == s.taken + [s.q.items[0]]
    ensures AcceptedAccounted(cfg, t)
  {
    assert s.q.items == [s.q.items[0]] + t.q.items;
    assert multiset(s.q.items) == multiset{s.q.items[0]} + multiset(t.q.items);
    assert s.taken + s.q.items == t.taken + t.q.items;
  }

  lemma EnterKeepsAccepted(cfg: Config, s: State, p: nat, x: Frame)
    requires Sensible(cfg) && AcceptedAccounted(cfg, s) && Enabled(cfg, s, Enter(p, x))
    ensures AcceptedAccounted(cfg, Next(cfg, s, Enter(p, x)))
  {
    var t := Next(cfg, s, Enter(p, x));
    hide AcceptedAccounted;
    if Offer(s.q, cfg.capacity, cfg.policy, x).1 == Accepted {
      AcceptKeeps(cfg, s, Evicted(s.q, cfg.capacity, cfg.policy), x, t);
    } else {
      SameAccepted(cfg, s, t);
    }
  }

  lemma AcceptedKept(cfg: Config, s: State, e: Event)
    requires Sensible(cfg) && Inv(cfg, s) && Enabled(cfg, s, e)
    ensures AcceptedAccounted(cfg, Next(cfg, s, e))
  {
    var t := Next(cfg, s, e);
    hide AcceptedAccounted, OffersAccounted, NoLostWakeUp, Counted, Held;
    match e
    case Enter(p, x) => EnterKeepsAccepted(cfg, s, p, x);
    case Reacquire(p) =>
      if Resume(s.q, cfg.capacity, s.producers[p].item).1 == Accepted {
        AcceptKeeps(cfg, s, [], s.producers[p].item, t);
      } else {
        SameAccepted(cfg, s, t);
      }
    case Take(wakes) => TakeKeepsAccepted(cfg, s, t);
    case Wake(p) => SameAccepted(cfg, s, t);
    case SetShutdown => SameAccepted(cfg, s, t);
    case NotifyAll => SameAccepted(cfg, s, t);
  }

  lemma SameAccepted(cfg: Config, s: State, t: State)
    requires AcceptedAccounted(cfg, s)
    requires t.q.items == s.q.items && t.accepted == s.accepted
    requires t.evicted == s.evicted && t.taken == s.taken
    ensures AcceptedAccounted(cfg, t)
  {
  }

  /** A producer's attempt moves its frame between the accounts and loses none. */
  lemma FinishKeepsOffers(s: State, p: nat, q: Contents, outcome: Outcome, x: Frame, out: seq<Frame>)
    requires p < |s.producers|
    requires multiset(s.offered) + HeldBy(s.producers[p]) ==
             multiset(s.accepted) + multiset(s.refused) + Held(s.producers) + multiset{x}
    ensures OffersAccounted(Finish(s, p, q, outcome, x, out))
  {
    var t := Finish(s, p, q, outcome, x, out);
    FinishShape(s, p, q, outcome, x, out);
    FinishSettles(s, p, q, outcome, x, out);
    hide *;
    UpdateHeld(s.producers, p, t.producers[p]);
    Settle(multiset(s.offered), HeldBy(s.producers[p]), multiset(s.accepted), multiset(s.refused), Held(s.producers),
           Held(t.producers), HeldBy(t.producers[p]), multiset(t.accepted), multiset(t.refused), multiset{x});
    AccountedIf(t);
  }

  lemma AccountedIf(s: State)
    requires multiset(s.offered) == multiset(s.accepted) + multiset(s.refused) + Held(s.producers)
    ensures OffersAccounted(s)
  {
  }

  lemma FinishShape(s: State, p: nat, q: Contents, outcome: Outcome, x: Frame, out: seq<Frame>)
    requires p < |s.producers|
    ensures var t := Finish(s, p, q, outcome, x, out);
            t.offered == s.offered && |t.producers| == |s.producers| && t.producers == s.producers[p := t.producers[p]]
  {
  }

  /** The frame ends in exactly one of three places. */
  lemma FinishSettles(s: State, p: nat, q: Contents, outcome: Outcome, x: Frame, out: seq<Frame>)
    requires p < |s.producers|
    ensures var t := Finish(s, p, q, outcome, x, out);
            p < |t.producers| &&
            multiset(t.accepted) + multiset(t.refused) + HeldBy(t.producers[p]) ==
            multiset(s.accepted) + multiset(s.refused) + multiset{x}
  {
  }

  lemma Settle(o: multiset<Frame>, hp: multiset<Frame>, a: multiset<Frame>, r: multiset<Frame>, h: multiset<Frame>,
               h': multiset<Frame>, hp': multiset<Frame>, a': multiset<Frame>, r': multiset<Frame>, x: multiset<Frame>)
    requires o + hp == a + r + h + x && h' + hp == h + hp' && a' + r' + hp' == a + r + x
    ensures o == a' + r' + h'
  {
    forall f
      ensures o[f] == (a' + r' + h')[f]
    {
      assert (o + hp)[f] == (a + r + h + x)[f];
      assert (h' + hp)[f] == (h + hp')[f];
      assert (a' + r' + hp')[f] == (a + r + x)[f];
    }
  }

  lemma EnterPremise(s: State, p: nat, x: Frame)
    requires OffersAccounted(s) && p < |s.producers| && s.producers[p].Outside?
    ensures multiset(s.offered + [x]) + HeldBy(s.producers[p]) ==
            multiset(s.accepted) + multiset(s.refused) + Held(s.producers) + multiset{x}
  {
    assert multiset(s.offered + [x]) == multiset(s.offered) + multiset{x};
  }

  lemma ReacquirePremise(s: State, p: nat)
    requires OffersAccounted(s) && p < |s.producers| && !s.producers[p].Outside?
    ensures multiset(s.offered) + HeldBy(s.producers[p]) ==
            multiset(s.accepted) + multiset(s.refused) + Held(s.producers) + multiset{s.producers[p].item}
  {
  }

  lemma SameHeld(ps: seq<Producer>, p: nat, pr: Producer)
    requires p < |ps| && HeldBy(ps[p]) == HeldBy(pr)
    ensures Held(ps[p := pr]) == Held(ps)
  {
    UpdateHeld(ps, p, pr);
    hide Held;
    Cancel(Held(ps[p := pr]), Held(ps), HeldBy(pr));
  }

  lemma Cancel(a: multiset<Frame>, b: multiset<Frame>, c: multiset<Frame>)
    requires a + c == b + c
    ensures a == b
  {
    assert (a + c) - c == a && (b + c) - c == b;
  }

  lemma EnterKeepsOffers(cfg: Config, s: State, e: Event)
    requires Sensible(cfg) && OffersAccounted(s) && Enabled(cfg, s, e) && e.Enter?
    ensures OffersAccounted(Next(cfg, s, e))
  {
    hide AcceptedAccounted, NoLostWakeUp, Counted, Held, Offer, Resume, Finish;
    var Enter(p, x) := e;
    var (q, outcome) := Offer(s.q, cfg.capacity, cfg.policy, x);
    EnterPremise(s, p, x);
    FinishKeepsOffers(s.(offered := s.offered + [x]), p, q, outcome, x, Evicted(s.q, cfg.capacity, cfg.policy));
  }

  lemma ReacquireKeepsOffers(cfg: Config, s: State, e: Event)
    requires Sensible(cfg) && OffersAccounted(s) && Enabled(cfg, s, e) && e.Reacquire?
    ensures OffersAccounted(Next(cfg, s, e))
  {
    hide AcceptedAccounted, NoLostWakeUp, Counted, Held, Offer, Resume, Finish;
    var x := s.producers[e.p].item;
    var (q, outcome) := Resume(s.q, cfg.capacity, x);
    ReacquirePremise(s, e.p);
    FinishKeepsOffers(s, e.p, q, outcome, x, []);
  }

  lemma OffersKept(cfg: Config, s: State, e: Event)
    requires Sensible(cfg) && Inv(cfg, s) && Enabled(cfg, s, e)
    ensures OffersAccounted(Next(cfg, s, e))
  {
    var t := Next(cfg, s, e);
    hide AcceptedAccounted, NoLostWakeUp, Counted, Held, Offer, Resume, Finish;
    match e
    case Enter(_, _) => EnterKeepsOffers(cfg, s, e);
    case Reacquire(_) => ReacquireKeepsOffers(cfg, s, e);
    case Wake(p) => SameHeld(s.producers, p, t.producers[p]);
    case Take(wakes) =>
      if wakes.Some? {
        SameHeld(s.producers, wakes.value, t.producers[wakes.value]);
      }
    case SetShutdown =>
    case NotifyAll => NotifyEachKeepsHeld(s.producers);
  }

  lemma CountedKept(cfg: Config, s: State, e: Event)
    requires Sensible(cfg) && Inv(cfg, s) && Enabled(cfg, s, e)
    ensures Counted(cfg, Next(cfg, s, e))
    ensures |Next(cfg, s, e).q.items| <= cfg.capacity && |Next(cfg, s, e).producers| == cfg.producers
    ensures cfg.policy != Block ==>
      forall p :: 0 <= p < cfg.producers ==> Next(cfg, s, e).producers[p].Outside?
  {
    hide Held, NotifiedCount, Conserved, NoLostWakeUp;
  }

  lemma WakeUpsKept(cfg: Config, s: State, e: Event)
    requires Sensible(cfg) && Inv(cfg, s) && Enabled(cfg, s, e)
    ensures NoLostWakeUp(cfg, Next(cfg, s, e))
  {
    hide Held, NotifiedCount, Conserved, Counted;
    var t := Next(cfg, s, e);
    match e
    case Enter(p, x) =>
      UpdateCount(s.producers, p, t.producers[p]);
      SleepersBefore(s, t, p);
    case Wake(p) =>
      UpdateCount(s.producers, p, t.producers[p]);
      SleepersBefore(s, t, p);
    case Reacquire(p) =>
      UpdateCount(s.producers, p, t.producers[p]);
      SleepersBefore(s, t, p);
    case Take(wakes) =>
      if wakes.Some? {
        UpdateCount(s.producers, wakes.value, t.producers[wakes.value]);
        SleepersBefore(s, t, wakes.value);
      }
    case SetShutdown =>
    case NotifyAll =>
  }

  /** Only producer p changed: if it is not asleep now, any sleeper was already asleep. */
  lemma SleepersBefore(s: State, t: State, p: nat)
    requires p < |s.producers| == |t.producers|
    requires t.producers == s.producers[p := t.producers[p]]
    ensures AnyAsleep(t) ==> AnyAsleep(s) || t.producers[p].Asleep?
  {
    if AnyAsleep(t) {
      var r :| 0 <= r < |t.producers| && t.producers[r].Asleep?;
      assert r == p || s.producers[r].Asleep?;
    }
  }

  /** In every state any interleaving can reach, the invariant holds. */
  lemma {:induction false} AlwaysInv(cfg: Config, es: seq<Event>)
    requires Sensible(cfg)
    ensures Exec(cfg, es).Some? ==> Inv(cfg, Exec(cfg, es).value)
  {
    if es == [] {
      AllOutside(Init(cfg).producers);
    } else {
      AlwaysInv(cfg, es[..|es| - 1]);
      match Exec(cfg, es[..|es| - 1])
      case None =>
      case Some(s) =>
        if Enabled(cfg, s, es[|es| - 1]) {
          hide Next, Enabled, NoLostWakeUp, OffersAccounted, AcceptedAccounted, Counted;
          OffersKept(cfg, s, es[|es| - 1]);
          AcceptedKept(cfg, s, es[|es| - 1]);
          CountedKept(cfg, s, es[|es| - 1]);
          WakeUpsKept(cfg, s, es[|es| - 1]);
        }
    }
  }

  /** A sleeping producer is never stranded beside a free slot: someone awake is on the way. */
  lemma SleeperHasHelp(cfg: Config, es: seq<Event>, p: nat)
    requires Sensible(cfg) && Exec(cfg, es).Some? && p < cfg.producers
    requires var s := Exec(cfg, es).value; |s.producers| == cfg.producers && s.producers[p].Asleep?
    requires var s := Exec(cfg, es).value; |s.q.items| < cfg.capacity || s.q.shutdown
    ensures var s := Exec(cfg, es).value;
            s.notifyAllDue || exists r :: 0 <= r < |s.producers| && s.producers[r].Notified?
  {
    AlwaysInv(cfg, es);
    var s := Exec(cfg, es).value;
    hide Exec, Conserved, Counted;
    if forall r :: 0 <= r < |s.producers| ==> !s.producers[r].Notified? {
      NoneNotified(s.producers);
    }
  }

  lemma {:induction false} NoneNotified(ps: seq<Producer>)
    requires forall p :: 0 <= p < |ps| ==> !ps[p].Notified?
    ensures NotifiedCount(ps) == 0
  {
    if ps != [] {
      NoneNotified(ps[..|ps| - 1]);
    }
  }

  // ---- After shutdown ----

  /** Shut down, and nobody sleeps. */
  ghost predicate Released(s: State)
  {
    s.q.shutdown && !AnyAsleep(s)
  }

  lemma ReleasedStays(cfg: Config, s: State, e: Event)
    requires Sensible(cfg) && Enabled(cfg, s, e) && Released(s)
    ensures Released(Next(cfg, s, e))
  {
    var t := Next(cfg, s, e);
    hide Evicted;
    forall p | 0 <= p < |t.producers|
      ensures !t.producers[p].Asleep?
    {
      if e.NotifyAll? {
        assert t.producers[p] == NotifyOne(s.producers[p]);
      }
      assert p < |s.producers| && !s.producers[p].Asleep?;
    }
  }

  /** Once notify_all has followed the shutdown flag, no producer is asleep or ever sleeps again. */
  lemma {:induction false} NobodySleepsAfterShutdown(cfg: Config, es: seq<Event>, more: seq<Event>)
    requires Sensible(cfg) && Exec(cfg, es).Some? && Exec(cfg, es + more).Some?
    requires Exec(cfg, es).value.q.shutdown && !Exec(cfg, es).value.notifyAllDue
    ensures Exec(cfg, es + more).value.q.shutdown && !AnyAsleep(Exec(cfg, es + more).value)
  {
    if more == [] {
      assert es + more == es;
      AlwaysInv(cfg, es);
    } else {
      var m := |more| - 1;
      assert (es + more)[..|es + more| - 1] == es + more[..m];
      NobodySleepsAfterShutdown(cfg, es, more[..m]);
      hide Next, Enabled, AnyAsleep;
      ReleasedStays(cfg, Exec(cfg, es + more[..m]).value, more[m]);
    }
  }

  /**
   * In every reachable shut-down state an enqueue call returns at once: a newcomer's frame is accepted
   * if and only if the queue is not full or drops its oldest frame, and a woken producer is refused.
   */
  lemma ShutdownStillAccepts(cfg: Config, es: seq<Event>, e: Event)
    requires Sensible(cfg) && Exec(cfg, es).Some? && Exec(cfg, es).value.q.shutdown
    requires Enabled(cfg, Exec(cfg, es).value, e) && (e.Enter? || e.Reacquire?)
    ensures var s := Exec(cfg, es).value; var t := Next(cfg, s, e);
            && |s.q.items| <= cfg.capacity
            && e.p < |s.producers| == |t.producers| && t.producers[e.p].Outside?
            && (e.Enter? ==>
                  if |s.q.items| < cfg.capacity || cfg.policy == DropOldest
                  then t.accepted == s.accepted + [e.x] && t.refused == s.refused
                  else t.accepted == s.accepted && t.refused == s.refused + [e.x])
            && (e.Reacquire? ==> t.accepted == s.accepted && t.refused == s.refused + [s.producers[e.p].item])
            && |t.q.items| <= cfg.capacity
  {
    AlwaysInv(cfg, es);
    var s := Exec(cfg, es).value;
    hide Exec, Conserved, NoLostWakeUp, Counted, Evicted;
    CountedKept(cfg, s, e);
  }

  /** Such a newcomer does occur: a frame offered to a queue that was shut down empty is enqueued. */
  lemma NewcomerAfterShutdown(cfg: Config, x: Frame) returns (es: seq<Event>)
    requires Sensible(cfg) && cfg.producers > 0
    ensures Exec(cfg, es).Some?
    ensures var s := Exec(cfg, es).value; s.q.shutdown && !s.notifyAllDue && s.accepted == [x] == s.q.items
  {
    es := [SetShutdown, NotifyAll, Enter(0, x)];
    assert es[..2] == [SetShutdown, NotifyAll] && es[..2][..1] == [SetShutdown] && es[..2][..1][..0] == [];
    var s := Init(cfg);
    assert Exec(cfg, []) == Some(s);
    var s1 := Next(cfg, s, SetShutdown);
    assert Exec(cfg, [SetShutdown]) == Some(s1);
    var s2 := Next(cfg, s1, NotifyAll);
    assert Exec(cfg, [SetShutdown, NotifyAll]) == Some(s2);
    assert s2.producers[0] == NotifyOne(s1.producers[0]);
    hide Exec;
    assert Exec(cfg, es) == Some(Next(cfg, s2, Enter(0, x))) by { LastEvent(cfg, es, s2); }
  }

  lemma LastEvent(cfg: Config, es: seq<Event>, s: State)
    requires Sensible(cfg) && es != [] && Exec(cfg, es[..|es| - 1]) == Some(s) && Enabled(cfg, s, es[|es| - 1])
    ensures Exec(cfg, es) == Some(Next(cfg, s, es[|es| - 1]))
  {
    hide Next, Enabled;
  }
}
