/**
 * What each policy does with a frame, in every reachable state of a queue with any number of producers,
 * and which frames a queue holds when nobody takes any.
 */
module QueuePolicies {
  import opened Frames
  import opened InProcessQueue
  import opened QueueWaiting

  /** The frame goes to the back, after the frames in gone have left from the front; its caller returns. */
  ghost predicate Takes(s: State, t: State, p: nat, x: Frame, gone: seq<Frame>)
  {
    && gone <= s.q.items
    && t.q.items == s.q.items[|gone|..] + [x]
    && t.accepted == s.accepted + [x] && t.refused == s.refused && t.evicted == s.evicted + gone
    && t.q.enqueued == s.q.enqueued + 1 && t.q.dropped == s.q.dropped + |gone|
    && p < |s.producers| && t.producers == s.producers[p := Outside]
  }

  /** The frame goes nowhere and its caller returns. */
  ghost predicate TurnsAway(s: State, t: State, p: nat, x: Frame, counted: nat)
  {
    && t.q.items == s.q.items
    && t.accepted == s.accepted && t.refused == s.refused + [x] && t.evicted == s.evicted
    && t.q.enqueued == s.q.enqueued && t.q.dropped == s.q.dropped + counted
    && p < |s.producers| && t.producers == s.producers[p := Outside]
  }

  /** The caller sleeps with its frame, and nothing else changes. */
  ghost predicate Sleeps(s: State, t: State, p: nat, x: Frame)
  {
    && t.q == s.q && t.accepted == s.accepted && t.refused == s.refused && t.evicted == s.evicted
    && p < |s.producers| && t.producers == s.producers[p := Asleep(x)]
  }

  /**
   * One call of enqueue in any reachable state: a queue with a free slot takes the frame. A full one
   * refuses it, evicts its oldest frame for it, or lets the caller sleep until shutdown.
   */
  lemma EnterDoes(cfg: Config, es: seq<Event>, p: nat, x: Frame)
    requires Sensible(cfg) && Exec(cfg, es).Some? && Enabled(cfg, Exec(cfg, es).value, Enter(p, x))
    ensures var s := Exec(cfg, es).value; var t := Next(cfg, s, Enter(p, x));
            && |s.q.items| <= cfg.capacity && t.q.shutdown == s.q.shutdown && t.taken == s.taken
            && t.offered == s.offered + [x]
            && (|s.q.items| < cfg.capacity ==> Takes(s, t, p, x, []))
            && (|s.q.items| == cfg.capacity ==>
                  && (cfg.policy == DropLatest ==> TurnsAway(s, t, p, x, 1))
                  && (cfg.policy == DropOldest ==> Takes(s, t, p, x, [s.q.items[0]]))
                  && (cfg.policy == Block && !s.q.shutdown ==> Sleeps(s, t, p, x))
                  && (cfg.policy == Block && s.q.shutdown ==> TurnsAway(s, t, p, x, 0)))
  {
    hide *;
    Bounded(cfg, es);
    EnterFrom(cfg, Exec(cfg, es).value, p, x);
  }

  lemma Bounded(cfg: Config, es: seq<Event>)
    requires Sensible(cfg) && Exec(cfg, es).Some?
    ensures |Exec(cfg, es).value.q.items| <= cfg.capacity
  {
    AlwaysInv(cfg, es);
    hide Exec, Conserved, Counted, NoLostWakeUp;
  }

  lemma EnterFrom(cfg: Config, s: State, p: nat, x: Frame)
    requires Sensible(cfg) && Enabled(cfg, s, Enter(p, x)) && |s.q.items| <= cfg.capacity
    ensures var t := Next(cfg, s, Enter(p, x));
            && t.q.shutdown == s.q.shutdown && t.taken == s.taken && t.offered == s.offered + [x]
            && (|s.q.items| < cfg.capacity ==> Takes(s, t, p, x, []))
            && (|s.q.items| == cfg.capacity ==>
                  && (cfg.policy == DropLatest ==> TurnsAway(s, t, p, x, 1))
                  && (cfg.policy == DropOldest ==> Takes(s, t, p, x, [s.q.items[0]]))
                  && (cfg.policy == Block && !s.q.shutdown ==> Sleeps(s, t, p, x))
                  && (cfg.policy == Block && s.q.shutdown ==> TurnsAway(s, t, p, x, 0)))
  {
    assert s.evicted + [] == s.evicted;
  }

  /** A woken producer that has the lock again: refused after shutdown, else taken if there is a free slot. */
  lemma ReacquireDoes(cfg: Config, es: seq<Event>, p: nat)
    requires Sensible(cfg) && Exec(cfg, es).Some? && Enabled(cfg, Exec(cfg, es).value, Reacquire(p))
    ensures var s := Exec(cfg, es).value; var t := Next(cfg, s, Reacquire(p));
            && p < |s.producers| && !s.producers[p].Outside? && cfg.policy == Block
            && t.q.shutdown == s.q.shutdown && t.taken == s.taken && t.offered == s.offered
            && var x := s.producers[p].item;
               if s.q.shutdown then TurnsAway(s, t, p, x, 0)
               else if |s.q.items| < cfg.capacity then Takes(s, t, p, x, [])
               else Sleeps(s, t, p, x)
  {
    hide *;
    OnlyBlockWaits(cfg, es, p);
    ReacquireFrom(cfg, Exec(cfg, es).value, p);
  }

  lemma OnlyBlockWaits(cfg: Config, es: seq<Event>, p: nat)
    requires Sensible(cfg) && Exec(cfg, es).Some? && Enabled(cfg, Exec(cfg, es).value, Reacquire(p))
    ensures var s := Exec(cfg, es).value;
            p < |s.producers| && !s.producers[p].Outside? && cfg.policy == Block && |s.q.items| <= cfg.capacity
  {
    AlwaysInv(cfg, es);
    hide Exec, Conserved, Counted, NoLostWakeUp;
  }

  lemma ReacquireFrom(cfg: Config, s: State, p: nat)
    requires Sensible(cfg) && Enabled(cfg, s, Reacquire(p)) && |s.q.items| <= cfg.capacity
    requires p < |s.producers| && !s.producers[p].Outside?
    ensures var t := Next(cfg, s, Reacquire(p)); var x := s.producers[p].item;
            && t.q.shutdown == s.q.shutdown && t.taken == s.taken && t.offered == s.offered
            && if s.q.shutdown then TurnsAway(s, t, p, x, 0)
               else if |s.q.items| < cfg.capacity then Takes(s, t, p, x, [])
               else Sleeps(s, t, p, x)
  {
    assert s.evicted + [] == s.evicted;
  }

  /** The other steps leave the frames alone and bring nobody into enqueue. */
  lemma OtherStep(cfg: Config, s: State, e: Event)
    requires Sensible(cfg) && Enabled(cfg, s, e) && !e.Enter? && !e.Reacquire? && !e.Take?
    ensures var t := Next(cfg, s, e);
            && t.q.items == s.q.items && t.offered == s.offered && |t.producers| == |s.producers|
            && forall p :: 0 <= p < |s.producers| && s.producers[p].Outside? ==> t.producers[p].Outside?
  {
    hide Offer, Resume, Finish;
  }

  // ---- Runs in which nobody takes a frame ----

  ghost predicate NobodyTakes(es: seq<Event>)
  {
    forall k :: 0 <= k < |es| ==> !es[k].Take?
  }

  function Min(a: nat, b: nat): nat { if a <= b then a else b }

  function First(s: seq<Frame>, n: nat): (r: seq<Frame>) { s[..Min(|s|, n)] }

  function Last(s: seq<Frame>, n: nat): (r: seq<Frame>) { s[|s| - Min(|s|, n)..] }

  lemma OneMore(s: seq<Frame>, x: Frame, n: nat)
    requires n > 0
    ensures |s| < n ==> First(s + [x], n) == First(s, n) + [x] && Last(s + [x], n) == Last(s, n) + [x]
    ensures |s| >= n ==> First(s + [x], n) == First(s, n) && Last(s + [x], n) == Last(s, n)[1..] + [x]
    ensures |First(s, n)| == |Last(s, n)| == Min(|s|, n)
  {
  }

  /** Only a full queue has callers that have not returned. */
  ghost predicate WaitersFaceFull(cfg: Config, s: State)
  {
    |s.q.items| >= cfg.capacity || forall p :: 0 <= p < |s.producers| ==> s.producers[p].Outside?
  }

  lemma FirstStep(cfg: Config, es: seq<Event>, e: Event)
    requires Sensible(cfg) && cfg.policy != DropOldest && Exec(cfg, es).Some? && Enabled(cfg, Exec(cfg, es).value, e)
    requires !e.Take?
    requires var s := Exec(cfg, es).value; s.q.items == First(s.offered, cfg.capacity) && WaitersFaceFull(cfg, s)
    ensures var t := Next(cfg, Exec(cfg, es).value, e);
            t.q.items == First(t.offered, cfg.capacity) && WaitersFaceFull(cfg, t)
  {
    var s := Exec(cfg, es).value;
    hide Exec, Next, Enabled, First;
    if e.Enter? {
      EnterDoes(cfg, es, e.p, e.x);
      OneMore(s.offered, e.x, cfg.capacity);
    } else if e.Reacquire? {
      ReacquireDoes(cfg, es, e.p);
      assert |s.q.items| >= cfg.capacity;
    } else {
      OtherStep(cfg, s, e);
    }
  }

  /** DropLatest and Block hold the first frames that were offered, as many as fit. */
  lemma {:induction false} FirstOffered(cfg: Config, es: seq<Event>)
    requires Sensible(cfg) && cfg.policy != DropOldest && Exec(cfg, es).Some? && NobodyTakes(es)
    ensures var s := Exec(cfg, es).value; s.q.items == First(s.offered, cfg.capacity) && WaitersFaceFull(cfg, s)
  {
    if es != [] {
      var m := |es| - 1;
      FirstOffered(cfg, es[..m]);
      hide Next, Enabled, First, WaitersFaceFull;
      FirstStep(cfg, es[..m], es[m]);
    }
  }

  lemma LastStep(cfg: Config, es: seq<Event>, e: Event)
    requires Sensible(cfg) && cfg.policy == DropOldest && Exec(cfg, es).Some? && Enabled(cfg, Exec(cfg, es).value, e)
    requires !e.Take?
    requires var s := Exec(cfg, es).value; s.q.items == Last(s.offered, cfg.capacity)
    ensures var t := Next(cfg, Exec(cfg, es).value, e); t.q.items == Last(t.offered, cfg.capacity)
  {
    var s := Exec(cfg, es).value;
    hide Exec, Next, Enabled, Last;
    if e.Enter? {
      EnterDoes(cfg, es, e.p, e.x);
      OneMore(s.offered, e.x, cfg.capacity);
    } else if e.Reacquire? {
      ReacquireDoes(cfg, es, e.p);
    } else {
      OtherStep(cfg, s, e);
    }
  }

  /** DropOldest holds the last frames that were offered, as many as fit. */
  lemma {:induction false} LastOffered(cfg: Config, es: seq<Event>)
    requires Sensible(cfg) && cfg.policy == DropOldest && Exec(cfg, es).Some? && NobodyTakes(es)
    ensures var s := Exec(cfg, es).value; s.q.items == Last(s.offered, cfg.capacity)
  {
    if es != [] {
      var m := |es| - 1;
      LastOffered(cfg, es[..m]);
      hide Next, Enabled, Last;
      LastStep(cfg, es[..m], es[m]);
    }
  }

  // ---- Everyone can go on ----

  /**
   * In every reachable state a caller outside enqueue may enter, an awake one inside may go on, a
   * sleeping one may wake, and a queue with frames gives one up; a Block queue then wakes a sleeper.
   */
  lemma EveryoneCanStep(cfg: Config, es: seq<Event>, p: nat)
    requires Sensible(cfg) && Exec(cfg, es).Some? && p < cfg.producers
    ensures var s := Exec(cfg, es).value;
            && |s.producers| == cfg.producers
            && (s.producers[p].Outside? ==> forall x :: Enabled(cfg, s, Enter(p, x)))
            && (s.producers[p].Asleep? ==> Enabled(cfg, s, Wake(p)))
            && (s.producers[p].Notified? || s.producers[p].Spurious? ==> Enabled(cfg, s, Reacquire(p)))
            && (s.q.items != [] && AnyAsleep(s) ==>
                  exists r: nat :: Enabled(cfg, s, Take(Some(r))) && Next(cfg, s, Take(Some(r))).producers[r].Notified?)
            && (s.q.items != [] && !AnyAsleep(s) ==> Enabled(cfg, s, Take(None)))
  {
    AlwaysInv(cfg, es);
    var s := Exec(cfg, es).value;
    hide Exec, Conserved, Counted, NoLostWakeUp;
    if s.q.items != [] && AnyAsleep(s) {
      var r: nat :| r < |s.producers| && s.producers[r].Asleep?;
      assert Enabled(cfg, s, Take(Some(r)));
      assert Next(cfg, s, Take(Some(r))).producers[r].Notified?;
    }
  }
}
