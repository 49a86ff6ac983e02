/** Where the runtime loses frames: at a queue that is full or shut down, and nowhere else. */
module RuntimeLoss {
  import opened Frames
  import opened InProcessQueue
  import opened LinearRuntime
  import Stop = RuntimeStop

  /** The queue takes x at its back, after the frames in gone have been lost from its front. */
  ghost predicate Takes(l: Link, t: Link, x: Frame, gone: seq<Frame>)
  {
    && gone <= l.q.items && t.q.items == l.q.items[|gone|..] + [x]
    && t.offered == l.offered + [x] && t.lost == l.lost + gone && t.taken == l.taken
  }

  /** The queue stays as it is and x is lost. */
  ghost predicate Loses(l: Link, t: Link, x: Frame)
  {
    t.q.items == l.q.items && t.offered == l.offered + [x] && t.lost == l.lost + [x] && t.taken == l.taken
  }

  /** Before a full queue that blocks, the worker sleeps and nothing else changes. */
  ghost predicate Waits(l: Link, t: Link, pc: Worker, pc': Worker)
  {
    t == l && pc.Emitting? && pc' == pc.(sleep := Asleep)
  }

  /** The worker goes on to the next frame that process() returned. */
  ghost predicate GoesOn(pc: Worker, pc': Worker)
  {
    pc.Emitting? && pc.rest != [] && pc' == Emitting(pc.rest[1..], pc.exiting, Awake)
  }

  /** What one enqueue step does to the link and its worker, policy by policy. */
  ghost predicate Enqueues(l: Link, t: Link, pc: Worker, pc': Worker, entry: StageEntry)
    requires pc.Emitting? && pc.rest != []
  {
    var x := pc.rest[0];
    if pc.sleep != Awake && l.q.shutdown then Loses(l, t, x) && GoesOn(pc, pc')
    else if |l.q.items| < entry.queueCapacity then Takes(l, t, x, []) && GoesOn(pc, pc')
    else
      match entry.policy
      case DropLatest => Loses(l, t, x) && GoesOn(pc, pc')
      case DropOldest => l.q.items != [] && Takes(l, t, x, [l.q.items[0]]) && GoesOn(pc, pc')
      case Block => if l.q.shutdown then Loses(l, t, x) && GoesOn(pc, pc') else Waits(l, t, pc, pc')
  }

  /** In any reachable state, for stages of any kind. */
  lemma EnqueueDoes(cfg: Config, es: seq<Event>, w: nat)
    requires Sensible(cfg) && Exec(cfg, es).Some? && Enabled(cfg, Exec(cfg, es).value, EnqueueOne(w))
    ensures var s := Exec(cfg, es).value; var t := Next(cfg, s, EnqueueOne(w));
            && w < |s.workers| && s.workers[w].Emitting? && s.workers[w].rest != []
            && Enqueues(s.links[w], t.links[w], s.workers[w], t.workers[w], cfg.wiring[w])
            && (forall i :: 0 <= i < |s.links| && i != w ==>
                  t.links[i] == s.links[i] && t.workers[i] == s.workers[i])
            && t.sourced == s.sourced && t.stop == s.stop
  {
    hide Inv;
    Stop.SleepersFaceFullQueues(cfg, es, w);
    WithinCapacity(cfg, es, w);
    hide Exec;
    EnqueueFrom(cfg, Exec(cfg, es).value, w);
  }

  lemma WithinCapacity(cfg: Config, es: seq<Event>, i: nat)
    requires Sensible(cfg) && Exec(cfg, es).Some? && i < |cfg.wiring|
    ensures |Exec(cfg, es).value.links[i].q.items| <= cfg.wiring[i].queueCapacity
  {
    AlwaysInv(cfg, es);
    var s := Exec(cfg, es).value;
    hide Exec, StageInv;
    assert LinkInv(s.links[i], cfg.wiring[i]);
  }

  lemma EnqueueFrom(cfg: Config, s: State, w: nat)
    requires Sensible(cfg) && WellShaped(cfg, s) && Enabled(cfg, s, EnqueueOne(w))
    requires w < |s.links| && Stop.SleepsForReason(cfg, s, w) && |s.links[w].q.items| <= cfg.wiring[w].queueCapacity
    ensures var t := Next(cfg, s, EnqueueOne(w));
            && Enqueues(s.links[w], t.links[w], s.workers[w], t.workers[w], cfg.wiring[w])
            && (forall i :: 0 <= i < |s.links| && i != w ==>
                  t.links[i] == s.links[i] && t.workers[i] == s.workers[i])
            && t.sourced == s.sourced && t.stop == s.stop
  {
    assert s.links[w].lost + [] == s.links[w].lost;
  }

  /** No other step loses a frame or offers one; at most it takes the front. */
  lemma OthersLoseNothing(cfg: Config, s: State, e: Event, i: nat)
    requires Sensible(cfg) && WellShaped(cfg, s) && Enabled(cfg, s, e) && i < |s.links|
    requires !(e.EnqueueOne? && e.w == i)
    ensures var l, t := s.links[i], Next(cfg, s, e).links[i];
            && t.lost == l.lost && t.offered == l.offered
            && (|| (t.q.items == l.q.items && t.taken == l.taken)
                || (l.q.items != [] && t.q.items == l.q.items[1..] && t.taken == l.taken + [l.q.items[0]]))
  {
    hide Attempt, Offered;
  }

  /** Every loss has a step at which the queue was full or shut down. */
  lemma {:induction false} LossNeedsFullQueue(cfg: Config, es: seq<Event>, i: nat) returns (k: nat)
    requires Sensible(cfg) && Exec(cfg, es).Some? && i < |cfg.wiring|
    requires Exec(cfg, es).value.links[i].lost != []
    ensures k < |es| && es[k] == EnqueueOne(i) && Exec(cfg, es[..k]).Some?
    ensures var l := Exec(cfg, es[..k]).value.links[i];
            |l.q.items| == cfg.wiring[i].queueCapacity || l.q.shutdown
  {
    assert es != [];
    var m := |es| - 1;
    var s := Exec(cfg, es[..m]).value;
    if s.links[i].lost != [] {
      k := LossNeedsFullQueue(cfg, es[..m], i);
      assert es[..m][..k] == es[..k];
    } else {
      k := m;
      WithinCapacity(cfg, es[..m], i);
      LosesNow(cfg, es[..m], es[m], i);
    }
  }

  lemma LosesNow(cfg: Config, es: seq<Event>, e: Event, i: nat)
    requires Sensible(cfg) && Exec(cfg, es).Some? && Enabled(cfg, Exec(cfg, es).value, e) && i < |cfg.wiring|
    requires var s := Exec(cfg, es).value; s.links[i].lost == [] && Next(cfg, s, e).links[i].lost != []
    ensures e == EnqueueOne(i)
    ensures var l := Exec(cfg, es).value.links[i]; |l.q.items| >= cfg.wiring[i].queueCapacity || l.q.shutdown
  {
    var s := Exec(cfg, es).value;
    if e.EnqueueOne? && e.w == i {
      EnqueueDoes(cfg, es, i);
    } else {
      OthersLoseNothing(cfg, s, e, i);
    }
    hide Exec, Next, Enabled;
  }
}
