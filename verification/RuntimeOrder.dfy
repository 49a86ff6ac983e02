/** What the main thread polls: frames in source order, and all of them when no queue loses any. */
module RuntimeOrder {
  import opened Frames
  import opened InProcessQueue
  import opened Subsequence
  import opened LinearRuntime

  lemma {:induction false} EmittedPrefix(cfg: Config, i: nat, xs: seq<Frame>, ys: seq<Frame>)
    requires xs <= ys
    ensures Emitted(cfg, i, xs) <= Emitted(cfg, i, ys)
    decreases |ys|
  {
    if |xs| == |ys| {
      assert xs == ys;
    } else {
      EmittedPrefix(cfg, i, xs, ys[..|ys| - 1]);
    }
  }

  /** Leaving inputs out only leaves outputs out: what stage i makes of a subsequence is a subsequence. */
  ghost predicate Monotone(cfg: Config, i: nat)
  {
    forall xs, ys :: Subseq(xs, ys) ==> Subseq(Emitted(cfg, i, xs), Emitted(cfg, i, ys))
  }

  ghost predicate StagesMonotone(cfg: Config)
  {
    forall i :: 0 < i < |cfg.wiring| ==> Monotone(cfg, i)
  }

  /** In particular this holds of stages that remember nothing. */
  lemma MemorylessIsMonotone(cfg: Config)
    requires Memoryless(cfg)
    ensures StagesMonotone(cfg)
  {
    forall i: nat, xs, ys | Subseq(xs, ys)
      ensures Subseq(Emitted(cfg, i, xs), Emitted(cfg, i, ys))
    {
      EmittedSubseq(cfg, i, xs, ys);
    }
  }

  /** A memoryless stage maps subsequences to subsequences. */
  lemma {:induction false} EmittedSubseq(cfg: Config, i: nat, xs: seq<Frame>, ys: seq<Frame>)
    requires Memoryless(cfg) && Subseq(xs, ys)
    ensures Subseq(Emitted(cfg, i, xs), Emitted(cfg, i, ys))
    decreases |ys|
  {
    if xs != [] {
      var x, y := |xs| - 1, |ys| - 1;
      var upTo := Emitted(cfg, i, ys[..y]);
      if xs[x] == ys[y] && Subseq(xs[..x], ys[..y]) {
        EmittedSubseq(cfg, i, xs[..x], ys[..y]);
        AppendBoth(Emitted(cfg, i, xs[..x]), upTo, cfg.transform(i, ys));
      } else {
        EmittedSubseq(cfg, i, xs, ys[..y]);
        Prefix(upTo, cfg.transform(i, ys));
        Trans(Emitted(cfg, i, xs), upTo, Emitted(cfg, i, ys));
      }
    }
  }

  lemma CompletedIsPrefix(pc: Worker, taken: seq<Frame>)
    ensures Completed(pc, taken) <= taken
  {
  }

  /** What a queue was offered is at most what its stage emits for everything it took. */
  lemma OfferedAtMostEmitted(cfg: Config, s: State, i: nat)
    requires Inv(cfg, s) && 0 < i < |s.links|
    ensures s.links[i].offered <= Emitted(cfg, i, s.links[i - 1].taken)
  {
    hide LinkInv;
    assert StageInv(cfg, s, i);
    var completed := Completed(s.workers[i], s.links[i - 1].taken);
    CompletedIsPrefix(s.workers[i], s.links[i - 1].taken);
    EmittedPrefix(cfg, i, completed, s.links[i - 1].taken);
  }

  lemma TakenWithinOffered(l: Link, entry: StageEntry)
    requires LinkInv(l, entry)
    ensures Subseq(l.taken, l.offered)
    ensures l.lost == [] ==> l.taken <= l.offered
  {
    Prefix(l.taken, l.q.items);
    Trans(l.taken, l.taken + l.q.items, l.offered);
  }

  lemma PrefixIsSubseq(xs: seq<Frame>, ys: seq<Frame>)
    requires xs <= ys
    ensures Subseq(xs, ys)
  {
    Prefix(xs, ys[|xs|..]);
    assert xs + ys[|xs|..] == ys;
  }

  lemma {:induction false} TakenInOrder(cfg: Config, s: State, i: nat)
    requires Inv(cfg, s) && StagesMonotone(cfg) && i < |s.links|
    ensures Subseq(s.links[i].taken, Composed(cfg, i, s.sourced))
    decreases i
  {
    var l := s.links[i];
    assert LinkInv(l, cfg.wiring[i]);
    TakenWithinOffered(l, cfg.wiring[i]);
    if i == 0 {
      assert StageInv(cfg, s, 0);
      PrefixIsSubseq(l.offered, s.sourced);
      Trans(l.taken, l.offered, s.sourced);
    } else {
      hide Subseq, Emitted, LinkInv, StageInv;
      var emitted := Emitted(cfg, i, s.links[i - 1].taken);
      OfferedAtMostEmitted(cfg, s, i);
      PrefixIsSubseq(l.offered, emitted);
      TakenInOrder(cfg, s, i - 1);
      assert Monotone(cfg, i);
      Trans(l.taken, l.offered, emitted);
      Trans(l.taken, emitted, Composed(cfg, i, s.sourced));
    }
  }

  /** In every reachable state the polled frames are, in order, among what the stages make of the source. */
  lemma PolledInSourceOrder(cfg: Config, es: seq<Event>)
    requires Sensible(cfg) && StagesMonotone(cfg) && Exec(cfg, es).Some?
    ensures var s := Exec(cfg, es).value;
            Subseq(Polled(s), Composed(cfg, |s.links| - 1, s.sourced))
  {
    AlwaysInv(cfg, es);
    var s := Exec(cfg, es).value;
    TakenInOrder(cfg, s, |s.links| - 1);
  }

  ghost predicate Lossless(s: State)
  {
    forall i :: 0 <= i < |s.links| ==> s.links[i].lost == []
  }

  lemma {:induction false} TakenIsPrefix(cfg: Config, s: State, i: nat)
    requires Inv(cfg, s) && Lossless(s) && i < |s.links|
    ensures s.links[i].taken <= Composed(cfg, i, s.sourced)
    decreases i
  {
    var l := s.links[i];
    assert LinkInv(l, cfg.wiring[i]);
    TakenWithinOffered(l, cfg.wiring[i]);
    if i == 0 {
      assert StageInv(cfg, s, 0);
    } else {
      OfferedAtMostEmitted(cfg, s, i);
      TakenIsPrefix(cfg, s, i - 1);
      EmittedPrefix(cfg, i, s.links[i - 1].taken, Composed(cfg, i - 1, s.sourced));
    }
  }

  /** While no queue has lost a frame, stages may even keep state: polled is a prefix of the whole output. */
  lemma PolledIsPrefix(cfg: Config, es: seq<Event>)
    requires Sensible(cfg) && Exec(cfg, es).Some? && Lossless(Exec(cfg, es).value)
    ensures var s := Exec(cfg, es).value;
            Polled(s) <= Composed(cfg, |s.links| - 1, s.sourced)
  {
    AlwaysInv(cfg, es);
    var s := Exec(cfg, es).value;
    TakenIsPrefix(cfg, s, |s.links| - 1);
  }

  /** A pipeline whose queues all block loses nothing until it is shut down. */
  lemma BlockingPipelineIsLossless(cfg: Config, es: seq<Event>)
    requires Sensible(cfg) && Exec(cfg, es).Some?
    requires forall i :: 0 <= i < |cfg.wiring| ==> cfg.wiring[i].policy == Block
    requires var s := Exec(cfg, es).value; forall i :: 0 <= i < |s.links| ==> !s.links[i].q.shutdown
    ensures Lossless(Exec(cfg, es).value)
  {
    AlwaysInv(cfg, es);
    var s := Exec(cfg, es).value;
    assert forall i :: 0 <= i < |s.links| ==> LinkInv(s.links[i], cfg.wiring[i]);
  }

  /**
   * Hop by hop, for stages of any kind: what a worker took is a subsequence of what its queue was
   * offered, every offered frame is taken, queued or lost, and each queue was offered a prefix of
   * what its stage emits for the frames it took.
   */
  lemma HopsInOrder(cfg: Config, es: seq<Event>)
    requires Sensible(cfg) && Exec(cfg, es).Some?
    ensures var s := Exec(cfg, es).value;
            && s.links[0].offered <= s.sourced
            && (forall i :: 0 < i < |s.links| ==> s.links[i].offered <= Emitted(cfg, i, s.links[i - 1].taken))
            && (forall i :: 0 <= i < |s.links| ==> HopKeepsOrder(s.links[i]))
  {
    AlwaysInv(cfg, es);
    var s := Exec(cfg, es).value;
    assert StageInv(cfg, s, 0);
    hide Emitted, LinkInv, StageInv;
    forall i | 0 < i < |s.links|
      ensures s.links[i].offered <= Emitted(cfg, i, s.links[i - 1].taken)
    {
      OfferedAtMostEmitted(cfg, s, i);
    }
    forall i | 0 <= i < |s.links|
      ensures HopKeepsOrder(s.links[i])
    {
      HopOf(s.links[i], cfg.wiring[i]);
    }
  }

  ghost predicate HopKeepsOrder(l: Link)
  {
    && Subseq(l.taken, l.offered)
    && multiset(l.offered) == multiset(l.taken) + multiset(l.q.items) + multiset(l.lost)
  }

  lemma HopOf(l: Link, entry: StageEntry)
    requires LinkInv(l, entry)
    ensures HopKeepsOrder(l)
  {
    TakenWithinOffered(l, entry);
  }
}
