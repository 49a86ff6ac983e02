/**
 * One producer thread and one consumer thread on the same ring, each call split into its loads,
 * its copies (one element at a time) and its publishing store, interleaved without restriction.
 */
module SpscRing {
  import opened Samples
  import opened RingIndex
  import opened RingBuffer
  import opened Frames

  /** A push or push_bulk call in progress. `consumedAtLoad` is how much was consumed when the tail was loaded. */
  datatype Producer =
    | PIdle
    | PLoadedHead(src: seq<int16>, head: nat)
    | PCopying(src: seq<int16>, head: nat, n: nat, copied: nat, ghost consumedAtLoad: nat)

  /** A pop, pop_bulk or discard_bulk call in progress; a discard copies nothing. */
  datatype Consumer =
    | CIdle
    | CLoadedTail(max: nat, keep: bool, tail: nat)
    | CCopying(keep: bool, tail: nat, n: nat, out: seq<int16>)

  /** Shared memory, both threads' locals, and as history everything published and how much of it was consumed. */
  datatype State = State(
    data: seq<int16>, head: nat, tail: nat, producer: Producer, consumer: Consumer,
    ghost stream: seq<int16>, ghost consumed: nat)

  datatype Event =
    | PushCall(src: seq<int16>)
    | LoadTail
    | CopyIn
    | PublishHead
    | PopCall(max: nat, keep: bool)
    | LoadHead
    | CopyOut
    | PublishTail

  predicate Shaped(s: State)
  {
    s.head < |s.data| && s.tail < |s.data|
  }

  predicate Enabled(s: State, e: Event)
  {
    && Shaped(s)
    && match e
       case PushCall(src) => s.producer.PIdle? && src != []
       case LoadTail => s.producer.PLoadedHead? && s.producer.head < |s.data|
       case CopyIn =>
         s.producer.PCopying? && s.producer.copied < s.producer.n <= |s.producer.src| &&
         s.producer.copied < |s.data| && s.producer.head < |s.data|
       case PublishHead => s.producer.PCopying? && s.producer.copied == s.producer.n
       case PopCall(max, _) => s.consumer.CIdle? && max > 0
       case LoadHead => s.consumer.CLoadedTail? && s.consumer.tail < |s.data|
       case CopyOut =>
         s.consumer.CCopying? && s.consumer.keep && |s.consumer.out| < s.consumer.n &&
         |s.consumer.out| < |s.data| && s.consumer.tail < |s.data|
       case PublishTail => s.consumer.CCopying? && (s.consumer.keep ==> |s.consumer.out| == s.consumer.n)
  }

  ghost function Next(s: State, e: Event): State
    requires Enabled(s, e)
  {
    var cap := |s.data|;
    match e
    case PushCall(src) => s.(producer := PLoadedHead(src, s.head))
    case LoadTail =>
      var p := s.producer;
      var n := Min(|p.src|, Free(p.head, s.tail, cap));
      s.(producer := if n == 0 then PIdle else PCopying(p.src, p.head, n, 0, s.consumed))
    case CopyIn =>
      var p := s.producer;
      s.(data := s.data[Slot(p.head, p.copied, cap) := p.src[p.copied]], producer := p.(copied := p.copied + 1))
    case PublishHead =>
      var p := s.producer;
      s.(head := Advance(p.head, p.n, cap), producer := PIdle,
         stream := s.stream + if p.n <= |p.src| then p.src[..p.n] else [])
    case PopCall(max, keep) => s.(consumer := CLoadedTail(max, keep, s.tail))
    case LoadHead =>
      var c := s.consumer;
      var n := Min(c.max, Available(s.head, c.tail, cap));
      s.(consumer := if n == 0 then CIdle else CCopying(c.keep, c.tail, n, []))
    case CopyOut =>
      var c := s.consumer;
      s.(consumer := c.(out := c.out + [s.data[Slot(c.tail, |c.out|, cap)]]))
    case PublishTail =>
      var c := s.consumer;
      s.(tail := Advance(c.tail, c.n, cap), consumer := CIdle, consumed := s.consumed + c.n)
  }

  ghost predicate IsInit(s: State, capacity: nat)
  {
    |s.data| == capacity && capacity > 0 && s.head == s.tail == 0 &&
    s.producer == PIdle && s.consumer == CIdle && s.stream == [] && s.consumed == 0
  }

  /** The states that some sequence of events leads to from s. */
  ghost function Exec(s: State, es: seq<Event>): Option<State>
  {
    if es == [] then Some(s)
    else
      match Exec(s, es[..|es| - 1])
      case None => None
      case Some(t) => if Enabled(t, es[|es| - 1]) then Some(Next(t, es[|es| - 1])) else None
  }

  // ---- The invariant ----

  ghost function Unconsumed(s: State): int { |s.stream| - s.consumed }

  /** The abstract FIFO: published and not yet consumed. */
  ghost function Fifo(s: State): (f: seq<int16>)
    requires s.consumed <= |s.stream|
    ensures |f| == Unconsumed(s)
  {
    s.stream[s.consumed..]
  }

  ghost predicate MemoryInv(s: State)
  {
    && Shaped(s)
    && 0 <= Unconsumed(s) < |s.data|
    && s.head == Slot(s.tail, Unconsumed(s), |s.data|)
    && Unread(s.data, s.tail, Unconsumed(s)) == Fifo(s)
  }

  /** The producer's snapshot of the tail may be stale, so the room it counted on is really there. */
  ghost predicate ProducerInv(s: State)
    requires MemoryInv(s)
  {
    match s.producer
    case PIdle => true
    case PLoadedHead(src, head) => head == s.head && src != []
    case PCopying(src, head, n, copied, consumedAtLoad) =>
      && head == s.head && 0 < n && copied <= n
      && consumedAtLoad <= s.consumed && |s.stream| - consumedAtLoad < |s.data|
      && n == Min(|src|, |s.data| - 1 - (|s.stream| - consumedAtLoad))
      && forall k :: 0 <= k < copied ==> s.data[Slot(head, k, |s.data|)] == src[k]
  }

  /** What the consumer has seen as available has been published, and its copies are faithful. */
  ghost predicate ConsumerInv(s: State)
    requires MemoryInv(s)
  {
    match s.consumer
    case CIdle => true
    case CLoadedTail(max, _, tail) => tail == s.tail && max > 0
    case CCopying(keep, tail, n, out) =>
      && tail == s.tail && 0 < n <= Unconsumed(s)
      && |out| <= n && out == Fifo(s)[..|out|]
  }

  ghost predicate Inv(s: State)
  {
    MemoryInv(s) && ProducerInv(s) && ConsumerInv(s)
  }

  /** The slot being written is not one that holds a published, unconsumed sample. */
  lemma WritesOutsideUnread(s: State, i: nat)
    requires Inv(s) && Enabled(s, CopyIn) && i < Unconsumed(s)
    ensures Slot(s.producer.head, s.producer.copied, |s.data|) != Slot(s.tail, i, |s.data|)
  {
    OutsideUnread(s.tail, Unconsumed(s), s.producer.n, |s.data|);
  }

  /** Every slot the consumer reads holds a published sample, at any moment of the producer's copy. */
  lemma ReadsPublished(s: State)
    requires Inv(s) && Enabled(s, CopyOut)
    ensures |s.consumer.out| < Unconsumed(s)
    ensures s.data[Slot(s.consumer.tail, |s.consumer.out|, |s.data|)] == s.stream[s.consumed + |s.consumer.out|]
  {
    var k := |s.consumer.out|;
    assert Unread(s.data, s.tail, Unconsumed(s))[k] == Fifo(s)[k];
  }

  lemma CopyInKeeps(s: State)
    requires Inv(s) && Enabled(s, CopyIn)
    ensures Inv(Next(s, CopyIn))
  {
    var t, p, cap := Next(s, CopyIn), s.producer, |s.data|;
    var w := Slot(p.head, p.copied, cap);
    forall i | 0 <= i < Unconsumed(s)
      ensures Unread(t.data, s.tail, Unconsumed(s))[i] == Fifo(s)[i]
    {
      WritesOutsideUnread(s, i);
      assert Unread(s.data, s.tail, Unconsumed(s))[i] == Fifo(s)[i];
    }
    forall k | 0 <= k < p.copied
      ensures t.data[Slot(p.head, k, cap)] == p.src[k]
    {
      if Slot(p.head, k, cap) == w {
        SlotInjective(p.head, k, p.copied, cap);
      }
    }
  }

  lemma PublishHeadKeeps(s: State)
    requires Inv(s) && Enabled(s, PublishHead)
    ensures Inv(Next(s, PublishHead))
  {
    var t, p, cap, m := Next(s, PublishHead), s.producer, |s.data|, Unconsumed(s);
    AdvanceIsSlot(p.head, p.n, cap);
    SlotCompose(s.tail, m, p.n, cap);
    FillAppends(s.data, s.data, s.tail, m, p.src[..p.n]);
    assert Fifo(t) == Fifo(s) + p.src[..p.n];
  }

  lemma PublishTailKeeps(s: State)
    requires Inv(s) && Enabled(s, PublishTail)
    ensures Inv(Next(s, PublishTail))
  {
    var t, c, cap, m := Next(s, PublishTail), s.consumer, |s.data|, Unconsumed(s);
    AdvanceIsSlot(c.tail, c.n, cap);
    SlotCompose(s.tail, c.n, m - c.n, cap);
    AdvanceDrops(s.data, s.tail, m, c.n);
    assert Fifo(t) == Fifo(s)[c.n..];
  }

  lemma CopyOutKeeps(s: State)
    requires Inv(s) && Enabled(s, CopyOut)
    ensures Inv(Next(s, CopyOut))
  {
    ReadsPublished(s);
    var k := |s.consumer.out|;
    assert Fifo(s)[..k + 1] == Fifo(s)[..k] + [Fifo(s)[k]];
  }

  lemma LoadsKeep(s: State, e: Event)
    requires Inv(s) && Enabled(s, e) && (e == LoadTail || e == LoadHead || e.PushCall? || e.PopCall?)
    ensures Inv(Next(s, e))
  {
    HeadIsSlot(s.head, s.tail, |s.data|);
    SlotDecides(s.tail, Unconsumed(s), |s.data|);
  }

  lemma {:induction false} AlwaysInv(s: State, capacity: nat, es: seq<Event>)
    requires IsInit(s, capacity)
    ensures Exec(s, es).Some? ==> Inv(Exec(s, es).value) && |Exec(s, es).value.data| == capacity
  {
    if es != [] {
      AlwaysInv(s, capacity, es[..|es| - 1]);
      match Exec(s, es[..|es| - 1])
      case None =>
      case Some(t) =>
        var e := es[|es| - 1];
        if Enabled(t, e) {
          StepKeeps(t, e);
        }
    }
  }

  lemma StepKeeps(s: State, e: Event)
    requires Inv(s) && Enabled(s, e)
    ensures Inv(Next(s, e)) && |Next(s, e).data| == |s.data|
  {
    hide Inv;
    match e
    case CopyIn => CopyInKeeps(s);
    case PublishHead => PublishHeadKeeps(s);
    case PublishTail => PublishTailKeeps(s);
    case CopyOut => CopyOutKeeps(s);
    case PushCall(_) => LoadsKeep(s, e);
    case LoadTail => LoadsKeep(s, e);
    case PopCall(_, _) => LoadsKeep(s, e);
    case LoadHead => LoadsKeep(s, e);
  }

  // ---- Refinement of an atomic bounded FIFO ----

  /** What one step does to the FIFO of capacity - 1 samples, seen from outside. */
  ghost predicate FifoStep(s: State, e: Event, t: State)
    requires s.consumed <= |s.stream| && t.consumed <= |t.stream|
  {
    match e
    case PublishHead =>
      s.producer.PCopying? && s.producer.n <= |s.producer.src| && Fifo(t) == Fifo(s) + s.producer.src[..s.producer.n]
    case PublishTail =>
      s.consumer.CCopying? && s.consumer.n <= |Fifo(s)| && Fifo(t) == Fifo(s)[s.consumer.n..] &&
      (s.consumer.keep ==> s.consumer.out == Fifo(s)[..s.consumer.n])
    case _ => Fifo(t) == Fifo(s)
  }

  /**
   * Every step of every interleaving is an atomic FIFO step: a publishing store appends the pushed
   * prefix or removes exactly what the consumer got, any other step changes nothing, and the FIFO
   * never holds more than capacity - 1 samples.
   */
  lemma RefinesFifo(s: State, capacity: nat, es: seq<Event>, e: Event)
    requires IsInit(s, capacity) && Exec(s, es).Some? && Enabled(Exec(s, es).value, e)
    ensures var t := Exec(s, es).value; var u := Next(t, e);
            && t.consumed <= |t.stream| && u.consumed <= |u.stream|
            && FifoStep(t, e, u)
            && |Fifo(u)| <= capacity - 1
  {
    AlwaysInv(s, capacity, es);
    var t := Exec(s, es).value;
    hide *;
    StepKeeps(t, e);
    StepIsFifoStep(t, e);
    InvBounds(t);
    InvBounds(Next(t, e));
  }

  lemma InvBounds(s: State)
    requires Inv(s)
    ensures s.consumed <= |s.stream| && |Fifo(s)| <= |s.data| - 1
  {
  }

  lemma StepIsFifoStep(s: State, e: Event)
    requires Inv(s) && Enabled(s, e) && Next(s, e).consumed <= |Next(s, e).stream|
    ensures FifoStep(s, e, Next(s, e))
  {
    hide Slot, Unread, Free, Available, Advance;
    var t := Next(s, e);
    match e
    case PublishHead => assert Fifo(t) == Fifo(s) + s.producer.src[..s.producer.n];
    case PublishTail => assert Fifo(t) == Fifo(s)[s.consumer.n..];
    case _ =>
  }

  /** A push stores as much as was free when it loaded the tail: it fails only if the FIFO was then full. */
  lemma PushIsGreedyAtLoad(s: State, capacity: nat, es: seq<Event>)
    requires IsInit(s, capacity) && Exec(s, es).Some? && Enabled(Exec(s, es).value, LoadTail)
    ensures var t := Exec(s, es).value; var u := Next(t, LoadTail);
            && t.consumed <= |t.stream| && |Fifo(t)| <= capacity - 1
            && (u.producer == PIdle <==> |Fifo(t)| == capacity - 1)
            && (u.producer != PIdle ==>
                  u.producer.PCopying? && u.producer.n == Min(|t.producer.src|, capacity - 1 - |Fifo(t)|))
  {
    AlwaysInv(s, capacity, es);
    var t := Exec(s, es).value;
    hide Exec;
    HeadIsSlot(t.head, t.tail, |t.data|);
    SlotDecides(t.tail, Unconsumed(t), |t.data|);
  }

  /** A pop takes as much as was published when it loaded the head: it fails only if the FIFO was then empty. */
  lemma PopIsGreedyAtLoad(s: State, capacity: nat, es: seq<Event>)
    requires IsInit(s, capacity) && Exec(s, es).Some? && Enabled(Exec(s, es).value, LoadHead)
    ensures var t := Exec(s, es).value; var u := Next(t, LoadHead);
            && t.consumed <= |t.stream|
            && (u.consumer == CIdle <==> Fifo(t) == [])
            && (u.consumer != CIdle ==> u.consumer.CCopying? && u.consumer.n == Min(t.consumer.max, |Fifo(t)|))
  {
    AlwaysInv(s, capacity, es);
    var t := Exec(s, es).value;
    hide Exec;
    HeadIsSlot(t.head, t.tail, |t.data|);
    SlotDecides(t.tail, Unconsumed(t), |t.data|);
  }

  /** The whole published stream is what was pushed, in order: consuming and copying never alter it. */
  lemma StreamGrows(s: State, e: Event)
    requires Inv(s) && Enabled(s, e)
    ensures s.stream <= Next(s, e).stream && s.consumed <= Next(s, e).consumed
  {
  }
}
