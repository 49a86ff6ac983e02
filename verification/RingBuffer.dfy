/** RingBufferView over an array, one call at a time: a bounded FIFO of capacity - 1 samples. */
module RingBuffer {
  import opened Samples
  import opened RingIndex

  function Min(a: nat, b: nat): nat { if a <= b then a else b }

  /** The n samples from slot tail on. */
  function Unread(slots: seq<int16>, tail: nat, n: nat): (c: seq<int16>)
    requires tail < |slots| && n < |slots|
    ensures |c| == n
  {
    seq(n, i requires 0 <= i < n => slots[Slot(tail, i, |slots|)])
  }

  /** Filling the slots after the unread samples appends to them. */
  lemma FillAppends(slots: seq<int16>, filled: seq<int16>, tail: nat, n: nat, src: seq<int16>)
    requires |filled| == |slots| && tail < |slots| && n + |src| < |slots|
    requires forall i :: 0 <= i < n ==> filled[Slot(tail, i, |slots|)] == slots[Slot(tail, i, |slots|)]
    requires forall k :: 0 <= k < |src| ==> filled[Slot(Slot(tail, n, |slots|), k, |slots|)] == src[k]
    ensures Unread(filled, tail, n + |src|) == Unread(slots, tail, n) + src
  {
    forall i | 0 <= i < n + |src|
      ensures Unread(filled, tail, n + |src|)[i] == (Unread(slots, tail, n) + src)[i]
    {
      if i >= n {
        SlotCompose(tail, n, i - n, |slots|);
      }
    }
  }

  /** Advancing the tail drops the oldest samples. */
  lemma AdvanceDrops(slots: seq<int16>, tail: nat, m: nat, n: nat)
    requires tail < |slots| && n <= m < |slots|
    ensures Unread(slots, Slot(tail, n, |slots|), m - n) == Unread(slots, tail, m)[n..]
  {
    forall i | 0 <= i < m - n
      ensures Slot(Slot(tail, n, |slots|), i, |slots|) == Slot(tail, n + i, |slots|)
    {
      SlotCompose(tail, n, i, |slots|);
    }
  }

  class RingBufferView {
    const data: array<int16>
    const capacity: nat
    var head: nat
    var tail: nat

    ghost predicate Valid()
      reads this
    {
      0 < capacity == data.Length && head < capacity && tail < capacity
    }

    /** The unread samples, oldest first. */
    ghost function Contents(): (c: seq<int16>)
      requires Valid()
      reads this, data
      ensures |c| == Available(head, tail, capacity) < capacity
    {
      Unread(data[..], tail, Available(head, tail, capacity))
    }

    constructor (capacity: nat)
      requires capacity > 0
      ensures Valid() && Contents() == [] && this.capacity == capacity && fresh(data)
    {
      data := new int16[capacity];
      this.capacity := capacity;
      head, tail := 0, 0;
    }

    method Push(item: int16) returns (ok: bool)
      requires Valid()
      modifies this`head, data
      ensures Valid()
      ensures ok <==> |old(Contents())| < capacity - 1
      ensures Contents() == old(Contents()) + if ok then [item] else []
    {
      FullTest(head, tail, capacity);
      HeadIsSlot(head, tail, capacity);
      var next := Advance(head, 1, capacity);
      if next == tail { return false; }
      ghost var slots, n := data[..], Available(head, tail, capacity);
      OutsideUnread(tail, n, 1, capacity);
      data[head] := item;
      FillAppends(slots, data[..], tail, n, [item]);
      MoveHead(n, 1);
      head := next;
      ok := true;
    }

    /** Where the head ends up after n unread and m new samples. */
    lemma MoveHead(n: nat, m: nat)
      requires Valid() && n == Available(head, tail, capacity) && n + m < capacity
      ensures Advance(head, m, capacity) < capacity
      ensures Available(Advance(head, m, capacity), tail, capacity) == n + m
    {
      HeadIsSlot(head, tail, capacity);
      AdvanceIsSlot(head, m, capacity);
      SlotCompose(tail, n, m, capacity);
      SlotDecides(tail, n + m, capacity);
    }

    /** The two copies: up to the end of the array, then from its start. */
    method CopyIn(src: seq<int16>, count: nat)
      requires Valid() && count <= |src| && count < capacity
      modifies data
      ensures forall k :: 0 <= k < count ==> data[Slot(head, k, capacity)] == src[k]
      ensures forall i :: 0 <= i < capacity && (forall k :: 0 <= k < count ==> i != Slot(head, k, capacity)) ==>
                data[i] == old(data[i])
    {
      var first := Min(count, capacity - head);
      forall k | 0 <= k < first {
        data[head + k] := src[k];
      }
      if count > first {
        forall k | first <= k < count {
          data[k - first] := src[k];
        }
      }
    }

    method PushBulk(src: seq<int16>) returns (pushed: nat)
      requires Valid()
      modifies this`head, data
      ensures Valid()
      ensures pushed == Min(|src|, capacity - 1 - |old(Contents())|)
      ensures Contents() == old(Contents()) + src[..pushed]
    {
      HeadIsSlot(head, tail, capacity);
      if |src| == 0 { return 0; }
      pushed := Min(|src|, Free(head, tail, capacity));
      if pushed == 0 { return; }
      ghost var slots, n := data[..], Available(head, tail, capacity);
      OutsideUnread(tail, n, pushed, capacity);
      CopyIn(src, pushed);
      hide Slot, Available, Free, Unread, Advance;
      FillAppends(slots, data[..], tail, n, src[..pushed]);
      MoveHead(n, pushed);
      head := Advance(head, pushed, capacity);
    }

    method Pop() returns (ok: bool, item: int16)
      requires Valid()
      modifies this`tail
      ensures Valid()
      ensures ok <==> old(Contents()) != []
      ensures ok ==> [item] + Contents() == old(Contents())
      ensures !ok ==> Contents() == old(Contents())
    {
      HeadIsSlot(head, tail, capacity);
      if tail == head { return false, 0; }
      ghost var before := Contents();
      item := data[tail];
      Release(1);
      assert before == before[..1] + before[1..];
      ok := true;
    }

    /** The tail update that pop, pop_bulk and discard_bulk end with. */
    method Release(n: nat)
      requires Valid() && n <= |Contents()|
      modifies this`tail
      ensures Valid() && Contents() == old(Contents())[n..]
    {
      ghost var m := |Contents()|;
      HeadIsSlot(head, tail, capacity);
      AdvanceIsSlot(tail, n, capacity);
      SlotCompose(tail, n, m - n, capacity);
      SlotDecides(Slot(tail, n, capacity), m - n, capacity);
      AdvanceDrops(data[..], tail, m, n);
      tail := Advance(tail, n, capacity);
    }

    method PopBulk(out: array<int16>, maxCount: nat) returns (popped: nat)
      requires Valid() && maxCount <= out.Length && out != data
      modifies this`tail, out
      ensures Valid()
      ensures popped == Min(maxCount, |old(Contents())|)
      ensures out[..popped] == old(Contents())[..popped] && out[popped..] == old(out[popped..])
      ensures Contents() == old(Contents())[popped..]
    {
      if maxCount == 0 { return 0; }
      popped := Min(maxCount, Available(head, tail, capacity));
      if popped == 0 { return; }
      ghost var before := Contents();
      CopyOut(out, popped);
      assert before == Contents();
      hide Contents, Slot, Available;
      Release(popped);
    }

    /** The two copies: up to the end of the array, then from its start. */
    method CopyOut(out: array<int16>, count: nat)
      requires Valid() && count <= |Contents()| && count <= out.Length && out != data
      modifies out
      ensures out[..count] == Contents()[..count] && out[count..] == old(out[count..])
    {
      ghost var unread := Contents();
      var first := Min(count, capacity - tail);
      forall k | 0 <= k < first {
        out[k] := data[tail + k];
      }
      if count > first {
        forall k | first <= k < count {
          out[k] := data[k - first];
        }
      }
      assert forall k :: 0 <= k < count ==> out[k] == unread[k];
    }

    /** discard_bulk: as pop_bulk, without copying anything out. */
    method DiscardBulk(maxCount: nat) returns (discarded: nat)
      requires Valid()
      modifies this`tail
      ensures Valid()
      ensures discarded == Min(maxCount, |old(Contents())|)
      ensures Contents() == old(Contents())[discarded..]
    {
      if maxCount == 0 { return 0; }
      discarded := Min(maxCount, Available(head, tail, capacity));
      if discarded == 0 { return; }
      Release(discarded);
    }

    method Size() returns (n: nat)
      requires Valid()
      ensures n == |Contents()|
    {
      n := Available(head, tail, capacity);
    }
  }

  /** The slots a producer fills are none of the unread ones. */
  lemma OutsideUnread(tail: nat, n: nat, m: nat, capacity: nat)
    requires tail < capacity && n + m < capacity
    ensures forall i, k :: 0 <= i < n && 0 <= k < m ==>
      Slot(tail, i, capacity) != Slot(Slot(tail, n, capacity), k, capacity)
  {
    forall i, k | 0 <= i < n && 0 <= k < m
      ensures Slot(tail, i, capacity) != Slot(Slot(tail, n, capacity), k, capacity)
    {
      SlotCompose(tail, n, k, capacity);
    }
  }

  // ---- A bulk call is the single call, repeated until it fails or everything is done ----

  function PushEach(contents: seq<int16>, capacity: nat, src: seq<int16>): (seq<int16>, nat)
    requires |contents| < capacity
    decreases |src|
  {
    if src == [] || |contents| >= capacity - 1 then (contents, 0)
    else
      var (after, n) := PushEach(contents + [src[0]], capacity, src[1..]);
      (after, n + 1)
  }

  lemma {:induction false} BulkIsRepeatedPush(contents: seq<int16>, capacity: nat, src: seq<int16>)
    requires |contents| < capacity
    ensures var n := Min(|src|, capacity - 1 - |contents|);
            PushEach(contents, capacity, src) == (contents + src[..n], n)
    decreases |src|
  {
    var n := Min(|src|, capacity - 1 - |contents|);
    if n == 0 {
      assert contents + src[..0] == contents;
    } else {
      BulkIsRepeatedPush(contents + [src[0]], capacity, src[1..]);
      assert contents + [src[0]] + src[1..][..n - 1] == contents + src[..n];
    }
  }

  /** What is left, and what came out, after popping one sample at a time. */
  function PopEach(contents: seq<int16>, maxCount: nat): (seq<int16>, seq<int16>)
    decreases maxCount
  {
    if maxCount == 0 || contents == [] then (contents, [])
    else
      var (left, out) := PopEach(contents[1..], maxCount - 1);
      (left, [contents[0]] + out)
  }

  lemma {:induction false} BulkIsRepeatedPop(contents: seq<int16>, maxCount: nat)
    ensures var n := Min(maxCount, |contents|);
            PopEach(contents, maxCount) == (contents[n..], contents[..n])
    decreases maxCount
  {
    var n := Min(maxCount, |contents|);
    if n > 0 {
      BulkIsRepeatedPop(contents[1..], maxCount - 1);
      assert contents[1..][n - 1..] == contents[n..];
      assert [contents[0]] + contents[1..][..n - 1] == contents[..n];
    }
  }
}
