/** Index arithmetic of the ring buffer, shared by the class and by the interleaved machine. */
module RingIndex {
  import Arith

  /** The slot k places after index i, by comparison instead of by remainder. */
  function Slot(i: nat, k: nat, capacity: nat): (r: nat)
    requires i < capacity && k < capacity
    ensures r < capacity
  {
    if k < capacity - i then i + k else k - (capacity - i)
  }

  /** Unread elements, as size(), pop_bulk and discard_bulk compute them. */
  function Available(head: nat, tail: nat, capacity: nat): nat
    requires head < capacity && tail < capacity
  {
    if head >= tail then head - tail else capacity - tail + head
  }

  /** Free slots, as push_bulk computes them: one slot always stays unused. */
  function Free(head: nat, tail: nat, capacity: nat): nat
    requires head < capacity && tail < capacity
  {
    if head >= tail then capacity - 1 - head + tail else tail - head - 1
  }

  /** The index that a publishing store writes. */
  function Advance(i: nat, n: nat, capacity: nat): nat
    requires capacity > 0
  {
    (i + n) % capacity
  }

  lemma AdvanceIsSlot(i: nat, n: nat, capacity: nat)
    requires i < capacity && n < capacity
    ensures Advance(i, n, capacity) == Slot(i, n, capacity)
  {
    if i + n < capacity {
      Arith.ModSmall(i + n, capacity);
    } else {
      Arith.DivModUnique(i + n, capacity, 1, i + n - capacity);
    }
  }

  /** head lies Available places after tail, and Free counts what is left below capacity - 1. */
  lemma HeadIsSlot(head: nat, tail: nat, capacity: nat)
    requires head < capacity && tail < capacity
    ensures Available(head, tail, capacity) < capacity
    ensures head == Slot(tail, Available(head, tail, capacity), capacity)
    ensures Free(head, tail, capacity) == capacity - 1 - Available(head, tail, capacity)
  {
  }

  lemma SlotDecides(tail: nat, m: nat, capacity: nat)
    requires tail < capacity && m < capacity
    ensures Available(Slot(tail, m, capacity), tail, capacity) == m
  {
  }

  lemma SlotCompose(i: nat, m: nat, k: nat, capacity: nat)
    requires i < capacity && m + k < capacity
    ensures Slot(Slot(i, m, capacity), k, capacity) == Slot(i, m + k, capacity)
  {
  }

  lemma SlotInjective(i: nat, j: nat, k: nat, capacity: nat)
    requires i < capacity && j < capacity && k < capacity && Slot(i, j, capacity) == Slot(i, k, capacity)
    ensures j == k
  {
  }

  /** push's full test is push_bulk's "no free slot". */
  lemma FullTest(head: nat, tail: nat, capacity: nat)
    requires head < capacity && tail < capacity
    ensures Advance(head, 1, capacity) == tail <==> Free(head, tail, capacity) == 0
  {
    if head + 1 < capacity {
      Arith.ModSmall(head + 1, capacity);
    } else {
      Arith.DivModUnique(capacity, capacity, 1, 0);
    }
  }
}
