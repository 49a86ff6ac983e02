/** InProcessQueue: a bounded FIFO of frames with three policies for a full queue. */
module InProcessQueue {
  import opened Frames

  datatype Policy = DropLatest | DropOldest | Block

  datatype Outcome = Accepted | Refused | MustWait

  /** Everything the mutex protects. */
  datatype Contents = Contents(items: seq<Frame>, shutdown: bool, enqueued: nat, dropped: nat)

  const EMPTY := Contents([], false, 0, 0)

  function Push(c: Contents, x: Frame): Contents
  {
    c.(items := c.items + [x], enqueued := c.enqueued + 1)
  }

  /** What one locked section of enqueue does; MustWait means the caller goes to sleep with its frame. */
  function Offer(c: Contents, capacity: nat, policy: Policy, x: Frame): (Contents, Outcome)
    requires capacity > 0
  {
    if |c.items| < capacity then (Push(c, x), Accepted)
    else match policy
      case DropLatest => (c.(dropped := c.dropped + 1), Refused)
      case DropOldest => (Push(c.(items := c.items[1..], dropped := c.dropped + 1), x), Accepted)
      case Block => if c.shutdown then (c, Refused) else (c, MustWait)
  }

  /** What a woken producer does when it holds the lock again. */
  function Resume(c: Contents, capacity: nat, x: Frame): (Contents, Outcome)
  {
    if |c.items| >= capacity && !c.shutdown then (c, MustWait)
    else if c.shutdown then (c, Refused)
    else (Push(c, x), Accepted)
  }

  /** The frames an Offer pushed out of the front of the queue. */
  function Evicted(c: Contents, capacity: nat, policy: Policy): seq<Frame>
    requires capacity > 0
  {
    if |c.items| >= capacity && policy == DropOldest then [c.items[0]] else []
  }

  class InProcessQueue {
    const capacity: nat
    const policy: Policy
    var queue: seq<Frame>
    var shutdown: bool
    var totalEnqueued: nat
    var totalDropped: nat

    ghost predicate Valid()
      reads this
    {
      0 < capacity && |queue| <= capacity
    }

    function View(): Contents
      reads this
    {
      Contents(queue, shutdown, totalEnqueued, totalDropped)
    }

    constructor (capacity: nat, policy: Policy)
      ensures Valid() && View() == EMPTY
      ensures this.capacity == (if capacity > 0 then capacity else 1) && this.policy == policy
    {
      this.capacity := if capacity > 0 then capacity else 1;
      this.policy := policy;
      queue, shutdown, totalEnqueued, totalDropped := [], false, 0, 0;
    }

    /** enqueue up to the point where it returns or has to sleep on the condition variable. */
    method Enqueue(item: Frame) returns (outcome: Outcome)
      requires Valid()
      modifies this
      ensures Valid()
      ensures (View(), outcome) == Offer(old(View()), capacity, policy, item)
      ensures shutdown == old(shutdown)
      ensures old(|queue|) < capacity ==>
                outcome == Accepted && queue == old(queue) + [item] &&
                totalEnqueued == old(totalEnqueued) + 1 && totalDropped == old(totalDropped)
      ensures old(|queue|) == capacity && policy == DropLatest ==>
                outcome == Refused && queue == old(queue) &&
                totalEnqueued == old(totalEnqueued) && totalDropped == old(totalDropped) + 1
      ensures old(|queue|) == capacity && policy == DropOldest ==>
                outcome == Accepted && queue == old(queue)[1..] + [item] &&
                totalEnqueued == old(totalEnqueued) + 1 && totalDropped == old(totalDropped) + 1
      ensures old(|queue|) == capacity && policy == Block ==>
                outcome == (if shutdown then Refused else MustWait) && View() == old(View())
    {
      if |queue| >= capacity {
        match policy
        case DropLatest =>
          totalDropped := totalDropped + 1;
          return Refused;
        case DropOldest =>
          queue := queue[1..];
          totalDropped := totalDropped + 1;
          queue := queue + [item];
          totalEnqueued := totalEnqueued + 1;
          return Accepted;
        case Block =>
          if !shutdown { return MustWait; }
          return Refused;
      }
      queue := queue + [item];
      totalEnqueued := totalEnqueued + 1;
      outcome := Accepted;
    }

    /** The rest of enqueue, run after a wake-up. */
    method WakeUp(item: Frame) returns (outcome: Outcome)
      requires Valid() && policy == Block
      modifies this
      ensures Valid()
      ensures (View(), outcome) == Resume(old(View()), capacity, item)
      ensures shutdown == old(shutdown) && totalDropped == old(totalDropped)
      ensures shutdown ==> outcome == Refused && View() == old(View())
      ensures !shutdown && old(|queue|) == capacity ==> outcome == MustWait && View() == old(View())
      ensures !shutdown && old(|queue|) < capacity ==>
                outcome == Accepted && queue == old(queue) + [item] && totalEnqueued == old(totalEnqueued) + 1
    {
      if !(|queue| < capacity || shutdown) { return MustWait; }
      if shutdown { return Refused; }
      queue := queue + [item];
      totalEnqueued := totalEnqueued + 1;
      outcome := Accepted;
    }

    method Dequeue() returns (front: Option<Frame>)
      requires Valid()
      modifies this`queue
      ensures Valid()
      ensures old(queue) == [] ==> front == None && queue == []
      ensures old(queue) != [] ==> front == Some(old(queue)[0]) && queue == old(queue)[1..]
    {
      if queue == [] { return None; }
      front := Some(queue[0]);
      queue := queue[1..];
    }

    method Shutdown()
      requires Valid()
      modifies this`shutdown
      ensures Valid() && View() == old(View()).(shutdown := true)
    {
      shutdown := true;
    }
  }
}
