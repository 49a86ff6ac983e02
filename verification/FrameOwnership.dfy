/** Frame: move-only ownership of sample data, owned or borrowed, and the release of what was borrowed. */
module FrameOwnership {
  import opened Samples
  import opened Frames
  import opened InProcessQueue

  /** The ownership part of a frame. A borrowed buffer is named by a number standing for its address. */
  datatype Rep = Rep(borrowed: bool, ownedData: seq<int16>, ptr: Option<nat>, hasCallback: bool)

  /** A default or moved-from frame. */
  const MOVED_FROM := Rep(false, [], None, false)

  function Owning(data: seq<int16>): Rep { Rep(false, data, None, false) }

  function Borrowing(ptr: Option<nat>, hasCallback: bool): Rep { Rep(true, [], ptr, hasCallback) }

  /** The buffers that releasing this frame would hand back: one, or none. */
  function Due(r: Rep): multiset<nat>
  {
    if r.borrowed && r.hasCallback && r.ptr.Some? then multiset{r.ptr.value} else multiset{}
  }

  /** release_borrowed: afterwards nothing is due any more. */
  function AfterRelease(r: Rep): Rep
  {
    r.(ptr := None, hasCallback := false)
  }

  /** The calls that release callbacks have received. */
  class ReleaseLog {
    var released: multiset<nat>

    constructor ()
      ensures released == multiset{}
    {
      released := multiset{};
    }
  }

  class Frame {
    var borrowed: bool
    var ownedData: seq<int16>
    var borrowedPtr: Option<nat>
    var hasCallback: bool

    function View(): Rep
      reads this
    {
      Rep(borrowed, ownedData, borrowedPtr, hasCallback)
    }

    constructor MakeOwned(data: seq<int16>)
      ensures View() == Owning(data)
    {
      borrowed, ownedData, borrowedPtr, hasCallback := false, data, None, false;
    }

    constructor MakeBorrowed(ptr: Option<nat>, callback: bool)
      ensures View() == Borrowing(ptr, callback)
      ensures Due(View()) == if ptr.Some? && callback then multiset{ptr.value} else multiset{}
    {
      borrowed, ownedData, borrowedPtr, hasCallback := true, [], ptr, callback;
    }

    /** Frame(Frame&&). */
    constructor Move(other: Frame)
      modifies other
      ensures View() == old(other.View()) && other.View() == MOVED_FROM
    {
      borrowed, ownedData := other.borrowed, other.ownedData;
      borrowedPtr, hasCallback := other.borrowedPtr, other.hasCallback;
      new;
      other.Nullify();
    }

    method Nullify()
      modifies this
      ensures View() == MOVED_FROM
    {
      ownedData, borrowedPtr, hasCallback, borrowed := [], None, false, false;
    }

    method ReleaseBorrowed(log: ReleaseLog)
      modifies this, log
      ensures View() == AfterRelease(old(View()))
      ensures log.released == old(log.released) + Due(old(View()))
    {
      if borrowed && hasCallback && borrowedPtr.Some? {
        log.released := log.released + multiset{borrowedPtr.value};
      }
      hasCallback, borrowedPtr := false, None;
    }

    /** operator=(Frame&&); assigning a frame to itself does nothing. */
    method Assign(other: Frame, log: ReleaseLog)
      modifies this, other, log
      ensures this == other ==> View() == old(View()) && log.released == old(log.released)
      ensures this != other ==> View() == old(other.View()) && other.View() == MOVED_FROM
      ensures this != other ==> log.released == old(log.released) + Due(old(View()))
    {
      if this != other {
        ReleaseBorrowed(log);
        borrowed, ownedData := other.borrowed, other.ownedData;
        borrowedPtr, hasCallback := other.borrowedPtr, other.hasCallback;
        other.Nullify();
      }
    }

    /** ~Frame(). */
    method Destroy(log: ReleaseLog)
      modifies this, log
      ensures View() == AfterRelease(old(View())) && Due(View()) == multiset{}
      ensures log.released == old(log.released) + Due(old(View()))
    {
      ReleaseBorrowed(log);
    }

    /** to_owned(): a deep copy that owes no release; the original keeps what it borrows. */
    method ToOwned(borrowedData: seq<int16>) returns (copy: Frame)
      ensures fresh(copy) && copy.View() == Owning(if borrowed then borrowedData else ownedData)
      ensures View() == old(View()) && Due(copy.View()) == multiset{}
    {
      copy := new Frame.MakeOwned(if borrowed then borrowedData else ownedData);
    }
  }

  // ---- Whole programs over frames and one queue ----

  /** Frame variables (None once destroyed), the queue's frames, and the history of borrows and releases. */
  datatype State = State(vars: seq<Option<Rep>>, queue: seq<Rep>, lent: multiset<nat>, released: multiset<nat>)

  datatype Op =
    | NewOwned(data: seq<int16>)
    | Borrow(ptr: Option<nat>, callback: bool)
    | CopyOwned(i: nat, data: seq<int16>)
    | MoveNew(i: nat)
    | MoveAssign(i: nat, j: nat)
    | Destroy(i: nat)
    | Enqueue(i: nat)
    | Dequeue
    | DestroyQueue

  datatype Config = Config(capacity: nat, policy: Policy)

  const START := State([], [], multiset{}, multiset{})

  predicate Live(s: State, i: nat)
  {
    i < |s.vars| && s.vars[i].Some?
  }

  predicate Enabled(s: State, op: Op)
  {
    match op
    case NewOwned(_) => true
    case Borrow(_, _) => true
    case CopyOwned(i, _) => Live(s, i)
    case MoveNew(i) => Live(s, i)
    case MoveAssign(i, j) => Live(s, i) && Live(s, j)
    case Destroy(i) => Live(s, i)
    case Enqueue(i) => Live(s, i)
    case Dequeue => true
    case DestroyQueue => true
  }

  /** Move the frame of variable i to the back of the queue. */
  function PushMoved(s: State, i: nat): State
    requires Live(s, i)
  {
    s.(queue := s.queue + [s.vars[i].value], vars := s.vars[i := Some(MOVED_FROM)])
  }

  function DropFront(s: State): State
    requires s.queue != []
  {
    s.(queue := s.queue[1..], released := s.released + Due(s.queue[0]))
  }

  function Step(cfg: Config, s: State, op: Op): State
    requires cfg.capacity > 0 && Enabled(s, op)
  {
    match op
    case NewOwned(data) => s.(vars := s.vars + [Some(Owning(data))])
    case Borrow(ptr, callback) =>
      s.(vars := s.vars + [Some(Borrowing(ptr, callback))], lent := s.lent + Due(Borrowing(ptr, callback)))
    case CopyOwned(_, data) => s.(vars := s.vars + [Some(Owning(data))])
    case MoveNew(i) => s.(vars := s.vars[i := Some(MOVED_FROM)] + [s.vars[i]])
    case MoveAssign(i, j) =>
      if i == j then s
      else s.(vars := s.vars[i := s.vars[j]][j := Some(MOVED_FROM)], released := s.released + Due(s.vars[i].value))
    case Destroy(i) => s.(vars := s.vars[i := None], released := s.released + Due(s.vars[i].value))
    case Enqueue(i) =>
      if |s.queue| < cfg.capacity then PushMoved(s, i)
      else if cfg.policy == DropOldest && s.queue != [] then PushMoved(DropFront(s), i)
      else s  // refused, or asleep: the frame stays with the caller
    case Dequeue =>
      if s.queue == [] then s
      else s.(vars := s.vars + [Some(s.queue[0])], queue := s.queue[1..])
    case DestroyQueue => s.(queue := [], released := s.released + DueAll(s.queue))
  }

  function DueAll(reps: seq<Rep>): multiset<nat>
  {
    if reps == [] then multiset{} else DueAll(reps[..|reps| - 1]) + Due(reps[|reps| - 1])
  }

  function DueVar(v: Option<Rep>): multiset<nat>
  {
    if v.Some? then Due(v.value) else multiset{}
  }

  function DueVars(vars: seq<Option<Rep>>): multiset<nat>
  {
    if vars == [] then multiset{} else DueVars(vars[..|vars| - 1]) + DueVar(vars[|vars| - 1])
  }

  /** The state after a program, or None if an operation names a variable that is not live. */
  function Run(cfg: Config, ops: seq<Op>): Option<State>
    requires cfg.capacity > 0
  {
    if ops == [] then Some(START)
    else
      match Run(cfg, ops[..|ops| - 1])
      case None => None
      case Some(s) => if Enabled(s, ops[|ops| - 1]) then Some(Step(cfg, s, ops[|ops| - 1])) else None
  }

  /** Every buffer lent with a callback is due at a live frame, or was released; counted exactly. */
  ghost predicate Balanced(s: State)
  {
    forall b :: s.lent[b] == s.released[b] + DueVars(s.vars)[b] + DueAll(s.queue)[b]
  }

  lemma {:induction false} DueVarsUpdate(vars: seq<Option<Rep>>, i: nat, v: Option<Rep>, b: nat)
    requires i < |vars|
    ensures DueVars(vars[i := v])[b] + DueVar(vars[i])[b] == DueVars(vars)[b] + DueVar(v)[b]
  {
    hide DueVar;
    var m := |vars| - 1;
    if i < m {
      assert vars[i := v][..m] == vars[..m][i := v];
      DueVarsUpdate(vars[..m], i, v, b);
    } else {
      assert vars[i := v][..m] == vars[..m];
    }
  }

  lemma DueVarsPush(vars: seq<Option<Rep>>, v: Option<Rep>)
    ensures DueVars(vars + [v]) == DueVars(vars) + DueVar(v)
  {
    assert (vars + [v])[..|vars|] == vars;
  }

  lemma DueAllPush(reps: seq<Rep>, r: Rep)
    ensures DueAll(reps + [r]) == DueAll(reps) + Due(r)
  {
    assert (reps + [r])[..|reps|] == reps;
  }

  lemma {:induction false} DueAllFront(reps: seq<Rep>, b: nat)
    requires reps != []
    ensures DueAll(reps)[b] == Due(reps[0])[b] + DueAll(reps[1..])[b]
  {
    hide Due;
    var m := |reps| - 1;
    if m == 0 {
      assert reps[..0] == [] && reps[1..] == [];
    } else {
      DueAllFront(reps[..m], b);
      assert reps[1..][..m - 1] == reps[..m][1..];
    }
  }

  lemma PushMovedBalances(s: State, i: nat)
    requires Balanced(s) && Live(s, i)
    ensures Balanced(PushMoved(s, i))
  {
    DueAllPush(s.queue, s.vars[i].value);
    forall b
      ensures PushMoved(s, i).lent[b] ==
              s.released[b] + DueVars(PushMoved(s, i).vars)[b] + DueAll(PushMoved(s, i).queue)[b]
    {
      DueVarsUpdate(s.vars, i, Some(MOVED_FROM), b);
    }
  }

  lemma DropFrontBalances(s: State)
    requires Balanced(s) && s.queue != []
    ensures Balanced(DropFront(s))
  {
    var t := DropFront(s);
    forall b
      ensures t.lent[b] == t.released[b] + DueVars(t.vars)[b] + DueAll(t.queue)[b]
    {
      DueAllFront(s.queue, b);
    }
  }

  lemma BorrowBalances(s: State, r: Rep)
    requires Balanced(s)
    ensures Balanced(s.(vars := s.vars + [Some(r)], lent := s.lent + Due(r)))
  {
    DueVarsPush(s.vars, Some(r));
  }

  lemma NewOwnedBalances(s: State, data: seq<int16>)
    requires Balanced(s)
    ensures Balanced(s.(vars := s.vars + [Some(Owning(data))]))
  {
    DueVarsPush(s.vars, Some(Owning(data)));
  }

  lemma DestroyQueueBalances(s: State)
    requires Balanced(s)
    ensures Balanced(s.(queue := [], released := s.released + DueAll(s.queue)))
  {
  }

  lemma MoveNewBalances(s: State, i: nat)
    requires Balanced(s) && Live(s, i)
    ensures Balanced(s.(vars := s.vars[i := Some(MOVED_FROM)] + [s.vars[i]]))
  {
    DueVarsPush(s.vars[i := Some(MOVED_FROM)], s.vars[i]);
    forall b
      ensures DueVars(s.vars[i := Some(MOVED_FROM)] + [s.vars[i]])[b] == DueVars(s.vars)[b]
    {
      DueVarsUpdate(s.vars, i, Some(MOVED_FROM), b);
    }
  }

  lemma MoveAssignBalances(s: State, i: nat, j: nat)
    requires Balanced(s) && Live(s, i) && Live(s, j) && i != j
    ensures Balanced(s.(vars := s.vars[i := s.vars[j]][j := Some(MOVED_FROM)],
                         released := s.released + Due(s.vars[i].value)))
  {
    forall b
      ensures DueVars(s.vars[i := s.vars[j]][j := Some(MOVED_FROM)])[b] + Due(s.vars[i].value)[b] == DueVars(s.vars)[b]
    {
      DueVarsUpdate(s.vars, i, s.vars[j], b);
      DueVarsUpdate(s.vars[i := s.vars[j]], j, Some(MOVED_FROM), b);
    }
  }

  lemma DestroyBalances(s: State, i: nat)
    requires Balanced(s) && Live(s, i)
    ensures Balanced(s.(vars := s.vars[i := None], released := s.released + Due(s.vars[i].value)))
  {
    forall b
      ensures DueVars(s.vars[i := None])[b] + Due(s.vars[i].value)[b] == DueVars(s.vars)[b]
    {
      DueVarsUpdate(s.vars, i, None, b);
    }
  }

  lemma DequeueBalances(s: State)
    requires Balanced(s) && s.queue != []
    ensures Balanced(s.(vars := s.vars + [Some(s.queue[0])], queue := s.queue[1..]))
  {
    DueVarsPush(s.vars, Some(s.queue[0]));
    forall b
      ensures DueAll(s.queue)[b] == Due(s.queue[0])[b] + DueAll(s.queue[1..])[b]
    {
      DueAllFront(s.queue, b);
    }
  }

  lemma StepBalances(cfg: Config, s: State, op: Op)
    requires cfg.capacity > 0 && Enabled(s, op) && Balanced(s)
    ensures Balanced(Step(cfg, s, op))
  {
    hide Balanced, Due, DueAll;
    match op
    case NewOwned(data) => NewOwnedBalances(s, data);
    case Borrow(ptr, callback) => BorrowBalances(s, Borrowing(ptr, callback));
    case CopyOwned(_, data) => NewOwnedBalances(s, data);
    case MoveNew(i) => MoveNewBalances(s, i);
    case MoveAssign(i, j) =>
      if i != j { MoveAssignBalances(s, i, j); }
    case Destroy(i) => DestroyBalances(s, i);
    case Enqueue(i) =>
      hide PushMoved, DropFront;
      if |s.queue| < cfg.capacity {
        PushMovedBalances(s, i);
      } else if cfg.policy == DropOldest && s.queue != [] {
        DropFrontBalances(s);
        PushMovedBalances(DropFront(s), i);
      }
    case Dequeue =>
      if s.queue != [] { DequeueBalances(s); }
    case DestroyQueue => DestroyQueueBalances(s);
  }

  lemma {:induction false} AlwaysBalanced(cfg: Config, ops: seq<Op>)
    requires cfg.capacity > 0
    ensures Run(cfg, ops).Some? ==> Balanced(Run(cfg, ops).value)
  {
    if ops != [] {
      AlwaysBalanced(cfg, ops[..|ops| - 1]);
      match Run(cfg, ops[..|ops| - 1])
      case None =>
      case Some(s) =>
        if Enabled(s, ops[|ops| - 1]) {
          hide Step, Balanced;
          StepBalances(cfg, s, ops[|ops| - 1]);
        }
    }
  }

  /** How many live frames, in variables or in the queue, would release buffer b. */
  function Holders(s: State, b: nat): nat
  {
    DueVars(s.vars)[b] + DueAll(s.queue)[b]
  }

  /**
   * A buffer lent once is, at every moment of every program, either held by exactly one frame and not
   * released, or held by none and released exactly once.
   */
  lemma ReleasedExactlyOnce(cfg: Config, ops: seq<Op>, b: nat)
    requires cfg.capacity > 0 && Run(cfg, ops).Some? && Run(cfg, ops).value.lent[b] == 1
    ensures var s := Run(cfg, ops).value;
            (Holders(s, b) == 1 && s.released[b] == 0) || (Holders(s, b) == 0 && s.released[b] == 1)
  {
    AlwaysBalanced(cfg, ops);
    var s := Run(cfg, ops).value;
    hide Run;
    assert s.lent[b] == s.released[b] + DueVars(s.vars)[b] + DueAll(s.queue)[b];
  }

  lemma {:induction false} NothingDue(vars: seq<Option<Rep>>)
    requires forall i :: 0 <= i < |vars| ==> vars[i] == None
    ensures DueVars(vars) == multiset{}
  {
    if vars != [] {
      NothingDue(vars[..|vars| - 1]);
    }
  }

  /** When every variable and the queue are gone, every lent buffer has been released, each as often as it was lent. */
  lemma NoLeak(cfg: Config, ops: seq<Op>)
    requires cfg.capacity > 0 && Run(cfg, ops).Some?
    requires var s := Run(cfg, ops).value; s.queue == [] && forall i :: 0 <= i < |s.vars| ==> s.vars[i] == None
    ensures Run(cfg, ops).value.released == Run(cfg, ops).value.lent
  {
    AlwaysBalanced(cfg, ops);
    var s := Run(cfg, ops).value;
    hide Run;
    NothingDue(s.vars);
    forall b: nat
      ensures s.released[b] == s.lent[b]
    {
      assert DueAll(s.queue)[b] == 0;
    }
  }
}
