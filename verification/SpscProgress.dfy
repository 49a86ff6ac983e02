/** The ring's calls are wait-free: each finishes in a bounded number of its own steps, whatever the other side does. */
module SpscProgress {
  import opened Samples
  import opened SpscRing

  predicate IsPushStep(e: Event)
  {
    e.LoadTail? || e.CopyIn? || e.PublishHead?
  }

  predicate IsPopStep(e: Event)
  {
    e.LoadHead? || e.CopyOut? || e.PublishTail?
  }

  /** Steps that a push still takes at most. */
  function PushSteps(p: Producer): nat
  {
    match p
    case PIdle => 0
    case PLoadedHead(src, _) => |src| + 2
    case PCopying(_, _, n, copied, _) => if copied < n then n - copied + 1 else 1
  }

  /** Steps that a pop or discard still takes at most. */
  function PopSteps(c: Consumer): nat
  {
    match c
    case CIdle => 0
    case CLoadedTail(max, _, _) => max + 2
    case CCopying(keep, _, n, out) => if keep && |out| < n then n - |out| + 1 else 1
  }

  /** In every reachable state a push under way has a step to take, and a producer outside may begin one. */
  lemma PushCanStep(s: State, capacity: nat, es: seq<Event>) returns (e: Event)
    requires IsInit(s, capacity) && Exec(s, es).Some?
    ensures var t := Exec(s, es).value;
            if t.producer == PIdle then forall src :: src != [] ==> Enabled(t, PushCall(src))
            else IsPushStep(e) && Enabled(t, e)
  {
    AlwaysInv(s, capacity, es);
    var t := Exec(s, es).value;
    hide Exec;
    match t.producer
    case PIdle => e := LoadTail;
    case PLoadedHead(_, _) => e := LoadTail;
    case PCopying(_, _, n, copied, _) => e := if copied < n then CopyIn else PublishHead;
  }

  lemma PopCanStep(s: State, capacity: nat, es: seq<Event>) returns (e: Event)
    requires IsInit(s, capacity) && Exec(s, es).Some?
    ensures var t := Exec(s, es).value;
            if t.consumer == CIdle then forall max, keep :: max > 0 ==> Enabled(t, PopCall(max, keep))
            else IsPopStep(e) && Enabled(t, e)
  {
    AlwaysInv(s, capacity, es);
    var t := Exec(s, es).value;
    hide Exec;
    match t.consumer
    case CIdle => e := LoadHead;
    case CLoadedTail(_, _, _) => e := LoadHead;
    case CCopying(keep, _, n, out) => e := if keep && |out| < n then CopyOut else PublishTail;
  }

  /** Each own step brings the call nearer to its end, and no step of the other side sets it back. */
  lemma StepsCount(s: State, e: Event)
    requires Inv(s) && Enabled(s, e)
    ensures var t := Next(s, e);
            && (IsPushStep(e) ==> PushSteps(t.producer) < PushSteps(s.producer))
            && (!IsPushStep(e) && !e.PushCall? ==> t.producer == s.producer)
            && (IsPopStep(e) ==> PopSteps(t.consumer) < PopSteps(s.consumer))
            && (!IsPopStep(e) && !e.PopCall? ==> t.consumer == s.consumer)
  {
  }

  // ---- Whole calls ----

  function Count(es: seq<Event>, pushing: bool): nat
  {
    if es == [] then 0
    else
      Count(es[..|es| - 1], pushing) +
      if (if pushing then IsPushStep(es[|es| - 1]) else IsPopStep(es[|es| - 1])) then 1 else 0
  }

  ghost function StepsLeft(s: State, pushing: bool): nat
  {
    if pushing then PushSteps(s.producer) else PopSteps(s.consumer)
  }

  ghost predicate NoNewCall(es: seq<Event>, pushing: bool)
  {
    forall k :: 0 <= k < |es| ==> if pushing then !es[k].PushCall? else !es[k].PopCall?
  }

  lemma LastOfRun(s: State, es: seq<Event>, more: seq<Event>)
    requires more != [] && Exec(s, es + more).Some?
    ensures var m := |more| - 1; var r := Exec(s, es + more[..m]);
            && r.Some? && Enabled(r.value, more[m]) && Exec(s, es + more).value == Next(r.value, more[m])
  {
    assert (es + more)[..|es + more| - 1] == es + more[..|more| - 1];
    hide Next, Enabled;
  }

  /** Until its next call, a side takes at most as many steps as it had left. */
  lemma {:induction false} CallIsBounded(s: State, capacity: nat, es: seq<Event>, more: seq<Event>, pushing: bool)
    requires IsInit(s, capacity) && Exec(s, es).Some? && Exec(s, es + more).Some? && NoNewCall(more, pushing)
    ensures Count(more, pushing) + StepsLeft(Exec(s, es + more).value, pushing) <=
            StepsLeft(Exec(s, es).value, pushing)
    decreases |more|
  {
    if more == [] {
      assert es + more == es;
    } else {
      var m := |more| - 1;
      LastOfRun(s, es, more);
      CallIsBounded(s, capacity, es, more[..m], pushing);
      AlwaysInv(s, capacity, es + more[..m]);
      hide Exec, Inv, Enabled, Next, PushSteps, PopSteps, IsPushStep, IsPopStep;
      StepsCount(Exec(s, es + more[..m]).value, more[m]);
    }
  }

  /** A push takes at most two steps more than it has samples, however the consumer runs beside it. */
  lemma PushIsWaitFree(s: State, capacity: nat, es: seq<Event>, src: seq<int16>, more: seq<Event>)
    requires IsInit(s, capacity) && Exec(s, es + [PushCall(src)]).Some? && Exec(s, es + [PushCall(src)] + more).Some?
    requires NoNewCall(more, true)
    ensures Count(more, true) <= |src| + 2
  {
    LastOfRun(s, es, [PushCall(src)]);
    CallIsBounded(s, capacity, es + [PushCall(src)], more, true);
    hide Exec, Count;
  }

  /** A pop or discard of at most max samples takes at most max + 2 steps, however the producer runs beside it. */
  lemma PopIsWaitFree(s: State, capacity: nat, es: seq<Event>, max: nat, keep: bool, more: seq<Event>)
    requires IsInit(s, capacity) && Exec(s, es + [PopCall(max, keep)]).Some?
    requires Exec(s, es + [PopCall(max, keep)] + more).Some? && NoNewCall(more, false)
    ensures Count(more, false) <= max + 2
  {
    LastOfRun(s, es, [PopCall(max, keep)]);
    CallIsBounded(s, capacity, es + [PopCall(max, keep)], more, false);
    hide Exec, Count;
  }
}
