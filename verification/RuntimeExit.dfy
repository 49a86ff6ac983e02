/** When a worker leaves its loop: after a process() call that ended the stream or failed, or after stop. */
module RuntimeExit {
  import opened Frames
  import opened LinearRuntime

  /** A step of the loop that leads worker w to another call of process(), or out of one. */
  predicate Works(e: Event, w: nat)
  {
    (e.TestStop? || e.TakeInput? || e.ProcessReturns?) && e.w == w
  }

  /** Gone, or about to go once its outputs are enqueued. */
  predicate Leaving(pc: Worker)
  {
    pc == Exited || (pc.Emitting? && pc.exiting)
  }

  lemma LeavingStays(cfg: Config, s: State, e: Event, w: nat)
    requires Sensible(cfg) && WellShaped(cfg, s) && Enabled(cfg, s, e) && w < |s.workers| && Leaving(s.workers[w])
    ensures Leaving(Next(cfg, s, e).workers[w]) && !Works(e, w)
    ensures s.workers[w] == Exited || e == FinishIteration(w) ==> Next(cfg, s, e).workers[w] == Exited
    ensures w == 0 ==> Next(cfg, s, e).sourced == s.sourced
  {
    hide Attempt, Offered, Taken;
  }

  lemma LastOfRun(cfg: Config, es: seq<Event>, more: seq<Event>)
    requires Sensible(cfg) && more != [] && Exec(cfg, es + more).Some?
    ensures var m := |more| - 1; var r := Exec(cfg, es + more[..m]);
            && r.Some? && Enabled(cfg, r.value, more[m]) && Exec(cfg, es + more).value == Next(cfg, r.value, more[m])
  {
    hide *;
    assert (es + more)[..|es + more| - 1] == es + more[..|more| - 1];
    LastOf(cfg, es + more);
  }

  /** Nothing that a leaving worker would have to be in its loop for happens in any continuation. */
  lemma {:induction false} NoCallFrom(cfg: Config, es: seq<Event>, w: nat, more: seq<Event>)
    requires Sensible(cfg) && Exec(cfg, es).Some? && Exec(cfg, es + more).Some? && w < |cfg.wiring|
    requires Leaving(Exec(cfg, es).value.workers[w])
    ensures forall k :: 0 <= k < |more| ==> !Works(more[k], w)
    ensures var s, t := Exec(cfg, es).value, Exec(cfg, es + more).value;
            && Leaving(t.workers[w])
            && (FinishIteration(w) in more ==> t.workers[w] == Exited)
            && (w == 0 ==> t.sourced == s.sourced)
    decreases |more|
  {
    hide Next, Enabled, Leaving, Works;
    if more == [] {
      assert es + more == es;
    } else {
      var m := |more| - 1;
      LastOfRun(cfg, es, more);
      NoCallFrom(cfg, es, w, more[..m]);
      hide Exec;
      LeavingStays(cfg, Exec(cfg, es + more[..m]).value, more[m], w);
      InFront(more, FinishIteration(w));
    }
  }

  /**
   * Once process() has returned end of stream or an error, the worker never tests the flag, takes an
   * input or calls process() again, in any continuation; the source has produced its last frame.
   */
  lemma NoCallAfterExit(cfg: Config, es: seq<Event>, w: nat, outs: seq<Frame>, more: seq<Event>)
    requires Sensible(cfg) && Exec(cfg, es + [ProcessReturns(w, outs, true)]).Some?
    requires Exec(cfg, es + [ProcessReturns(w, outs, true)] + more).Some?
    ensures forall k :: 0 <= k < |more| ==> !Works(more[k], w)
    ensures var s, t := Exec(cfg, es + [ProcessReturns(w, outs, true)]).value,
                        Exec(cfg, es + [ProcessReturns(w, outs, true)] + more).value;
            && w < |t.workers| && Leaving(t.workers[w])
            && (FinishIteration(w) in more ==> t.workers[w] == Exited)
            && (w == 0 ==> t.sourced == s.sourced)
  {
    LastOfRun(cfg, es, [ProcessReturns(w, outs, true)]);
    NoCallFrom(cfg, es + [ProcessReturns(w, outs, true)], w, more);
    hide Exec;
  }

  /** A leaving worker with nothing left to enqueue has one step to take, and it exits. */
  lemma EmptyHandedExits(cfg: Config, s: State, w: nat)
    requires Sensible(cfg) && WellShaped(cfg, s) && w < |s.workers|
    requires s.workers[w].Emitting? && s.workers[w].exiting && s.workers[w].rest == []
    ensures Enabled(cfg, s, FinishIteration(w)) && Next(cfg, s, FinishIteration(w)).workers[w] == Exited
  {
  }

  ghost predicate Returned(es: seq<Event>, w: nat)
  {
    exists k :: 0 <= k < |es| && es[k].ProcessReturns? && es[k].w == w && es[k].exiting
  }

  lemma ReturnedLater(es: seq<Event>, w: nat)
    requires es != []
    ensures Returned(es[..|es| - 1], w) ==> Returned(es, w)
    ensures var e := es[|es| - 1]; e.ProcessReturns? && e.w == w && e.exiting ==> Returned(es, w)
  {
    var m := |es| - 1;
    if Returned(es[..m], w) {
      var k :| 0 <= k < m && es[..m][k].ProcessReturns? && es[..m][k].w == w && es[..m][k].exiting;
      assert es[k] == es[..m][k];
    }
  }

  /** How a worker comes to be leaving, and how the flag comes to be up. */
  lemma LeavesNow(cfg: Config, s: State, e: Event, w: nat)
    requires Sensible(cfg) && WellShaped(cfg, s) && Enabled(cfg, s, e) && w < |s.workers|
    ensures var t := Next(cfg, s, e);
            && (Leaving(t.workers[w]) ==>
                  t.stop || Leaving(s.workers[w]) || (e.ProcessReturns? && e.w == w && e.exiting))
            && (t.stop <==> s.stop || e == RaiseStop)
  {
    hide Attempt, Offered, Taken;
  }

  lemma LastOf(cfg: Config, es: seq<Event>)
    requires Sensible(cfg) && es != [] && Exec(cfg, es).Some?
    ensures var m := |es| - 1; var r := Exec(cfg, es[..m]);
            && r.Some? && Enabled(cfg, r.value, es[m]) && Exec(cfg, es).value == Next(cfg, r.value, es[m])
  {
    hide Next, Enabled;
  }

  lemma InFront(es: seq<Event>, e: Event)
    requires es != []
    ensures e in es <==> e in es[..|es| - 1] || e == es[|es| - 1]
  {
  }

  /** Conversely, a worker only leaves for one of these reasons: in particular never for want of input. */
  lemma {:induction false} WhyExited(cfg: Config, es: seq<Event>, w: nat)
    requires Sensible(cfg) && Exec(cfg, es).Some? && w < |cfg.wiring|
    ensures Leaving(Exec(cfg, es).value.workers[w]) ==> RaiseStop in es || Returned(es, w)
    ensures Exec(cfg, es).value.stop <==> RaiseStop in es
  {
    if es != [] {
      var m := |es| - 1;
      WhyExited(cfg, es[..m], w);
      ReturnedLater(es, w);
      LastOf(cfg, es);
      hide Exec, Next, Enabled, Leaving, Returned;
      LeavesNow(cfg, Exec(cfg, es[..m]).value, es[m], w);
      InFront(es, RaiseStop);
    }
  }

  /** In every state, before stop as well, a worker that is neither gone nor asleep has a step to take. */
  lemma WorkerCanStep(cfg: Config, s: State, w: nat) returns (e: Event)
    requires Sensible(cfg) && WellShaped(cfg, s) && w < |s.workers|
    requires s.workers[w] != Exited && !IsAsleep(s.workers[w])
    ensures (Works(e, w) || e == EnqueueOne(w) || e == FinishIteration(w)) && Enabled(cfg, s, e)
  {
    match s.workers[w]
    case AtTop => e := TestStop(w);
    case Admitted => e := TakeInput(w);
    case Processing => e := ProcessReturns(w, if w == 0 then [] else cfg.transform(w, s.links[w - 1].taken), false);
    case Emitting(rest, _, _) => e := if rest == [] then FinishIteration(w) else EnqueueOne(w);
    case Exited => assert false;
  }

  /** The front of queue i is handed over, and no other queue changes. */
  ghost predicate HandsOver(s: State, t: State, i: nat)
  {
    && i < |s.links| == |t.links| && s.links[i].q.items != []
    && t.links[i].taken == s.links[i].taken + [s.links[i].q.items[0]]
    && t.links[i].q.items == s.links[i].q.items[1..]
    && forall j :: 0 <= j < |s.links| && j != i ==> t.links[j] == s.links[j]
  }

  /**
   * The loop of a worker: past the flag it takes a frame if there is one; with none it tries again
   * before stop and leaves after it. A finished iteration starts the next one, unless process() said to go.
   */
  lemma LoopSteps(cfg: Config, s: State, w: nat)
    requires Sensible(cfg) && WellShaped(cfg, s) && w < |s.workers|
    ensures s.workers[w] == AtTop ==>
              Enabled(cfg, s, TestStop(w)) &&
              Next(cfg, s, TestStop(w)).workers[w] == if s.stop then Exited else Admitted
    ensures s.workers[w] == Admitted && w > 0 && s.links[w - 1].q.items == [] ==>
              Enabled(cfg, s, TakeInput(w)) &&
              Next(cfg, s, TakeInput(w)) == s.(workers := s.workers[w := if s.stop then Exited else AtTop])
    ensures s.workers[w] == Admitted && w > 0 && s.links[w - 1].q.items != [] ==>
              Enabled(cfg, s, TakeInput(w)) &&
              var t := Next(cfg, s, TakeInput(w)); t.workers[w] == Processing && HandsOver(s, t, w - 1)
    ensures s.workers[w].Emitting? && s.workers[w].rest == [] ==>
              Enabled(cfg, s, FinishIteration(w)) &&
              Next(cfg, s, FinishIteration(w)).workers[w] == if s.workers[w].exiting then Exited else AtTop
  {
  }

  /** The main thread may poll a frame whenever there is one, before stop and after it. */
  lemma PollTakes(cfg: Config, s: State)
    requires Sensible(cfg) && WellShaped(cfg, s) && s.links[|s.links| - 1].q.items != []
    ensures Enabled(cfg, s, Poll)
    ensures var t := Next(cfg, s, Poll);
            HandsOver(s, t, |s.links| - 1) && Polled(t) == Polled(s) + [s.links[|s.links| - 1].q.items[0]]
  {
  }
}
