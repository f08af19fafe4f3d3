/**
 A worker whose `kill` is closed exits, whatever branches its selects take, and no
 Stop or DeleteWorker call waits for something that cannot move.
 */
module DispatcherTermination {
  import opened Common
  import opened DispatcherModel
  import opened DispatcherSessions
  import opened DispatcherInvariant

  /** The callers that hold `h` and stand in the select of enqueue. */
  function Pending(s: State, h: nat): set<nat> {
    set p: nat | p < |s.calls| && s.calls[p].pc == AtSelect(h)
  }

  /** Own actions a goroutine can still take when no further message reaches it. */
  function Stage(hd: Handle): nat {
    match hd.pc
    case Selecting => if hd.session.Some? then 5 else 4
    case Holding(_) => if hd.session.Some? then 7 else 8
    case Sending(_) => 6
    case Exiting => 3
    case Deregistering => 2
    case Closing => 1
    case Exited => 0
  }

  /** A pending send outweighs an inbox item, which outweighs a message in hand. */
  function Measure(s: State, h: nat): nat
    requires h < |s.handles|
  {
    6 * |Pending(s, h)| + 5 * |s.handles[h].inbox| + Stage(s.handles[h])
  }

  /** The worker of `h` acts. */
  predicate WorkerStep(st: Step, h: nat) {
    st == Deregister(h) || (st.Worker? && st.h == h)
  }

  /** The worker of `h` acts, or a caller leaves the select on `h`. */
  predicate OwnStep(s: State, st: Step, h: nat)
    requires Enabled(s, st)
  {
    || WorkerStep(st, h)
    || ((st.EnqueueSend? || st.EnqueueKilled? || st.EnqueueCtxDone?) && s.calls[st.p].pc == AtSelect(h))
  }

  /** Nobody obtains a killed handle: it is unlinked, or the dispatcher is stopped. */
  lemma KilledIsUnobtainable(s: State, st: Step, h: nat)
    requires Inv(s) && Enabled(s, st) && h < |s.handles| && s.handles[h].Killed()
    ensures EffectOf(s, st).onCalls.Move? ==> EffectOf(s, st).onCalls.pc != AtSelect(h)
  {
    if st.EnqueueLock? && s.calls[st.p].req.card in s.workers {
      assert Registered(s, s.calls[st.p].req.card);
    }
  }

  /** Whoever leaves the select of enqueue returns. */
  lemma LeavesSelect(s: State, st: Step, h: nat)
    requires Enabled(s, st) && OwnStep(s, st, h) && !WorkerStep(st, h)
    ensures EffectOf(s, st).onCalls.Move? && EffectOf(s, st).onCalls.p == st.p
    ensures s.calls[st.p].pc == AtSelect(h) && EffectOf(s, st).onCalls.pc.Returned?
  {
  }

  lemma PendingAfter(s: State, e: Effect, h: nat)
    requires EffectOk(s, e) && (e.onCalls.Move? ==> e.onCalls.pc != AtSelect(h))
    ensures Pending(Perform(s, e), h) == Pending(s, h) - if e.onCalls.Move? then {e.onCalls.p} else {}
  {
  }

  /** The callers that may still send to a killed handle only get fewer. */
  lemma PendingShrinks(s: State, st: Step, h: nat)
    requires Inv(s) && Enabled(s, st) && h < |s.handles| && s.handles[h].Killed()
    ensures Pending(Apply(s, st), h) <= Pending(s, h)
    ensures |Pending(Apply(s, st), h)| <= |Pending(s, h)|
    ensures OwnStep(s, st, h) && !WorkerStep(st, h) ==> |Pending(Apply(s, st), h)| < |Pending(s, h)|
  {
    var (before, after) := (Pending(s, h), Pending(Apply(s, st), h));
    KilledIsUnobtainable(s, st, h);
    PendingAfter(s, EffectOf(s, st), h);
    assert before == after + (before - after);
    if OwnStep(s, st, h) && !WorkerStep(st, h) {
      LeavesSelect(s, st, h);
      assert st.p in before - after;
    }
  }

  lemma ActLowersStage(hd: Handle, a: WorkerAct)
    requires WorkerInv(hd) && WorkerEnabled(hd, a, true)
    ensures 5 * |WorkerApply(hd, a).inbox| + Stage(WorkerApply(hd, a)) < 5 * |hd.inbox| + Stage(hd)
  {
  }

  lemma WorkerStepLowers(s: State, st: Step, h: nat)
    requires WorkersInv(s) && Enabled(s, st) && h < |s.handles| && WorkerStep(st, h)
    ensures EffectOf(s, st).onHandles.Touch? && EffectOf(s, st).onHandles.h == h
    ensures 5 * |EffectOf(s, st).onHandles.hd.inbox| + Stage(EffectOf(s, st).onHandles.hd)
            < 5 * |s.handles[h].inbox| + Stage(s.handles[h])
  {
    if st.Worker? {
      ActLowersStage(s.handles[h], st.act);
    }
  }

  /** No other step changes the worker's stage, and only a send lengthens its inbox. */
  lemma OthersKeepStage(s: State, st: Step, h: nat)
    requires Enabled(s, st) && h < |s.handles| && !WorkerStep(st, h)
    requires EffectOf(s, st).onHandles.Touch? && EffectOf(s, st).onHandles.h == h
    ensures Stage(EffectOf(s, st).onHandles.hd) == Stage(s.handles[h])
    ensures |EffectOf(s, st).onHandles.hd.inbox| == |s.handles[h].inbox| + if st.EnqueueSend? then 1 else 0
    ensures st.EnqueueSend? ==> OwnStep(s, st, h)
  {
  }

  /** Every own step of a killed handle lowers the measure and no step raises it. */
  lemma StepLowersMeasure(s: State, st: Step, h: nat)
    requires Inv(s) && Enabled(s, st) && h < |s.handles| && s.handles[h].Killed()
    ensures Measure(Apply(s, st), h) + (if OwnStep(s, st, h) then 1 else 0) <= Measure(s, h)
  {
    PendingShrinks(s, st, h);
    if WorkerStep(st, h) {
      WorkerStepLowers(s, st, h);
    } else if EffectOf(s, st).onHandles.Touch? && EffectOf(s, st).onHandles.h == h {
      OthersKeepStage(s, st, h);
    }
  }

  /** How many of the steps from `j` up to `k` the worker of `h` took. */
  function WorkerSteps(steps: seq<Step>, h: nat, j: nat, k: nat): nat
    requires j <= k <= |steps|
    decreases k
  {
    if j == k then 0
    else WorkerSteps(steps, h, j, k - 1) + if WorkerStep(steps[k - 1], h) then 1 else 0
  }

  lemma {:induction false} WorkerStepsBound(tr: seq<State>, steps: seq<Step>, h: nat, j: nat, k: nat)
    requires IsRun(tr, steps) && j <= k <= |steps|
    requires h < |tr[j].handles| && tr[j].handles[h].Killed()
    ensures h < |tr[k].handles| && tr[k].handles[h].Killed()
    ensures Pending(tr[k], h) <= Pending(tr[j], h)
    ensures Measure(tr[k], h) + WorkerSteps(steps, h, j, k) <= Measure(tr[j], h)
    decreases k
  {
    if j < k {
      WorkerStepsBound(tr, steps, h, j, k - 1);
      RunKeepsInv(tr, steps, k - 1);
      assert IsStep(tr, steps, k - 1);
      StepGrows(tr[k - 1], steps[k - 1]);
      PendingShrinks(tr[k - 1], steps[k - 1], h);
      StepLowersMeasure(tr[k - 1], steps[k - 1], h);
    }
  }

  /** The next action of a killed worker that has not exited: its select can see the kill. */
  function NextAction(s: State, h: nat): Step
    requires h < |s.handles|
  {
    match s.handles[h].pc
    case Selecting => Worker(h, SeeKill)
    case Holding(_) => if s.handles[h].session.Some? then Worker(h, BeginSend) else Worker(h, CreateSession(true))
    case Sending(_) => Worker(h, EndSend(true))
    case Exiting => Worker(h, ExitDisconnect)
    case Deregistering => Deregister(h)
    case _ => Worker(h, CloseDone)
  }

  lemma KilledWorkerCanMove(s: State, h: nat)
    requires Inv(s) && h < |s.handles| && s.handles[h].Killed() && !s.handles[h].pc.Exited?
    ensures Enabled(s, NextAction(s, h)) && WorkerStep(NextAction(s, h), h)
  {
    assert WorkerInv(s.handles[h]);
  }

  /**
   Killed workers terminate. From the moment kill is closed: no further caller obtains
   the handle; as long as the goroutine has not exited it has an enabled action,
   assuming session calls return; and after at most 6 actions per pending caller, 5 per
   queued message and 8 more it has exited, under every choice of every select.
   */
  lemma KilledWorkersTerminate(tr: seq<State>, steps: seq<Step>, h: nat, j: nat, k: nat)
    requires IsRun(tr, steps) && j <= k <= |steps|
    requires h < |tr[j].handles| && tr[j].handles[h].Killed()
    ensures h < |tr[k].handles|
    ensures Pending(tr[k], h) <= Pending(tr[j], h)
    ensures WorkerSteps(steps, h, j, k) <= 6 * |Pending(tr[j], h)| + 5 * |tr[j].handles[h].inbox| + 8
    ensures WorkerSteps(steps, h, j, k) >= Measure(tr[j], h) ==> tr[k].handles[h].pc.Exited?
    ensures !tr[k].handles[h].pc.Exited? ==>
              exists st :: Enabled(tr[k], st) && WorkerStep(st, h)
  {
    WorkerStepsBound(tr, steps, h, j, k);
    if !tr[k].handles[h].pc.Exited? {
      RunKeepsInv(tr, steps, k);
      KilledWorkerCanMove(tr[k], h);
    }
  }

  // ----------------------------------------------------- shutdown never deadlocks

  /** Caller `p` is inside Stop or DeleteWorker, past the critical section. */
  predicate InShutdown(s: State, p: nat) {
    p < |s.calls| && (s.calls[p].pc.Shutting? || s.calls[p].pc.Cancelling? || s.calls[p].pc.Waiting?)
  }

  /**
   In every state of every run, a Stop or DeleteWorker call in progress can move
   itself, or the call running the same killOnce can, or the worker it waits for can.
   */
  lemma ShutdownNeverStuck(tr: seq<State>, steps: seq<Step>, k: nat, p: nat) returns (st: Step)
    requires IsRun(tr, steps) && k <= |steps| && InShutdown(tr[k], p)
    ensures tr[k].calls[p].pc.i < |tr[k].calls[p].pc.hs| && Target(tr[k], p) < |tr[k].handles|
    ensures Enabled(tr[k], st)
    ensures || Mover(st) == Some(p)
            || (tr[k].calls[p].pc.Shutting? && tr[k].handles[Target(tr[k], p)].once.RunBy?
                && st == CancelCtx(tr[k].handles[Target(tr[k], p)].once.p))
            || (tr[k].calls[p].pc.Waiting? && WorkerStep(st, Target(tr[k], p)))
  {
    var s := tr[k];
    RunKeepsInv(tr, steps, k);
    assert CallInv(s, p);
    var h := Target(s, p);
    assert WorkerInv(s.handles[h]);
    match s.calls[p].pc
    case Shutting(_, _) =>
      match s.handles[h].once {
        case Fresh => st := CloseKill(p);
        case Completed => st := SkipShutdown(p);
        case RunBy(q) =>
          assert OnceRuns(s, h);
          st := CancelCtx(q);
      }
    case Cancelling(_, _) => st := CancelCtx(p);
    case Waiting(_, _) =>
      if s.handles[h].pc.Exited? {
        st := AwaitDone(p);
      } else {
        assert s.handles[h].once.Completed?;
        KilledWorkerCanMove(s, h);
        st := NextAction(s, h);
      }
  }
}
