/**
 How far a Stop or DeleteWorker call has to go, that it can always get there, and exactly
 which workers a Stop call misses.
 */
module DispatcherShutdown {
  import opened Common
  import opened DispatcherModel
  import opened DispatcherSessions
  import opened DispatcherInvariant
  import opened DispatcherRegistry
  import opened DispatcherRuns
  import opened DispatcherTermination

  /** Own actions left to a call past its critical section. */
  function Left(pc: CallPc): nat {
    match pc
    case Shutting(hs, i) => if i < |hs| then 3 * |hs| - 2 * i else 0
    case Cancelling(hs, i) => if i < |hs| then 3 * |hs| - 2 * i - 1 else 0
    case Waiting(hs, i) => if i < |hs| then |hs| - i else 0
    case _ => 0
  }

  /** The handles such a call works on. */
  function HandlesOf(pc: CallPc): seq<nat> {
    match pc
    case Shutting(hs, _) => hs
    case Cancelling(hs, _) => hs
    case Waiting(hs, _) => hs
    case _ => []
  }

  ghost predicate HasReturned(req: Request, pc: CallPc, hs: seq<nat>) {
    match req
    case StopReq => pc == Returned(Stopped(hs))
    case DeleteReq(_) => |hs| == 1 && pc == Returned(Deleted(hs[0]))
    case _ => false
  }

  /** An own action lowers what is left, and returns when nothing is. */
  lemma OwnActionLowers(s: State, st: Step, p: nat)
    requires Inv(s) && Enabled(s, st) && InShutdown(s, p) && Mover(st) == Some(p)
    ensures p < |Apply(s, st).calls|
    ensures var (pc, pc') := (s.calls[p].pc, Apply(s, st).calls[p].pc);
            && Left(pc') < Left(pc)
            && (if Left(pc') > 0 then InShutdown(Apply(s, st), p) && HandlesOf(pc') == HandlesOf(pc)
                else HasReturned(s.calls[p].req, pc', HandlesOf(pc)))
  {
    assert CallInv(s, p);
  }

  lemma OthersKeepCall(s: State, st: Step, p: nat)
    requires Enabled(s, st) && p < |s.calls| && Mover(st) != Some(p)
    ensures p < |Apply(s, st).calls| && Apply(s, st).calls[p] == s.calls[p]
  {
    OnlyMoverMoves(s, st);
  }

  /** How many of the steps from `j` up to `k` the caller `p` took. */
  function OwnActions(steps: seq<Step>, p: nat, j: nat, k: nat): nat
    requires j <= k <= |steps|
    decreases k
  {
    if j == k then 0 else OwnActions(steps, p, j, k - 1) + if Mover(steps[k - 1]) == Some(p) then 1 else 0
  }

  /** How many of them left the once of `h`. */
  function OnceLeavings(tr: seq<State>, steps: seq<Step>, h: nat, j: nat, k: nat): nat
    requires IsRun(tr, steps) && j <= k <= |steps|
    decreases k
  {
    if j == k then 0
    else
      OnceLeavings(tr, steps, h, j, k - 1)
      + if LeavesOnce(tr[k - 1], steps[k - 1], h) then 1 else 0
  }

  predicate LeavesOnce(s: State, st: Step, h: nat) { st.CancelCtx? && Enabled(s, st) && Target(s, st.p) == h }

  lemma ReturnedDoesNotMove(s: State, st: Step, p: nat)
    requires Enabled(s, st) && p < |s.calls| && s.calls[p].pc.Returned?
    ensures Mover(st) != Some(p)
  {
  }

  /** A call in progress has taken what it has left less, and is in progress or has returned. */
  lemma {:induction false} CallProgress(tr: seq<State>, steps: seq<Step>, p: nat, j: nat, k: nat)
    requires IsRun(tr, steps) && j <= k <= |steps| && InShutdown(tr[j], p)
    ensures p < |tr[k].calls| && tr[k].calls[p].req == tr[j].calls[p].req
    ensures OwnActions(steps, p, j, k) + Left(tr[k].calls[p].pc) <= Left(tr[j].calls[p].pc)
    ensures if Left(tr[k].calls[p].pc) > 0
            then InShutdown(tr[k], p) && HandlesOf(tr[k].calls[p].pc) == HandlesOf(tr[j].calls[p].pc)
            else HasReturned(tr[j].calls[p].req, tr[k].calls[p].pc, HandlesOf(tr[j].calls[p].pc))
    decreases k
  {
    if j == k {
      RunKeepsInv(tr, steps, j);
      assert CallInv(tr[j], p);
    } else {
      CallProgress(tr, steps, p, j, k - 1);
      RunKeepsInv(tr, steps, k - 1);
      assert IsStep(tr, steps, k - 1);
      var (s, st) := (tr[k - 1], steps[k - 1]);
      StepGrows(s, st);
      if s.calls[p].pc.Returned? {
        ReturnedDoesNotMove(s, st, p);
        OthersKeepCall(s, st, p);
      } else if Mover(st) == Some(p) {
        OwnActionLowers(s, st, p);
      } else {
        OthersKeepCall(s, st, p);
      }
    }
  }

  lemma {:induction false} OnceIsLeftOnce(tr: seq<State>, steps: seq<Step>, h: nat, j: nat, k: nat)
    requires IsRun(tr, steps) && j <= k <= |steps| && h < |tr[j].handles|
    ensures h < |tr[k].handles|
    ensures OnceLeavings(tr, steps, h, j, k) + (if tr[j].handles[h].once.Completed? then 1 else 0)
         <= if tr[k].handles[h].once.Completed? then 1 else 0
    decreases k
  {
    if j < k {
      OnceIsLeftOnce(tr, steps, h, j, k - 1);
      RunKeepsInv(tr, steps, k - 1);
      assert IsStep(tr, steps, k - 1);
      StepGrows(tr[k - 1], steps[k - 1]);
      assert HandleGrows(tr[k - 1].handles[h], tr[k].handles[h]);
      if LeavesOnce(tr[k - 1], steps[k - 1], h) {
        assert CallInv(tr[k - 1], steps[k - 1].p);
      }
    }
  }

  /**
   Every Stop and DeleteWorker call is bounded: it takes at most 3 actions of its own for
   each of its handles, and has returned once it has taken what it had left. For each
   handle at most one step leaves the once, its own or that of a racing call, and from
   when it waits its workers take at most 6 actions per pending caller, 5 per queued
   message and 8 more. With `ShutdownNeverStuck` every such call returns when the
   goroutines that can act do.
   */
  lemma ShutdownIsBounded(tr: seq<State>, steps: seq<Step>, p: nat, j: nat, k: nat)
    requires IsRun(tr, steps) && j <= k <= |steps| && InShutdown(tr[j], p)
    ensures p < |tr[k].calls|
    ensures var (req, pc, pc') := (tr[j].calls[p].req, tr[j].calls[p].pc, tr[k].calls[p].pc);
            && OwnActions(steps, p, j, k) <= Left(pc) <= 3 * |HandlesOf(pc)|
            && (InShutdown(tr[k], p) || HasReturned(req, pc', HandlesOf(pc)))
            && (OwnActions(steps, p, j, k) == Left(pc) ==> HasReturned(req, pc', HandlesOf(pc)))
    ensures forall h :: h in HandlesOf(tr[j].calls[p].pc) ==>
              h < |tr[j].handles| && OnceLeavings(tr, steps, h, j, k) <= 1
    ensures tr[j].calls[p].pc.Waiting? ==>
              forall h :: h in HandlesOf(tr[j].calls[p].pc) ==>
                WorkerSteps(steps, h, j, k) <= 6 * |Pending(tr[j], h)| + 5 * |tr[j].handles[h].inbox| + 8
  {
    CallProgress(tr, steps, p, j, k);
    RunKeepsInv(tr, steps, j);
    assert CallInv(tr[j], p);
    var hs := HandlesOf(tr[j].calls[p].pc);
    forall h | h in hs ensures h < |tr[j].handles| && OnceLeavings(tr, steps, h, j, k) <= 1 {
      OnceIsLeftOnce(tr, steps, h, j, k);
    }
    if tr[j].calls[p].pc.Waiting? {
      forall h | h in hs
        ensures WorkerSteps(steps, h, j, k) <= 6 * |Pending(tr[j], h)| + 5 * |tr[j].handles[h].inbox| + 8
      {
        WaitedForIsKilled(tr[j], p, h);
        KilledWorkersTerminate(tr, steps, h, j, k);
      }
    }
  }

  lemma WaitedForIsKilled(s: State, p: nat, h: nat)
    requires Inv(s) && p < |s.calls| && s.calls[p].pc.Waiting? && h in s.calls[p].pc.hs
    ensures h < |s.handles| && s.handles[h].Killed()
  {
    assert CallInv(s, p);
    var i :| 0 <= i < |s.calls[p].pc.hs| && s.calls[p].pc.hs[i] == h;
    assert s.handles[s.calls[p].pc.hs[i]].once.Completed?;
    assert WorkerInv(s.handles[h]);
  }

  // ---------------------------------------------------- every call can return

  /** What keeps the call from moving itself: a racing once, or the worker it waits for. */
  ghost function Obstacle(s: State, p: nat): nat
    requires InShutdown(s, p) && s.calls[p].pc.i < |s.calls[p].pc.hs| && Target(s, p) < |s.handles|
  {
    if s.calls[p].pc.Waiting? then Measure(s, Target(s, p))
    else if s.handles[Target(s, p)].once.RunBy? then 1 else 0
  }

  /** The step that `ShutdownNeverStuck` offers. */
  ghost predicate Helps(s: State, st: Step, p: nat)
    requires InShutdown(s, p) && s.calls[p].pc.i < |s.calls[p].pc.hs| && Target(s, p) < |s.handles|
  {
    || Mover(st) == Some(p)
    || (s.calls[p].pc.Shutting? && s.handles[Target(s, p)].once.RunBy?
        && st == CancelCtx(s.handles[Target(s, p)].once.p))
    || (s.calls[p].pc.Waiting? && WorkerStep(st, Target(s, p)))
  }

  lemma HelpTouchesTarget(s: State, st: Step, p: nat)
    requires CallInvAt(s, p) && CallsInv(s) && Enabled(s, st) && InShutdown(s, p)
    requires s.calls[p].pc.i < |s.calls[p].pc.hs| && Target(s, p) < |s.handles| && Helps(s, st, p)
    ensures !EffectOf(s, st).onHandles.Spawn?
    ensures EffectOf(s, st).onHandles.Touch? ==> EffectOf(s, st).onHandles.h == Target(s, p)
  {
    if s.handles[Target(s, p)].once.RunBy? {
      assert OnceRuns(s, Target(s, p));
    }
  }

  /** It touches no handle but the call's own, and makes none. */
  lemma HelpIsLocal(s: State, st: Step, p: nat)
    requires Inv(s) && Enabled(s, st) && InShutdown(s, p)
    requires s.calls[p].pc.i < |s.calls[p].pc.hs| && Target(s, p) < |s.handles| && Helps(s, st, p)
    ensures |Apply(s, st).handles| == |s.handles|
    ensures forall g :: 0 <= g < |s.handles| && g !in HandlesOf(s.calls[p].pc) ==>
                          Apply(s, st).handles[g] == s.handles[g]
  {
    assert CallInv(s, p);
    assert Target(s, p) in HandlesOf(s.calls[p].pc);
    HelpTouchesTarget(s, st, p);
    TouchIsLocal(s, EffectOf(s, st), Target(s, p));
  }

  lemma TouchIsLocal(s: State, e: Effect, h: nat)
    requires EffectOk(s, e) && !e.onHandles.Spawn? && (e.onHandles.Touch? ==> e.onHandles.h == h)
    ensures |Perform(s, e).handles| == |s.handles|
    ensures forall g :: 0 <= g < |s.handles| && g != h ==> Perform(s, e).handles[g] == s.handles[g]
  {
  }

  /** A step of another goroutine that helps removes some of the obstacle. */
  lemma HelpLowersObstacle(s: State, st: Step, p: nat)
    requires Inv(s) && Enabled(s, st) && InShutdown(s, p)
    requires s.calls[p].pc.i < |s.calls[p].pc.hs| && Target(s, p) < |s.handles|
    requires Helps(s, st, p) && Mover(st) != Some(p)
    ensures var s' := Apply(s, st);
            && InShutdown(s', p) && s'.calls[p] == s.calls[p] && Target(s', p) < |s'.handles|
            && Obstacle(s', p) < Obstacle(s, p)
  {
    OthersKeepCall(s, st, p);
    StepGrows(s, st);
    var h := Target(s, p);
    if s.calls[p].pc.Waiting? {
      WaitedForIsKilled(s, p, h);
      StepLowersMeasure(s, st, h);
    } else {
      assert OnceRuns(s, h);
    }
  }

  /** The obstacle, 0 where there is none. */
  ghost function RoomFor(s: State, p: nat): nat {
    if InShutdown(s, p) && s.calls[p].pc.i < |s.calls[p].pc.hs| && Target(s, p) < |s.handles| then Obstacle(s, p)
    else 0
  }

  /** A step that helps brings the call to its return, or nearer to it. */
  lemma HelpBringsNearer(s: State, st: Step, p: nat)
    requires Inv(s) && Enabled(s, st) && InShutdown(s, p)
    requires s.calls[p].pc.i < |s.calls[p].pc.hs| && Target(s, p) < |s.handles| && Helps(s, st, p)
    ensures p < |Apply(s, st).calls| && Apply(s, st).calls[p].req == s.calls[p].req
    ensures var (s', hs) := (Apply(s, st), HandlesOf(s.calls[p].pc));
            if Left(s'.calls[p].pc) == 0 then HasReturned(s.calls[p].req, s'.calls[p].pc, hs)
            else
              && InShutdown(s', p) && HandlesOf(s'.calls[p].pc) == hs
              && (|| Left(s'.calls[p].pc) < Left(s.calls[p].pc)
                  || (Left(s'.calls[p].pc) == Left(s.calls[p].pc) && RoomFor(s', p) < RoomFor(s, p)))
  {
    StepGrows(s, st);
    if Mover(st) == Some(p) {
      OwnActionLowers(s, st, p);
    } else {
      HelpLowersObstacle(s, st, p);
    }
  }

  /**
   From every state of every run a Stop or DeleteWorker call in progress can be brought to
   its return, by steps that leave every handle but its own as it is.
   */
  lemma {:induction false} CanReturn(tr: seq<State>, steps: seq<Step>, p: nat)
    returns (tr': seq<State>, steps': seq<Step>)
    requires IsRun(tr, steps) && InShutdown(tr[|steps|], p)
    ensures Continues(tr, steps, tr', steps')
    ensures var (s, s') := (tr[|steps|], tr'[|steps'|]);
            && p < |s'.calls| && s'.calls[p].req == s.calls[p].req
            && HasReturned(s.calls[p].req, s'.calls[p].pc, HandlesOf(s.calls[p].pc))
            && |s'.handles| == |s.handles|
            && forall g :: 0 <= g < |s.handles| && g !in HandlesOf(s.calls[p].pc) ==> s'.handles[g] == s.handles[g]
    decreases Left(tr[|steps|].calls[p].pc), RoomFor(tr[|steps|], p)
  {
    var s := tr[|steps|];
    RunKeepsInv(tr, steps, |steps|);
    assert CallInv(s, p);
    var st := ShutdownNeverStuck(tr, steps, |steps|, p);
    HelpIsLocal(s, st, p);
    var tr1, steps1 := OneMore(tr, steps, st);
    HelpBringsNearer(s, st, p);
    if Left(tr1[|steps1|].calls[p].pc) == 0 {
      return tr1, steps1;
    }
    tr', steps' := CanReturn(tr1, steps1, p);
    ContinuesTransitively(tr, steps, tr1, steps1, tr', steps');
  }

  // -------------------------------------------------- exactly what a Stop misses

  /** Once the flag is set with covering snapshots, every snapshot goes on covering. */
  lemma {:induction false} StoppedRunKeepsSnapshots(w: Watched, tr: seq<State>, steps: seq<Step>, j: nat, k: nat)
    requires IsRun(tr, steps) && j <= k <= |steps| && tr[j].stopped && SnapshotsCover(w, tr[j])
    ensures tr[k].stopped && SnapshotsCover(w, tr[k])
    decreases k
  {
    if j < k {
      StoppedRunKeepsSnapshots(w, tr, steps, j, k - 1);
      RunKeepsInv(tr, steps, k - 1);
      assert IsStep(tr, steps, k - 1);
      StepKeepsSnapshots(w, tr[k - 1], steps[k - 1]);
      StepGrows(tr[k - 1], steps[k - 1]);
    }
  }

  /** Before the stop no Stop call holds a snapshot. */
  lemma NoSnapshotYet(w: Watched, s: State)
    requires Inv(s) && !s.stopped
    ensures SnapshotsCover(w, s)
  {
    forall p | 0 <= p < |s.calls| && s.calls[p].req.StopReq? ensures StopSnapshot(s.calls[p].pc).None? {
      assert CallInv(s, p);
    }
  }

  /** A call past its critical section that has returned: with its snapshot, or at once. */
  lemma {:induction false} StopReturns(tr: seq<State>, steps: seq<Step>, n: nat, k: nat, p: nat)
    requires IsRun(tr, steps) && n < k <= |steps| && !tr[n].stopped
    requires steps[n].StopLock? && steps[n].p == p
    ensures p < |tr[k].calls| && tr[k].calls[p].req.StopReq? && StopSnapshot(tr[k].calls[p].pc).Some?
    decreases k
  {
    assert IsStep(tr, steps, k - 1);
    StepGrows(tr[k - 1], steps[k - 1]);
    if n < k - 1 {
      StopReturns(tr, steps, n, k - 1, p);
      RunKeepsInv(tr, steps, k - 1);
      KeepsSnapshot(tr[k - 1], steps[k - 1], p);
    }
  }

  lemma KeepsSnapshot(s: State, st: Step, p: nat)
    requires Inv(s) && Enabled(s, st) && p < |s.calls| && s.calls[p].req.StopReq? && StopSnapshot(s.calls[p].pc).Some?
    ensures p < |Apply(s, st).calls| && StopSnapshot(Apply(s, st).calls[p].pc).Some?
  {
    StepGrows(s, st);
    OnlyMoverMoves(s, st);
    if InShutdown(s, p) && Mover(st) == Some(p) {
      OwnActionLowers(s, st, p);
    }
  }

  /** The Stop call that sets the flag leaves nothing behind when nothing is unseen at its critical section. */
  lemma SeenIsNotLeft(w: Watched, tr: seq<State>, steps: seq<Step>, n: nat, k: nat, p: nat)
    requires IsRun(tr, steps) && n < k <= |steps| && !tr[n].stopped
    requires steps[n].StopLock? && steps[n].p == p && !HasUnseen(w, tr[n])
    ensures !LeftBehind(w, tr[k], p)
  {
    var s := tr[k];
    assert IsStep(tr, steps, n);
    RunKeepsInv(tr, steps, n);
    NoSnapshotYet(w, tr[n]);
    StepKeepsSnapshots(w, tr[n], steps[n]);
    StoppedRunKeepsSnapshots(w, tr, steps, n + 1, k);
    RunKeepsInv(tr, steps, k);
    StopReturns(tr, steps, n, k, p);
    if s.calls[p].pc.Returned? {
      CoveredStopLeavesNothing(w, s, p, StopSnapshot(s.calls[p].pc).value);
    }
  }

  /** After the stop there is nobody new to watch. */
  lemma StoppedWatchesNobodyNew(w: Watched, tr: seq<State>, steps: seq<Step>, j: nat, k: nat)
    requires IsRun(tr, steps) && j <= k <= |steps| && tr[j].stopped && !HasUnseen(w, tr[j])
    ensures forall h :: 0 <= h < |tr[k].handles| ==> !IsWatched(w, tr[k].handles[h])
  {
    StoppedRegistersNothing(tr, steps, j, k);
    RunGrows(tr, steps, j, k);
    forall h | 0 <= h < |tr[k].handles| ensures !IsWatched(w, tr[k].handles[h]) {
      assert !Unseen(w, tr[j], h);
      if IsWatched(w, tr[k].handles[h]) {
        WatchedShrinks(w, tr[j].handles[h], tr[k].handles[h]);
      }
    }
  }

  /** Where the critical section of Stop leaves its caller: returned, or about to shut down the snapshot. */
  lemma AfterStopLock(s: State, p: nat, order: seq<nat>)
    requires Enabled(s, StopLock(p, order))
    ensures var s' := Apply(s, StopLock(p, order));
            && s'.handles == s.handles && p < |s'.calls| && s'.calls[p].req.StopReq?
            && (s'.calls[p].pc.Returned? || (!s.stopped && s'.calls[p].pc == Shutting(order, 0)))
  {
  }

  /** A Stop call in progress can return without a worker that is none of its own having moved. */
  lemma OthersCanBeLeft(w: Watched, tr: seq<State>, steps: seq<Step>, p: nat, h: nat)
    returns (tr': seq<State>, steps': seq<Step>)
    requires IsRun(tr, steps) && InShutdown(tr[|steps|], p) && tr[|steps|].calls[p].req.StopReq?
    requires h < |tr[|steps|].handles| && IsWatched(w, tr[|steps|].handles[h])
    requires h !in HandlesOf(tr[|steps|].calls[p].pc)
    ensures Continues(tr, steps, tr', steps') && LeftBehind(w, tr'[|steps'|], p)
  {
    tr', steps' := CanReturn(tr, steps, p);
    assert IsWatched(w, tr'[|steps'|].handles[h]);
  }

  /** What is unseen at the critical section of Stop can be left when that call returns. */
  lemma UnseenCanBeLeft(w: Watched, tr: seq<State>, steps: seq<Step>, p: nat, h: nat)
    returns (tr': seq<State>, steps': seq<Step>)
    requires IsRun(tr, steps) && |steps| > 0
    requires steps[|steps| - 1].StopLock? && steps[|steps| - 1].p == p && Unseen(w, tr[|steps| - 1], h)
    ensures Continues(tr, steps, tr', steps') && LeftBehind(w, tr'[|steps'|], p)
  {
    var (n, s) := (|steps| - 1, tr[|steps|]);
    assert IsStep(tr, steps, n);
    RunKeepsInv(tr, steps, n);
    AfterStopLock(tr[n], p, steps[n].order);
    if s.calls[p].pc.Returned? {
      tr', steps' := tr, steps;
      assert IsWatched(w, s.handles[h]);
    } else {
      SnapshotIsEntries(tr[n], steps[n].order, h);
      tr', steps' := OthersCanBeLeft(w, tr, steps, p, h);
    }
  }

  /**
   What a Stop call leaves behind, exactly, whichever workers are watched. For a run that
   ends in the call's critical section: some continuation lets the call return while a
   watched worker is left if and only if at that critical section there is one which the
   registry does not hold, or any at all when the dispatcher was stopped before.
   */
  lemma StopLeavesIffUnseen(w: Watched, tr: seq<State>, steps: seq<Step>, p: nat)
    requires IsRun(tr, steps) && |steps| > 0
    requires steps[|steps| - 1].StopLock? && steps[|steps| - 1].p == p
    ensures (exists tr', steps' :: Continues(tr, steps, tr', steps') && LeftBehind(w, tr'[|steps'|], p))
        <==> HasUnseen(w, tr[|steps| - 1])
  {
    var n := |steps| - 1;
    if HasUnseen(w, tr[n]) {
      var h: nat :| Unseen(w, tr[n], h);
      var tr', steps' := UnseenCanBeLeft(w, tr, steps, p, h);
    } else {
      forall tr', steps' | Continues(tr, steps, tr', steps') ensures !LeftBehind(w, tr'[|steps'|], p) {
        assert tr'[n] == tr[n] && steps'[n] == steps[n];
        if tr[n].stopped {
          StoppedWatchesNobodyNew(w, tr', steps', n, |steps'|);
        } else {
          SeenIsNotLeft(w, tr', steps', n, |steps'|, p);
        }
      }
    }
  }
}
