/**
 Exactly which accepted messages a worker can still receive.
 */
module DispatcherLoss {
  import opened Common
  import opened DispatcherModel
  import opened DispatcherSessions
  import opened DispatcherInvariant
  import opened DispatcherRuns
  import opened DispatcherRaces

  /** Once past its loop a worker stays there and receives nothing more. */
  lemma PastLoopIsFinal(s: State, st: Step, h: nat)
    requires Enabled(s, st) && h < |s.handles| && PastLoop(s.handles[h].pc)
    ensures h < |Apply(s, st).handles| && PastLoop(Apply(s, st).handles[h].pc)
    ensures Apply(s, st).handles[h].received == s.handles[h].received
  {
  }

  lemma {:induction false} NothingMoreIsReceived(tr: seq<State>, steps: seq<Step>, h: nat, j: nat, k: nat)
    requires IsRun(tr, steps) && j <= k <= |steps| && h < |tr[j].handles| && PastLoop(tr[j].handles[h].pc)
    ensures h < |tr[k].handles| && PastLoop(tr[k].handles[h].pc)
    ensures tr[k].handles[h].received == tr[j].handles[h].received
    decreases k
  {
    if j < k {
      NothingMoreIsReceived(tr, steps, h, j, k - 1);
      assert IsStep(tr, steps, k - 1);
      PastLoopIsFinal(tr[k - 1], steps[k - 1], h);
    }
  }

  // --------------------------------------------------------- which are out of reach

  /** A terminate message is in hand, or queued before the a-th accepted message. */
  predicate TerminateAhead(hd: Handle, a: nat) {
    || ((hd.pc.Holding? || hd.pc.Sending?) && hd.pc.msg.kind.KindTerminate?)
    || exists i :: 0 <= i < |hd.inbox| && i < a - |hd.received| && hd.inbox[i].kind.KindTerminate?
  }

  /**
   The a-th accepted message is out of reach: not received, and the worker has left its
   loop, or will at a terminate message before it. With the context cancelled that message
   ends the loop whether its send succeeds or fails.
   */
  ghost predicate OutOfReach(hd: Handle, a: nat) {
    a >= |hd.received| && (PastLoop(hd.pc) || (hd.cancelled && TerminateAhead(hd, a)))
  }

  lemma ActKeepsOutOfReach(hd: Handle, act: WorkerAct, a: nat)
    requires WorkerEnabled(hd, act, true) && OutOfReach(hd, a)
    ensures OutOfReach(WorkerApply(hd, act), a)
  {
    if act.Receive? {
      var i :| 0 <= i < |hd.inbox| && i < a - |hd.received| && hd.inbox[i].kind.KindTerminate?;
      if i > 0 {
        assert hd.inbox[1..][i - 1] == hd.inbox[i];
      }
    }
  }

  /** What the steps of others do to a handle, as far as reach goes. */
  lemma TouchKeepsOutOfReach(s: State, st: Step, a: nat)
    requires Enabled(s, st) && EffectOf(s, st).onHandles.Touch?
    requires OutOfReach(s.handles[EffectOf(s, st).onHandles.h], a)
    ensures OutOfReach(EffectOf(s, st).onHandles.hd, a)
  {
    var (was, hd) := (s.handles[EffectOf(s, st).onHandles.h], EffectOf(s, st).onHandles.hd);
    if st.Worker? {
      ActKeepsOutOfReach(was, st.act, a);
    } else if !PastLoop(was.pc) {
      assert hd.pc == was.pc && hd.received == was.received && hd.cancelled;
      assert forall i :: 0 <= i < |was.inbox| ==> hd.inbox[i] == was.inbox[i];
    }
  }

  lemma StepKeepsOutOfReach(s: State, st: Step, h: nat, a: nat)
    requires Enabled(s, st) && h < |s.handles| && OutOfReach(s.handles[h], a)
    ensures h < |Apply(s, st).handles| && OutOfReach(Apply(s, st).handles[h], a)
  {
    if EffectOf(s, st).onHandles.Touch? && EffectOf(s, st).onHandles.h == h {
      TouchKeepsOutOfReach(s, st, a);
    }
  }

  lemma {:induction false} RunKeepsOutOfReach(tr: seq<State>, steps: seq<Step>, h: nat, a: nat, j: nat, k: nat)
    requires IsRun(tr, steps) && j <= k <= |steps| && h < |tr[j].handles| && OutOfReach(tr[j].handles[h], a)
    ensures h < |tr[k].handles| && OutOfReach(tr[k].handles[h], a)
    decreases k
  {
    if j < k {
      RunKeepsOutOfReach(tr, steps, h, a, j, k - 1);
      assert IsStep(tr, steps, k - 1);
      StepKeepsOutOfReach(tr[k - 1], steps[k - 1], h, a);
    }
  }

  // ---------------------------------------------------------- all others are in reach

  /** The worker's next action on its way to the a-th message. */
  function Towards(hd: Handle): WorkerAct {
    match hd.pc
    case Holding(_) => if hd.session.Some? then BeginSend else CreateSession(true)
    case Sending(msg) => EndSend(!msg.kind.KindTerminate?)
    case _ => Receive
  }

  /** Its actions before the next receive, and four for each receive. */
  function Distance(hd: Handle, a: nat): nat {
    (if a < |hd.received| then 0 else 4 * (a + 1 - |hd.received|))
    + match hd.pc
      case Sending(_) => 1
      case Holding(_) => if hd.session.Some? then 2 else 3
      case _ => 0
  }

  lemma TowardsGetsCloser(hd: Handle, a: nat)
    requires WorkerInv(hd) && !OutOfReach(hd, a) && |hd.received| <= a < |hd.received| + |hd.inbox|
    ensures WorkerEnabled(hd, Towards(hd), false)
    ensures var hd' := WorkerApply(hd, Towards(hd));
            && !OutOfReach(hd', a) && hd'.accepted == hd.accepted
            && Distance(hd', a) < Distance(hd, a)
  {
    var hd' := WorkerApply(hd, Towards(hd));
    if Towards(hd).Receive? && hd'.cancelled && |hd'.received| <= a {
      assert !hd.inbox[0].kind.KindTerminate?;
      forall i | 0 <= i < |hd'.inbox| && i < a - |hd'.received| ensures !hd'.inbox[i].kind.KindTerminate? {
        assert hd'.inbox[i] == hd.inbox[i + 1];
      }
    }
  }

  lemma QueuedIfAccepted(s: State, h: nat)
    requires Inv(s) && h < |s.handles|
    ensures |s.handles[h].accepted| == |s.handles[h].received| + |s.handles[h].inbox|
  {
    assert AcceptAt(s, h);
    assert |MessagesOf(s.calls, s.handles[h].accepted)| == |s.handles[h].accepted|;
  }

  /** A continuation in which the a-th accepted message is received, by the worker's actions alone. */
  lemma {:induction false} CanReceive(tr: seq<State>, steps: seq<Step>, h: nat, a: nat)
    returns (tr': seq<State>, steps': seq<Step>)
    requires IsRun(tr, steps) && h < |tr[|steps|].handles| && a < |tr[|steps|].handles[h].accepted|
    requires !OutOfReach(tr[|steps|].handles[h], a)
    ensures Continues(tr, steps, tr', steps')
    ensures h < |tr'[|steps'|].handles| && a < |tr'[|steps'|].handles[h].received|
    decreases Distance(tr[|steps|].handles[h], a)
  {
    var s := tr[|steps|];
    if a < |s.handles[h].received| {
      return tr, steps;
    }
    RunKeepsInv(tr, steps, |steps|);
    QueuedIfAccepted(s, h);
    assert WorkerInv(s.handles[h]);
    TowardsGetsCloser(s.handles[h], a);
    var tr1, steps1 := OneMore(tr, steps, Worker(h, Towards(s.handles[h])));
    tr', steps' := CanReceive(tr1, steps1, h, a);
    ContinuesTransitively(tr, steps, tr1, steps1, tr', steps');
  }

  /** The worker of `h` has received the a-th accepted message. */
  predicate HasReceived(s: State, h: nat, a: nat) { h < |s.handles| && a < |s.handles[h].received| }

  /**
   Which accepted messages are lost, exactly: no continuation of the run receives the a-th
   message accepted by `h` if and only if it is out of reach.
   */
  lemma LostIffOutOfReach(tr: seq<State>, steps: seq<Step>, h: nat, a: nat)
    requires IsRun(tr, steps) && h < |tr[|steps|].handles| && a < |tr[|steps|].handles[h].accepted|
    ensures (forall tr', steps' :: Continues(tr, steps, tr', steps') ==> !HasReceived(tr'[|steps'|], h, a))
        <==> OutOfReach(tr[|steps|].handles[h], a)
  {
    if OutOfReach(tr[|steps|].handles[h], a) {
      forall tr', steps' | Continues(tr, steps, tr', steps') ensures !HasReceived(tr'[|steps'|], h, a) {
        assert tr'[|steps|] == tr[|steps|];
        RunKeepsOutOfReach(tr', steps', h, a, |steps|, |steps'|);
      }
    } else {
      var tr', steps' := CanReceive(tr, steps, h, a);
      assert HasReceived(tr'[|steps'|], h, a);
    }
  }

  /** The a-th message of `h` was accepted and no continuation receives it. */
  ghost predicate Lost(tr: seq<State>, steps: seq<Step>, h: nat, a: nat) {
    && IsRun(tr, steps) && h < |tr[|steps|].handles| && a < |tr[|steps|].handles[h].accepted|
    && forall tr', steps' :: Continues(tr, steps, tr', steps') ==> !HasReceived(tr'[|steps'|], h, a)
  }

  /** An enqueue can return nil for a message that no continuation receives. */
  lemma AcceptedCanBeLost()
    ensures exists tr: seq<State>, steps: seq<Step>, h: nat ::
              Lost(tr, steps, h, 0) && |tr[|steps|].calls| > 0 && tr[|steps|].calls[0].pc == Returned(Accepted(h))
  {
    var tr, steps := LeavingRun();
    var s := Perform(tr[|steps|], EffectOf(tr[|steps|], EnqueueSend(0)));
    Extend(tr, steps, EnqueueSend(0), s);
    tr, steps := tr + [s], steps + [EnqueueSend(0)];
    assert s.calls[0].pc == Returned(Accepted(0)) && |s.handles[0].accepted| > 0;
    LostIffOutOfReach(tr, steps, 0, 0);
    assert Lost(tr, steps, 0, 0);
  }
}
