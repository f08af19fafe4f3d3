/**
 What becomes of a request on its way through the dispatcher, by its own fields: the message
 a worker takes out of its inbox for it, what sending that message does to the worker, and
 what a worker or a caller in its select waits for.
 */
module DispatcherMessages {
  import opened Common
  import opened DispatcherModel
  import opened DispatcherSessions
  import opened DispatcherInvariant
  import opened DispatcherTermination

  /**
   In every run the a-th message accepted by a handle, received or still queued, carries the
   event id and the prompt of the request whose enqueue returned a-th; it is tagged terminate
   exactly when that request was routed so, a departure not included.
   */
  lemma MessageIsItsRequest(tr: seq<State>, steps: seq<Step>, k: nat, h: nat, a: nat)
    requires IsRun(tr, steps) && k <= |steps| && h < |tr[k].handles| && a < |tr[k].handles[h].accepted|
    ensures var hd := tr[k].handles[h];
            && |hd.accepted| == |hd.received| + |hd.inbox|
            && hd.accepted[a] < |tr[k].calls| && tr[k].calls[hd.accepted[a]].req.DispatchReq?
            && var (req, msg) := (tr[k].calls[hd.accepted[a]].req, (hd.received + hd.inbox)[a]);
            && req.card == hd.card && msg.eventID == req.eventID && msg.prompt == req.prompt
            && (msg.kind == KindTerminate <==> req.route == RouteTerminate)
  {
    RunKeepsInv(tr, steps, k);
    assert AcceptAt(tr[k], h);
    var ps := tr[k].handles[h].accepted;
    assert |MessagesOf(tr[k].calls, ps)| == |ps|;
    assert MessagesOf(tr[k].calls, ps)[a] == MsgOf(tr[k].calls[ps[a]].req);
    assert CallInv(tr[k], ps[a]);
  }

  /** What is being sent was prompted last, and is the last message received. */
  lemma SendingIsLastReceived(hd: Handle)
    requires WorkerInv(hd) && hd.pc.Sending?
    ensures hd.received != [] && hd.received[|hd.received| - 1] == hd.pc.msg
  {
    assert hd.log[|hd.log| - 1] == Prompted(hd.session.value, hd.pc.msg);
    assert hd.received == PromptsOf(hd.log) + [] + [];
  }

  lemma EndOfSend(hd: Handle, ok: bool)
    requires WorkerEnabled(hd, EndSend(ok), true)
    ensures PastLoop(WorkerApply(hd, EndSend(ok)).pc) <==>
              if ok then hd.pc.msg.kind == KindTerminate else hd.cancelled
  {
  }

  /**
   In every run, when a send ends without error the worker leaves its loop exactly when the
   message came from a request routed terminate; when it ends with one, exactly when its
   context is cancelled.
   */
  lemma SendEndsTheLoopIff(tr: seq<State>, steps: seq<Step>, k: nat, h: nat, ok: bool)
    requires IsRun(tr, steps) && k < |steps| && steps[k] == Worker(h, EndSend(ok))
    ensures h < |tr[k].handles| && h < |tr[k + 1].handles|
    ensures var (hd, hd') := (tr[k].handles[h], tr[k + 1].handles[h]);
            && 0 < |hd.received| <= |hd.accepted| && hd.accepted[|hd.received| - 1] < |tr[k].calls|
            && var req := tr[k].calls[hd.accepted[|hd.received| - 1]].req;
            && req.DispatchReq? && !PastLoop(hd.pc)
            && (PastLoop(hd'.pc) <==> if ok then req.route == RouteTerminate else hd.cancelled)
  {
    RunKeepsInv(tr, steps, k);
    assert IsStep(tr, steps, k);
    var hd := tr[k].handles[h];
    assert WorkerInv(hd);
    SendingIsLastReceived(hd);
    EndOfSend(hd, ok);
    ReceivedWasAccepted(tr[k], h);
    MessageIsItsRequest(tr, steps, k, h, |hd.received| - 1);
  }

  lemma ReceivedWasAccepted(s: State, h: nat)
    requires Inv(s) && h < |s.handles|
    ensures |s.handles[h].received| <= |s.handles[h].accepted|
  {
    assert AcceptAt(s, h);
    assert |MessagesOf(s.calls, s.handles[h].accepted)| == |s.handles[h].accepted|;
  }

  // ------------------------------------------------------------- what is waited for

  /** The worker of `h` has nothing it can do. */
  ghost predicate WorkerBlocked(s: State, h: nat) {
    forall st :: WorkerStep(st, h) ==> !Enabled(s, st)
  }

  predicate WaitsForNothing(s: State, h: nat)
    requires h < |s.handles|
  {
    var hd := s.handles[h];
    || hd.pc == Exited
    || (hd.pc == Selecting && hd.inbox == [] && hd.closes == 0 && (hd.session.None? || !s.idleReaping))
  }

  lemma SomeAction(s: State, h: nat) returns (st: Step)
    requires h < |s.handles| && WorkerInv(s.handles[h]) && !WaitsForNothing(s, h)
    ensures WorkerStep(st, h) && Enabled(s, st)
  {
    var hd := s.handles[h];
    match hd.pc {
      case Selecting =>
        st := Worker(h, if hd.inbox != [] then Receive else if hd.closes > 0 then SeeKill else IdleReap);
      case Holding(_) => st := Worker(h, if hd.session.Some? then BeginSend else CreateSession(true));
      case Sending(_) => st := Worker(h, EndSend(true));
      case Exiting => st := Worker(h, ExitDisconnect);
      case Deregistering => st := Deregister(h);
      case _ => st := Worker(h, CloseDone);
    }
  }

  /**
   In every run a worker is blocked exactly when it has exited, or stands at its select with
   an empty inbox, its kill open and no idle session to reap.
   */
  lemma WorkerWaitsIff(tr: seq<State>, steps: seq<Step>, k: nat, h: nat)
    requires IsRun(tr, steps) && k <= |steps| && h < |tr[k].handles|
    ensures var (s, hd) := (tr[k], tr[k].handles[h]);
            WorkerBlocked(s, h) <==>
              || hd.pc == Exited
              || (hd.pc == Selecting && hd.inbox == [] && hd.closes == 0 && (hd.session.None? || !s.idleReaping))
  {
    RunKeepsInv(tr, steps, k);
    var (s, hd) := (tr[k], tr[k].handles[h]);
    assert WorkerInv(hd);
    if !WaitsForNothing(s, h) {
      var st := SomeAction(s, h);
      assert WorkerStep(st, h) && Enabled(s, st);
    }
  }

  /**
   A caller in the select of enqueue can send exactly while fewer than 64 messages are
   queued, is refused exactly once kill is closed, and can always give up with its context.
   */
  lemma SelectIsReadyIff(tr: seq<State>, steps: seq<Step>, k: nat, p: nat)
    requires IsRun(tr, steps) && k <= |steps| && p < |tr[k].calls| && tr[k].calls[p].pc.AtSelect?
    ensures tr[k].calls[p].pc.h < |tr[k].handles|
    ensures var (s, hd) := (tr[k], tr[k].handles[tr[k].calls[p].pc.h]);
            && s.calls[p].req.DispatchReq? && hd.card == s.calls[p].req.card && |hd.inbox| <= 64
            && (Enabled(s, EnqueueSend(p)) <==> |hd.inbox| < 64)
            && (Enabled(s, EnqueueKilled(p)) <==> hd.closes == 1)
            && Enabled(s, EnqueueCtxDone(p))
  {
    RunKeepsInv(tr, steps, k);
    assert CallInv(tr[k], p);
    assert WorkerInv(tr[k].handles[tr[k].calls[p].pc.h]);
  }

  // ------------------------------------------------------- without an idle timeout

  /** The worker has disconnected a session only if it has left its loop. */
  ghost predicate KeepsItsSession(hd: Handle) {
    forall i :: 0 <= i < |hd.log| && hd.log[i].Disconnected? ==> PastLoop(hd.pc)
  }

  lemma ActKeepsSession(hd: Handle, act: WorkerAct)
    requires WorkerEnabled(hd, act, false) && KeepsItsSession(hd)
    ensures KeepsItsSession(WorkerApply(hd, act))
  {
  }

  lemma TouchKeepsSession(s: State, st: Step)
    requires Enabled(s, st) && !s.idleReaping && EffectOf(s, st).onHandles.Touch?
    requires KeepsItsSession(s.handles[EffectOf(s, st).onHandles.h])
    ensures KeepsItsSession(EffectOf(s, st).onHandles.hd)
  {
    if st.Worker? {
      ActKeepsSession(s.handles[st.h], st.act);
    }
  }

  lemma StepKeepsSession(s: State, st: Step, h: nat)
    requires Enabled(s, st) && !s.idleReaping && h < |Apply(s, st).handles|
    requires h < |s.handles| ==> KeepsItsSession(s.handles[h])
    ensures KeepsItsSession(Apply(s, st).handles[h])
  {
    if EffectOf(s, st).onHandles.Touch? && EffectOf(s, st).onHandles.h == h {
      TouchKeepsSession(s, st);
    }
  }

  /** Without an idle timeout a worker keeps its session until it leaves its loop. */
  lemma SessionKeptWithoutTimeout(tr: seq<State>, steps: seq<Step>, k: nat, h: nat, i: nat)
    requires IsRun(tr, steps) && !tr[0].idleReaping && k <= |steps| && h < |tr[k].handles|
    requires i < |tr[k].handles[h].log| && tr[k].handles[h].log[i].Disconnected?
    ensures PastLoop(tr[k].handles[h].pc)
  {
    RunKeepsSession(tr, steps, k, h);
  }

  lemma {:induction false} RunKeepsSession(tr: seq<State>, steps: seq<Step>, k: nat, h: nat)
    requires IsRun(tr, steps) && !tr[0].idleReaping && k <= |steps| && h < |tr[k].handles|
    ensures KeepsItsSession(tr[k].handles[h])
    decreases k
  {
    if k > 0 {
      assert IsStep(tr, steps, k - 1);
      RunGrows(tr, steps, 0, k - 1);
      if h < |tr[k - 1].handles| {
        RunKeepsSession(tr, steps, k - 1, h);
      }
      StepKeepsSession(tr[k - 1], steps[k - 1], h);
    }
  }
}
