/**
 One worker goroutine seen alone: how it uses its sessions and what it does with the
 messages it takes out of its inbox (runWorker, internal/app/dispatcher.go:397-508).
 */
module DispatcherSessions {
  import opened Common
  import opened DispatcherModel

  // ------------------------------------------- sessions as an accepted language

  /** The life of sessions as a machine reading the log; `Misused` is its error state. */
  datatype Usage = NoSession | Open(sid: nat) | Busy(sid: nat, msg: Msg) | Misused

  /** At most one session at a time; prompts one by one and only on an open session. */
  function Replay(log: seq<SessionEvent>): Usage {
    if log == [] then NoSession
    else
      var before := Replay(log[..|log| - 1]);
      match log[|log| - 1]
      case Created(sid) => if before.NoSession? && sid == |log| - 1 then Open(sid) else Misused
      case Prompted(sid, msg) => if before == Open(sid) then Busy(sid, msg) else Misused
      case Answered(sid, msg, _) => if before == Busy(sid, msg) then Open(sid) else Misused
      case Disconnected(sid) => if before == Open(sid) then NoSession else Misused
  }

  function PromptsOf(log: seq<SessionEvent>): seq<Msg> {
    if log == [] then []
    else
      var last := log[|log| - 1];
      PromptsOf(log[..|log| - 1]) + if last.Prompted? then [last.msg] else []
  }

  function CreatedCount(log: seq<SessionEvent>): nat {
    if log == [] then 0
    else CreatedCount(log[..|log| - 1]) + if log[|log| - 1].Created? then 1 else 0
  }

  function DisconnectedCount(log: seq<SessionEvent>): nat {
    if log == [] then 0
    else DisconnectedCount(log[..|log| - 1]) + if log[|log| - 1].Disconnected? then 1 else 0
  }

  /** A prefix of a well-used log is well used. */
  lemma {:induction false} PrefixWellUsed(log: seq<SessionEvent>, k: nat)
    requires k <= |log| && !Replay(log).Misused?
    ensures !Replay(log[..k]).Misused?
  {
    if k == |log| {
      assert log[..k] == log;
    } else {
      PrefixWellUsed(log[..|log| - 1], k);
      assert log[..|log| - 1][..k] == log[..k];
    }
  }

  /** Created minus disconnected is 1 exactly while a session is open. */
  lemma {:induction false} SessionCounts(log: seq<SessionEvent>)
    requires !Replay(log).Misused?
    ensures CreatedCount(log) == DisconnectedCount(log) + if Replay(log).NoSession? then 0 else 1
  {
    if log != [] {
      PrefixWellUsed(log, |log| - 1);
      SessionCounts(log[..|log| - 1]);
    }
  }

  /** While a session is open, it was created where its name says and not yet disconnected. */
  lemma {:induction false} OpenSessionIsFresh(log: seq<SessionEvent>)
    requires Replay(log).Open? || Replay(log).Busy?
    ensures Replay(log).sid < |log| && log[Replay(log).sid] == Created(Replay(log).sid)
    ensures Disconnected(Replay(log).sid) !in log
    decreases |log|
  {
    var front := log[..|log| - 1];
    if log[|log| - 1].Created? {
      PrefixWellUsed(log, |log| - 1);
      assert forall i :: 0 <= i < |front| && front[i].Disconnected? ==> front[i].sid < i by {
        forall i | 0 <= i < |front| && front[i].Disconnected? ensures front[i].sid < i {
          DisconnectedAfterCreated(front, i);
        }
      }
    } else {
      OpenSessionIsFresh(front);
    }
  }

  /** A disconnect closes the session created earlier under that name, the first time. */
  lemma {:induction false} DisconnectedAfterCreated(log: seq<SessionEvent>, i: nat)
    requires !Replay(log).Misused? && i < |log| && log[i].Disconnected?
    ensures log[i].sid < i && log[log[i].sid] == Created(log[i].sid)
    ensures log[i] !in log[..i]
    decreases |log|
  {
    PrefixWellUsed(log, i + 1);
    assert log[..i + 1][..i] == log[..i];
    OpenSessionIsFresh(log[..i]);
  }

  /** No session is disconnected twice. */
  lemma DisconnectedOnce(log: seq<SessionEvent>, i: nat, j: nat)
    requires !Replay(log).Misused?
    requires i < j < |log| && log[i].Disconnected? && log[j].Disconnected?
    ensures log[i].sid != log[j].sid
  {
    DisconnectedAfterCreated(log, j);
    assert log[i] in log[..j];
  }

  /** Every prompt goes to a session that was created before it and not yet disconnected. */
  lemma PromptedWhileOpen(log: seq<SessionEvent>, i: nat)
    requires !Replay(log).Misused? && i < |log| && log[i].Prompted?
    ensures log[i].sid < i && log[log[i].sid] == Created(log[i].sid)
    ensures Disconnected(log[i].sid) !in log[..i]
  {
    PrefixWellUsed(log, i + 1);
    assert log[..i + 1][..i] == log[..i];
    OpenSessionIsFresh(log[..i]);
  }

  /** Once no session is open, every session created has been disconnected. */
  lemma {:induction false} AllDisconnected(log: seq<SessionEvent>, sid: nat)
    requires !Replay(log).Misused? && Created(sid) in log
    ensures Disconnected(sid) in log || Replay(log) == Open(sid) || (Replay(log).Busy? && Replay(log).sid == sid)
  {
    var front := log[..|log| - 1];
    PrefixWellUsed(log, |log| - 1);
    assert log == front + [log[|log| - 1]];
    if Created(sid) in front {
      AllDisconnected(front, sid);
    }
  }

  // ------------------------------------------------------ the worker's invariant

  ghost predicate PastLoop(pc: WorkerPc) {
    pc.Exiting? || pc.Deregistering? || pc.Closing? || pc.Exited?
  }

  /** What the log must amount to, given the worker's program counter and `session`. */
  function ExpectedUsage(hd: Handle): Usage {
    if hd.session.None? then NoSession
    else if hd.pc.Sending? then Busy(hd.session.value, hd.pc.msg)
    else Open(hd.session.value)
  }

  function InHand(hd: Handle): seq<Msg> {
    if hd.pc.Holding? then [hd.pc.msg] else []
  }

  ghost predicate TerminateDelivered(e: SessionEvent) {
    e.Answered? && e.ok && e.msg.kind.KindTerminate?
  }

  /** Nothing is prompted after a delivered terminate message. */
  ghost predicate TerminateIsLast(log: seq<SessionEvent>) {
    forall i, j :: 0 <= i < j < |log| && TerminateDelivered(log[i]) ==> !log[j].Prompted?
  }

  ghost predicate WorkerInv(hd: Handle) {
    && Replay(hd.log) == ExpectedUsage(hd)
    && (hd.pc.Sending? ==> hd.session.Some?)
    && (PastLoop(hd.pc) && !hd.pc.Exiting? ==> hd.session.None?)
    && hd.received == PromptsOf(hd.log) + InHand(hd) + hd.dropped
    && (hd.dropped != [] ==> |hd.dropped| == 1 && PastLoop(hd.pc))
    && TerminateIsLast(hd.log)
    && (forall i :: 0 <= i < |hd.log| && TerminateDelivered(hd.log[i]) ==> PastLoop(hd.pc))
    && |hd.inbox| <= INBOX_BUF
    && hd.closes <= 1
    && (hd.once.Fresh? <==> hd.closes == 0)
    && (hd.once.Completed? <==> hd.cancelled)
  }

  /** How one more event moves the session machine, the prompts and the terminate rule. */
  lemma AppendEvent(log: seq<SessionEvent>, e: SessionEvent)
    ensures Replay(log + [e]) ==
            match e
            case Created(sid) => if Replay(log).NoSession? && sid == |log| then Open(sid) else Misused
            case Prompted(sid, msg) => if Replay(log) == Open(sid) then Busy(sid, msg) else Misused
            case Answered(sid, msg, _) => if Replay(log) == Busy(sid, msg) then Open(sid) else Misused
            case Disconnected(sid) => if Replay(log) == Open(sid) then NoSession else Misused
    ensures PromptsOf(log + [e]) == PromptsOf(log) + if e.Prompted? then [e.msg] else []
    ensures TerminateIsLast(log) && (!e.Prompted? || forall i :: 0 <= i < |log| ==> !TerminateDelivered(log[i]))
            ==> TerminateIsLast(log + [e])
  {
    assert (log + [e])[..|log + [e]| - 1] == log;
  }

  lemma DisconnectKeepsInv(hd: Handle)
    requires WorkerInv(hd) && !hd.pc.Sending?
    ensures WorkerInv(Disconnect(hd)) && Disconnect(hd).session.None?
  {
    if hd.session.Some? {
      AppendEvent(hd.log, Disconnected(hd.session.value));
      assert Disconnect(hd).received == PromptsOf(Disconnect(hd).log) + InHand(hd) + hd.dropped;
    }
  }

  lemma CreateKeepsInv(hd: Handle, ok: bool)
    requires WorkerInv(hd) && WorkerEnabled(hd, CreateSession(ok), true)
    ensures WorkerInv(WorkerApply(hd, CreateSession(ok)))
  {
    AppendEvent(hd.log, Created(|hd.log|));
    if !ok {
      assert hd.dropped == [] && PromptsOf(hd.log) + [hd.pc.msg] + [] == PromptsOf(hd.log) + [] + [hd.pc.msg];
    }
  }

  lemma BeginKeepsInv(hd: Handle)
    requires WorkerInv(hd) && WorkerEnabled(hd, BeginSend, true)
    ensures WorkerInv(WorkerApply(hd, BeginSend))
  {
    AppendEvent(hd.log, Prompted(hd.session.value, hd.pc.msg));
    assert hd.dropped == [] && PromptsOf(hd.log) + [hd.pc.msg] + [] == (PromptsOf(hd.log) + [hd.pc.msg]) + [] + [];
  }

  lemma EndKeepsInv(hd: Handle, ok: bool)
    requires WorkerInv(hd) && WorkerEnabled(hd, EndSend(ok), true)
    ensures WorkerInv(WorkerApply(hd, EndSend(ok)))
  {
    AppendEvent(hd.log, Answered(hd.session.value, hd.pc.msg, ok));
  }

  lemma ReceiveKeepsInv(hd: Handle)
    requires WorkerInv(hd) && WorkerEnabled(hd, Receive, true)
    ensures WorkerInv(WorkerApply(hd, Receive))
  {
    assert hd.dropped == [];
    assert hd.received + [hd.inbox[0]] == PromptsOf(hd.log) + [hd.inbox[0]] + [];
  }

  /** Every action of the worker keeps its invariant. */
  lemma WorkerKeepsInv(hd: Handle, a: WorkerAct)
    requires WorkerInv(hd) && WorkerEnabled(hd, a, true)
    ensures WorkerInv(WorkerApply(hd, a))
  {
    match a
    case Receive => ReceiveKeepsInv(hd);
    case SeeKill =>
    case IdleReap => DisconnectKeepsInv(hd);
    case CreateSession(ok) => CreateKeepsInv(hd, ok);
    case BeginSend => BeginKeepsInv(hd);
    case EndSend(ok) => EndKeepsInv(hd, ok);
    case ExitDisconnect => DisconnectKeepsInv(hd);
    case CloseDone =>
  }
}
