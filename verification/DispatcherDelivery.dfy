/**
 What every run promises about messages and sessions: FIFO delivery, conservation,
 and the balance of sessions.
 */
module DispatcherDelivery {
  import opened Common
  import opened DispatcherModel
  import opened DispatcherSessions
  import opened DispatcherInvariant

  /**
   Per-card FIFO and conservation. The callers whose enqueue on `h` returned nil are
   exactly `accepted`; their messages, in that order, are what the worker received
   followed by what waits in the inbox. What the worker received is what it prompted,
   then the message in hand or the one dropped when no session could be made.
   */
  lemma DeliveryIsFifo(tr: seq<State>, steps: seq<Step>, k: nat, h: nat)
    requires IsRun(tr, steps) && k <= |steps| && h < |tr[k].handles|
    ensures var hd := tr[k].handles[h];
            && AcceptedExactly(tr[k], h)
            && MessagesOf(tr[k].calls, hd.accepted) == hd.received + hd.inbox
            && |hd.inbox| <= 64
            && hd.received == PromptsOf(hd.log) + InHand(hd) + hd.dropped
            && |hd.dropped| <= 1 && (hd.dropped != [] ==> InHand(hd) == [])
  {
    RunKeepsInv(tr, steps, k);
    assert WorkerInv(tr[k].handles[h]) && AcceptAt(tr[k], h);
  }

  /** Callers are listed in the order in which their enqueue returned. */
  lemma AcceptedInReturnOrder(tr: seq<State>, steps: seq<Step>, j: nat, k: nat, h: nat, p: nat, q: nat)
    requires IsRun(tr, steps) && j <= k <= |steps| && h < |tr[j].handles|
    requires p < |tr[j].calls| && tr[j].calls[p].pc == Returned(Accepted(h))
    requires q < |tr[k].calls| && tr[k].calls[q].pc == Returned(Accepted(h))
    requires q < |tr[j].calls| ==> tr[j].calls[q].pc != Returned(Accepted(h))
    ensures h < |tr[k].handles|
    ensures exists a, b :: 0 <= a < b < |tr[k].handles[h].accepted|
                           && tr[k].handles[h].accepted[a] == p && tr[k].handles[h].accepted[b] == q
  {
    RunKeepsInv(tr, steps, j);
    RunKeepsInv(tr, steps, k);
    RunGrows(tr, steps, j, k);
    var (before, after) := (tr[j].handles[h].accepted, tr[k].handles[h].accepted);
    assert HandleGrows(tr[j].handles[h], tr[k].handles[h]);
    assert AcceptAt(tr[j], h) && AcceptAt(tr[k], h);
    var a :| 0 <= a < |before| && before[a] == p;
    var b :| 0 <= b < |after| && after[b] == q;
    assert b >= |before|;
    assert after[a] == p;
  }

  /** A delivered terminate message is the last prompt and ends the worker's loop. */
  lemma TerminateEndsTheWorker(tr: seq<State>, steps: seq<Step>, k: nat, h: nat, i: nat)
    requires IsRun(tr, steps) && k <= |steps| && h < |tr[k].handles|
    requires i < |tr[k].handles[h].log| && TerminateDelivered(tr[k].handles[h].log[i])
    ensures PastLoop(tr[k].handles[h].pc)
    ensures forall j :: i < j < |tr[k].handles[h].log| ==> !tr[k].handles[h].log[j].Prompted?
  {
    RunKeepsInv(tr, steps, k);
    assert WorkerInv(tr[k].handles[h]);
  }

  /**
   Session balance: created minus disconnected is 1 exactly while `session` is set;
   no session is disconnected twice; every prompt goes to an open session.
   */
  lemma SessionsBalance(tr: seq<State>, steps: seq<Step>, k: nat, h: nat)
    requires IsRun(tr, steps) && k <= |steps| && h < |tr[k].handles|
    ensures var hd := tr[k].handles[h];
            && CreatedCount(hd.log) - DisconnectedCount(hd.log) == (if hd.session.Some? then 1 else 0)
            && (forall i, j :: 0 <= i < j < |hd.log| && hd.log[i].Disconnected? && hd.log[j].Disconnected? ==>
                                 hd.log[i].sid != hd.log[j].sid)
            && (forall i :: 0 <= i < |hd.log| && hd.log[i].Prompted? ==>
                              && Created(hd.log[i].sid) in hd.log[..i]
                              && Disconnected(hd.log[i].sid) !in hd.log[..i])
  {
    var hd := tr[k].handles[h];
    RunKeepsInv(tr, steps, k);
    assert WorkerInv(hd);
    SessionCounts(hd.log);
    forall i, j | 0 <= i < j < |hd.log| && hd.log[i].Disconnected? && hd.log[j].Disconnected?
      ensures hd.log[i].sid != hd.log[j].sid
    {
      DisconnectedOnce(hd.log, i, j);
    }
    forall i | 0 <= i < |hd.log| && hd.log[i].Prompted?
      ensures Created(hd.log[i].sid) in hd.log[..i] && Disconnected(hd.log[i].sid) !in hd.log[..i]
    {
      PromptedWhileOpen(hd.log, i);
      assert hd.log[..i][hd.log[i].sid] == Created(hd.log[i].sid);
    }
  }

  /** A worker past its deregister defer has disconnected every session it made. */
  lemma DeregisteredMeansDisconnected(hd: Handle, sid: nat)
    requires WorkerInv(hd) && !hd.Live() && Created(sid) in hd.log
    ensures Disconnected(sid) in hd.log
  {
    AllDisconnected(hd.log, sid);
  }

  /** `kill` is closed at most once, however many Stop and DeleteWorker calls race. */
  lemma KillClosedOnce(tr: seq<State>, steps: seq<Step>, k: nat, h: nat)
    requires IsRun(tr, steps) && k <= |steps| && h < |tr[k].handles|
    ensures tr[k].handles[h].closes <= 1
  {
    RunKeepsInv(tr, steps, k);
    assert WorkerInv(tr[k].handles[h]);
  }
}
