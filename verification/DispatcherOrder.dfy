/**
 The order of delivery per card, across the workers a card has one after the other.
 */
module DispatcherOrder {
  import opened Common
  import opened DispatcherModel
  import opened DispatcherSessions
  import opened DispatcherInvariant
  import opened DispatcherDelivery
  import opened DispatcherRegistry
  import opened DispatcherRuns
  import opened DispatcherLoss
  import opened DispatcherRaces

  /** The caller's message was accepted: its enqueue returned nil. */
  predicate WasAccepted(s: State, p: nat) {
    p < |s.calls| && s.calls[p].pc.Returned? && s.calls[p].pc.outcome.Accepted?
  }

  /** A worker has taken the caller's message out of its inbox. */
  ghost predicate Delivered(s: State, p: nat) {
    && WasAccepted(s, p) && s.calls[p].pc.outcome.h < |s.handles|
    && exists a :: DeliveredAs(s.handles[s.calls[p].pc.outcome.h], p, a)
  }

  ghost predicate DeliveredAs(hd: Handle, p: nat, a: nat) {
    a < |hd.received| && a < |hd.accepted| && hd.accepted[a] == p
  }

  /** No registration of the card is racy, up to `k`. */
  ghost predicate CalmFor(tr: seq<State>, steps: seq<Step>, k: nat, card: Card)
    requires |tr| == |steps| + 1 && k <= |steps|
  {
    forall j :: 0 <= j < k ==> !Racy(tr[j], steps[j], card)
  }

  /** Where a newer worker of the card exists the older one has left its loop. */
  lemma {:induction false} OlderHasLeft(tr: seq<State>, steps: seq<Step>, k: nat, g: nat, h: nat)
    requires IsRun(tr, steps) && k <= |steps| && g < h < |tr[k].handles|
    requires tr[k].handles[g].card == tr[k].handles[h].card && CalmFor(tr, steps, k, tr[k].handles[h].card)
    ensures PastLoop(tr[k].handles[g].pc)
    decreases k
  {
    var card := tr[k].handles[h].card;
    assert k > 0;
    assert IsStep(tr, steps, k - 1);
    StepGrows(tr[k - 1], steps[k - 1]);
    if h < |tr[k - 1].handles| {
      assert HandleGrows(tr[k - 1].handles[g], tr[k].handles[g]) && HandleGrows(tr[k - 1].handles[h], tr[k].handles[h]);
      OlderHasLeft(tr, steps, k - 1, g, h);
      PastLoopIsFinal(tr[k - 1], steps[k - 1], g);
    } else {
      CalmRunKeepsOne(tr, steps, k, card);
      NewIsLive(tr[k - 1], steps[k - 1], h);
      assert LiveFor(tr[k], h, card) && !LiveFor(tr[k], g, card);
    }
  }

  lemma NewIsLive(s: State, st: Step, h: nat)
    requires Enabled(s, st) && |s.handles| <= h < |Apply(s, st).handles|
    ensures Apply(s, st).handles[h].Live()
  {
  }

  /** ... and receives nothing more. */
  lemma OlderWorkerIsDone(tr: seq<State>, steps: seq<Step>, j: nat, k: nat, g: nat, h: nat)
    requires IsRun(tr, steps) && j <= k <= |steps| && g < h < |tr[j].handles|
    requires tr[j].handles[g].card == tr[j].handles[h].card && CalmFor(tr, steps, j, tr[j].handles[h].card)
    ensures g < |tr[k].handles| && tr[k].handles[g].received == tr[j].handles[g].received
  {
    OlderHasLeft(tr, steps, j, g, h);
    NothingMoreIsReceived(tr, steps, g, j, k);
  }

  /** Whose enqueue returned nil is in the list of the handle it names, which is the card's. */
  lemma AcceptedIsListed(tr: seq<State>, steps: seq<Step>, k: nat, p: nat) returns (a: nat)
    requires IsRun(tr, steps) && k <= |steps| && WasAccepted(tr[k], p)
    ensures var (s, h) := (tr[k], tr[k].calls[p].pc.outcome.h);
            && s.calls[p].req.DispatchReq? && h < |s.handles| && s.handles[h].card == s.calls[p].req.card
            && a < |s.handles[h].accepted| && s.handles[h].accepted[a] == p
            && |s.handles[h].received| <= |s.handles[h].accepted|
  {
    RunKeepsInv(tr, steps, k);
    a := AcceptedIsListedIn(tr[k], p);
  }

  lemma AcceptedIsListedIn(s: State, p: nat) returns (a: nat)
    requires Inv(s) && WasAccepted(s, p)
    ensures var h := s.calls[p].pc.outcome.h;
            && s.calls[p].req.DispatchReq? && h < |s.handles| && s.handles[h].card == s.calls[p].req.card
            && a < |s.handles[h].accepted| && s.handles[h].accepted[a] == p
            && |s.handles[h].received| <= |s.handles[h].accepted|
  {
    var h := s.calls[p].pc.outcome.h;
    assert CallInvAt(s, p);
    QueuedIfAccepted(s, h);
    assert AcceptAt(s, h);
    a :| 0 <= a < |s.handles[h].accepted| && s.handles[h].accepted[a] == p;
  }

  /** Accepted by one worker, in the order of the enqueues: the later is not delivered first. */
  lemma SameWorkerInOrder(tr: seq<State>, steps: seq<Step>, i: nat, j: nat, p: nat, q: nat)
    requires IsRun(tr, steps) && i <= j <= |steps|
    requires WasAccepted(tr[i], p) && !WasAccepted(tr[i], q) && Delivered(tr[j], q)
    requires tr[j].calls[q].pc == tr[i].calls[p].pc
    ensures Delivered(tr[j], p)
  {
    var h := tr[i].calls[p].pc.outcome.h;
    RunGrows(tr, steps, i, j);
    RunKeepsInv(tr, steps, j);
    var c := AcceptedIsListed(tr, steps, i, p);
    assert CallGrows(tr[i].calls[p], tr[j].calls[p]);
    AcceptedInReturnOrder(tr, steps, i, j, h, p, q);
    var a, b :| 0 <= a < b < |tr[j].handles[h].accepted|
                && tr[j].handles[h].accepted[a] == p && tr[j].handles[h].accepted[b] == q;
    var d :| DeliveredAs(tr[j].handles[h], q, d);
    assert AcceptAt(tr[j], h);
    assert d == b;
    assert DeliveredAs(tr[j].handles[h], p, a);
  }

  /** Accepted by an older worker: what it delivers at all it has delivered when a newer one exists. */
  lemma OlderDeliversFirst(tr: seq<State>, steps: seq<Step>, j: nat, k: nat, p: nat, h: nat)
    requires IsRun(tr, steps) && j <= k <= |steps| && Delivered(tr[k], p) && WasAccepted(tr[j], p)
    requires tr[j].calls[p].pc.outcome.h < h < |tr[j].handles|
    requires tr[j].calls[p].req.DispatchReq? && tr[j].handles[h].card == tr[j].calls[p].req.card
    requires CalmFor(tr, steps, j, tr[j].calls[p].req.card)
    ensures Delivered(tr[j], p)
  {
    var g := tr[j].calls[p].pc.outcome.h;
    var a := AcceptedIsListed(tr, steps, j, p);
    RunGrows(tr, steps, j, k);
    assert CallGrows(tr[j].calls[p], tr[k].calls[p]);
    assert HandleGrows(tr[j].handles[g], tr[k].handles[g]);
    OlderWorkerIsDone(tr, steps, j, k, g, h);
    RunKeepsInv(tr, steps, k);
    assert AcceptAt(tr[k], g);
    var d :| DeliveredAs(tr[k].handles[g], p, d);
    assert tr[k].handles[g].accepted[a] == p;
    assert DeliveredAs(tr[j].handles[g], p, a);
  }

  /** Accepted by an older worker after a newer one exists: never delivered. */
  lemma OlderDeliversNothingNew(tr: seq<State>, steps: seq<Step>, i: nat, j: nat, q: nat, g: nat)
    requires IsRun(tr, steps) && i <= j <= |steps| && !WasAccepted(tr[i], q) && WasAccepted(tr[j], q)
    requires tr[j].calls[q].pc.outcome.h < g < |tr[i].handles|
    requires tr[j].calls[q].req.DispatchReq? && tr[i].handles[g].card == tr[j].calls[q].req.card
    requires CalmFor(tr, steps, i, tr[j].calls[q].req.card)
    ensures !Delivered(tr[j], q)
  {
    var h := tr[j].calls[q].pc.outcome.h;
    var b := AcceptedIsListed(tr, steps, j, q);
    RunGrows(tr, steps, i, j);
    assert HandleGrows(tr[i].handles[h], tr[j].handles[h]);
    OlderWorkerIsDone(tr, steps, i, j, h, g);
    RunKeepsInv(tr, steps, i);
    assert AcceptAt(tr[i], h);
    QueuedIfAccepted(tr[i], h);
  }

  /**
   Per-card FIFO, across the card's workers: in a run without a racy registration of the
   card, of two messages of the card the one whose enqueue returned first is delivered
   first, unless it is never delivered.
   */
  lemma CardIsFifo(tr: seq<State>, steps: seq<Step>, i: nat, j: nat, k: nat, p: nat, q: nat)
    requires IsRun(tr, steps) && i <= j <= k <= |steps|
    requires WasAccepted(tr[i], p) && !WasAccepted(tr[i], q)
    requires Delivered(tr[j], q) && Delivered(tr[k], p)
    requires p < |tr[i].calls| && q < |tr[j].calls| && SameCard(tr[i].calls[p].req, tr[j].calls[q].req)
    requires CalmFor(tr, steps, j, tr[i].calls[p].req.card)
    ensures Delivered(tr[j], p)
  {
    RunGrows(tr, steps, i, j);
    assert CallGrows(tr[i].calls[p], tr[j].calls[p]);
    var a := AcceptedIsListed(tr, steps, i, p);
    var b := AcceptedIsListed(tr, steps, j, q);
    var (g, h) := (tr[i].calls[p].pc.outcome.h, tr[j].calls[q].pc.outcome.h);
    assert HandleGrows(tr[i].handles[g], tr[j].handles[g]);
    if g == h {
      SameWorkerInOrder(tr, steps, i, j, p, q);
    } else if g < h {
      OlderDeliversFirst(tr, steps, j, k, p, h);
    } else {
      OlderDeliversNothingNew(tr, steps, i, j, q, g);
    }
  }

  predicate SameCard(r: Request, r': Request) { r.DispatchReq? && r'.DispatchReq? && r.card == r'.card }

  // --------------------------------------------------------- the order can break

  /** Of two messages of a card the one accepted later was delivered first. */
  ghost predicate Overtaken(tr: seq<State>, i: nat, j: nat, k: nat, p: nat, q: nat) {
    && i <= j <= k < |tr|
    && WasAccepted(tr[i], p) && p < |tr[i].calls| && !WasAccepted(tr[i], q)
    && Delivered(tr[j], q) && !Delivered(tr[j], p) && Delivered(tr[k], p)
    && SameCard(tr[i].calls[p].req, tr[j].calls[q].req)
  }

  /** With two live workers of a card the later one can be the faster. */
  lemma CardOrderCanBreak()
    ensures exists tr, steps, i, j, k, p, q :: IsRun(tr, steps) && Overtaken(tr, i, j, k, p, q)
  {
    var tr0, steps0 := TwoWorkersRun();
    var n := |steps0|;
    var tr1, steps1 := OneMore(tr0, steps0, EnqueueSend(0));
    var tr2, steps2 := OneMore(tr1, steps1, EnqueueSend(2));
    var tr3, steps3 := OneMore(tr2, steps2, Worker(1, Receive));
    var tr4, steps4 := OneMore(tr3, steps3, Worker(0, Receive));
    assert tr4[n + 1] == tr1[n + 1] && tr4[n + 3] == tr3[n + 3];
    assert DeliveredAs(tr3[n + 3].handles[1], 2, 0);
    assert DeliveredAs(tr4[n + 4].handles[0], 0, 0);
    assert Overtaken(tr4, n + 1, n + 3, n + 4, 0, 2);
  }
}
