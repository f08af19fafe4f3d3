/**
 The inductive invariant of the dispatcher, kept by every step of every interleaving,
 `DeleteWorker` and its races included.
 */
module DispatcherInvariant {
  import opened Common
  import opened DispatcherModel
  import opened DispatcherSessions

  // ------------------------------------------------------------- what only grows

  /** What no step takes back. */
  ghost predicate Grows(s: State, s': State) {
    && |s.handles| <= |s'.handles| && |s.calls| <= |s'.calls|
    && (s.stopped ==> s'.stopped) && s.idleReaping == s'.idleReaping
    && (forall h :: 0 <= h < |s.handles| ==> HandleGrows(s.handles[h], s'.handles[h]))
    && (forall p :: 0 <= p < |s.calls| ==> CallGrows(s.calls[p], s'.calls[p]))
  }

  ghost predicate HandleGrows(hd: Handle, hd': Handle) {
    && hd'.card == hd.card
    && (hd.deleted ==> hd'.deleted) && (hd.Killed() ==> hd'.Killed())
    && (hd.once.Completed? ==> hd'.once.Completed?)
    && (hd.pc.Exited? ==> hd'.pc.Exited?)
    && (!hd.Live() ==> !hd'.Live())
    && hd.accepted <= hd'.accepted && hd.received <= hd'.received && hd.log <= hd'.log
  }

  ghost predicate CallGrows(c: Caller, c': Caller) {
    c'.req == c.req && (c.pc.Returned? ==> c' == c)
  }

  lemma WorkerGrows(hd: Handle, a: WorkerAct)
    requires WorkerEnabled(hd, a, true)
    ensures HandleGrows(hd, WorkerApply(hd, a))
  {
  }

  lemma TouchedGrows(s: State, st: Step)
    requires Enabled(s, st) && EffectOf(s, st).onHandles.Touch?
    ensures HandleGrows(s.handles[EffectOf(s, st).onHandles.h], EffectOf(s, st).onHandles.hd)
  {
    if st.Worker? {
      WorkerGrows(s.handles[st.h], st.act);
    }
  }

  /** A step touches one handle and moves one caller without taking anything back. */
  lemma EffectGrows(s: State, st: Step)
    requires Enabled(s, st)
    ensures var e := EffectOf(s, st);
            && (s.stopped ==> e.stopped)
            && (e.onHandles.Touch? ==> HandleGrows(s.handles[e.onHandles.h], e.onHandles.hd))
            && (e.onCalls.Move? ==> !s.calls[e.onCalls.p].pc.Returned?)
  {
    if EffectOf(s, st).onHandles.Touch? {
      TouchedGrows(s, st);
    }
  }

  /** Nothing is taken back when the touched handle and the moved caller only grow. */
  lemma PerformGrows(s: State, e: Effect)
    requires EffectOk(s, e) && (s.stopped ==> e.stopped)
    requires e.onHandles.Touch? ==> HandleGrows(s.handles[e.onHandles.h], e.onHandles.hd)
    requires e.onCalls.Move? ==> !s.calls[e.onCalls.p].pc.Returned?
    ensures Grows(s, Perform(s, e))
  {
  }

  lemma StepGrows(s: State, st: Step)
    requires Enabled(s, st)
    ensures Grows(s, Apply(s, st))
  {
    EffectGrows(s, st);
    PerformGrows(s, EffectOf(s, st));
  }

  // -------------------------------------------------------------------- workers

  ghost predicate WorkersInv(s: State) {
    forall h :: 0 <= h < |s.handles| ==> WorkerInv(s.handles[h])
  }

  lemma TouchedKeepsWorkerInv(s: State, st: Step)
    requires Enabled(s, st) && EffectOf(s, st).onHandles.Touch?
    requires WorkerInv(s.handles[EffectOf(s, st).onHandles.h])
    requires st.CancelCtx? ==> s.handles[Target(s, st.p)].once.RunBy?
    ensures WorkerInv(EffectOf(s, st).onHandles.hd)
  {
    if st.Worker? {
      WorkerKeepsInv(s.handles[st.h], st.act);
    }
  }

  lemma PerformKeepsWorkersInv(s: State, e: Effect)
    requires WorkersInv(s) && EffectOk(s, e) && (e.onHandles.Touch? ==> WorkerInv(e.onHandles.hd))
    ensures WorkersInv(Perform(s, e))
  {
  }

  lemma StepKeepsWorkersInv(s: State, st: Step)
    requires WorkersInv(s) && CallsInv(s) && Enabled(s, st)
    ensures WorkersInv(Apply(s, st))
  {
    if st.CancelCtx? {
      assert CallInv(s, st.p);
    }
    if EffectOf(s, st).onHandles.Touch? {
      TouchedKeepsWorkerInv(s, st);
    }
    PerformKeepsWorkersInv(s, EffectOf(s, st));
  }

  // ------------------------------------------------------------------- registry

  /** The registry holds live, never unlinked handles, each under its own card. */
  ghost predicate RegistryInv(s: State) {
    && (forall c :: c in s.workers ==> Registered(s, c))
    && (forall h :: 0 <= h < |s.handles| && s.handles[h].Killed() ==> s.stopped || s.handles[h].deleted)
  }

  ghost predicate Registered(s: State, c: Card)
    requires c in s.workers
  {
    && s.workers[c] < |s.handles| && s.handles[s.workers[c]].card == c
    && s.handles[s.workers[c]].Live() && !s.handles[s.workers[c]].deleted
  }

  /** An entry of the registry after a step is new or was there, and is not spoilt by it. */
  lemma EffectOnEntry(s: State, st: Step, c: Card)
    requires RegistryInv(s) && Enabled(s, st) && c in EffectOf(s, st).workers
    ensures var e := EffectOf(s, st);
            || (e.onHandles == Spawn(c) && e.workers[c] == |s.handles|)
            || (c in s.workers && e.workers[c] == s.workers[c]
                && (e.onHandles.Touch? && e.onHandles.h == s.workers[c] ==>
                      e.onHandles.hd.Live() && !e.onHandles.hd.deleted))
  {
    assert c in s.workers ==> Registered(s, c);
  }

  lemma StepKeepsEntries(s: State, st: Step)
    requires RegistryInv(s) && Enabled(s, st)
    ensures forall c :: c in Apply(s, st).workers ==> Registered(Apply(s, st), c)
  {
    StepGrows(s, st);
    forall c | c in Apply(s, st).workers ensures Registered(Apply(s, st), c) {
      EffectOnEntry(s, st, c);
    }
  }

  /** Only shutdown closes kill, and it works on unlinked handles or after the stop. */
  lemma EffectOnKill(s: State, st: Step)
    requires Enabled(s, st) && EffectOf(s, st).onHandles.Touch?
    requires st.CloseKill? ==> CallInv(s, st.p)
    ensures var e := EffectOf(s, st);
            e.onHandles.hd.Killed() ==> s.handles[e.onHandles.h].Killed() || e.stopped || e.onHandles.hd.deleted
  {
  }

  lemma StepKeepsRegistryInv(s: State, st: Step)
    requires RegistryInv(s) && CallsInv(s) && Enabled(s, st)
    ensures RegistryInv(Apply(s, st))
  {
    StepKeepsEntries(s, st);
    StepKeepsKilled(s, st);
  }

  lemma StepKeepsKilled(s: State, st: Step)
    requires RegistryInv(s) && CallsInv(s) && Enabled(s, st)
    ensures forall h :: 0 <= h < |Apply(s, st).handles| && Apply(s, st).handles[h].Killed() ==>
                          Apply(s, st).stopped || Apply(s, st).handles[h].deleted
  {
    EffectGrows(s, st);
    if st.CloseKill? {
      assert CallInv(s, st.p);
    }
    if EffectOf(s, st).onHandles.Touch? {
      EffectOnKill(s, st);
    }
  }

  // -------------------------------------------------------------------- callers

  ghost predicate CallsInv(s: State) {
    && (forall p :: 0 <= p < |s.calls| ==> CallInv(s, p))
    && (forall h :: 0 <= h < |s.handles| && s.handles[h].once.RunBy? ==> OnceRuns(s, h))
  }

  /** A half-done shutdown has a caller inside it. */
  ghost predicate OnceRuns(s: State, h: nat)
    requires h < |s.handles| && s.handles[h].once.RunBy?
  {
    var p := s.handles[h].once.p;
    && p < |s.calls| && s.calls[p].pc.Cancelling?
    && s.calls[p].pc.i < |s.calls[p].pc.hs| && Target(s, p) == h
  }

  /** The handles a shutting caller works on, and why it may. */
  ghost predicate Targets(s: State, req: Request, hs: seq<nat>) {
    && (forall k :: 0 <= k < |hs| ==> hs[k] < |s.handles|)
    && match req
       case DispatchReq(_, _, _, _) => false
       case StopReq => s.stopped
       case DeleteReq(card) =>
         |hs| == 1 && hs[0] < |s.handles| && s.handles[hs[0]].deleted && s.handles[hs[0]].card == card
  }

  ghost predicate ShutDown(s: State, hs: seq<nat>, upTo: nat) {
    forall k :: 0 <= k < |hs| && k < upTo ==> hs[k] < |s.handles| && s.handles[hs[k]].once.Completed?
  }

  ghost predicate Done(s: State, hs: seq<nat>, upTo: nat) {
    forall k :: 0 <= k < |hs| && k < upTo ==> hs[k] < |s.handles| && s.handles[hs[k]].pc.Exited?
  }

  ghost predicate CallInv(s: State, p: nat)
    requires p < |s.calls|
  {
    var req := s.calls[p].req;
    match s.calls[p].pc
    case Entered => true
    case AtLock => req.DispatchReq?
    case AtSelect(h) => req.DispatchReq? && h < |s.handles| && s.handles[h].card == req.card
    case Shutting(hs, i) => i < |hs| && Targets(s, req, hs) && ShutDown(s, hs, i)
    case Cancelling(hs, i) =>
      && i < |hs| && Targets(s, req, hs) && ShutDown(s, hs, i)
      && s.handles[hs[i]].once == RunBy(p)
    case Waiting(hs, i) => i < |hs| && Targets(s, req, hs) && ShutDown(s, hs, |hs|) && Done(s, hs, i)
    case Returned(Accepted(h)) => req.DispatchReq? && h < |s.handles| && s.handles[h].card == req.card
    case Returned(Stopped(hs)) => Targets(s, StopReq, hs) && req.StopReq? && Done(s, hs, |hs|)
    case Returned(Deleted(h)) => req.DeleteReq? && Targets(s, req, [h]) && Done(s, [h], 1)
    case Returned(_) => true
  }

  ghost predicate CallInvAt(s: State, p: nat) { p < |s.calls| && CallInv(s, p) }

  /** A caller that did not move keeps its invariant while the rest only grows. */
  lemma FrameCall(s: State, s': State, p: nat)
    requires Grows(s, s') && p < |s.calls| && CallInv(s, p) && s'.calls[p] == s.calls[p]
    requires s.calls[p].pc.Cancelling? ==>
               s.calls[p].pc.i < |s.calls[p].pc.hs| && Target(s, p) < |s.handles|
               && s'.handles[Target(s, p)].once == s.handles[Target(s, p)].once
    ensures CallInv(s', p)
  {
  }

  /** The caller that a step moves, if any. */
  function Mover(st: Step): Option<nat> {
    match st
    case Call(_) => None
    case Decide(p) => Some(p)
    case EnqueueLock(p) => Some(p)
    case EnqueueSend(p) => Some(p)
    case EnqueueKilled(p) => Some(p)
    case EnqueueCtxDone(p) => Some(p)
    case StopLock(p, _) => Some(p)
    case DeleteLock(p) => Some(p)
    case CloseKill(p) => Some(p)
    case CancelCtx(p) => Some(p)
    case SkipShutdown(p) => Some(p)
    case AwaitDone(p) => Some(p)
    case Worker(_, _) => None
    case Deregister(_) => None
  }

  /** Steps of Dispatch and enqueue, and the lock of DeleteWorker. */
  lemma EnqueueKeepsCallInv(s: State, st: Step, p: nat)
    requires RegistryInv(s) && CallsInv(s) && Enabled(s, st) && Mover(st) == Some(p)
    requires st.Decide? || st.EnqueueLock? || st.EnqueueSend? || st.EnqueueKilled? || st.EnqueueCtxDone?
             || st.DeleteLock?
    ensures CallInv(Apply(s, st), p)
  {
    assert CallInv(s, p);
    if s.calls[p].req.card in s.workers {
      assert Registered(s, s.calls[p].req.card);
    }
  }

  /** The snapshot Stop takes consists of existing handles. */
  lemma SnapshotExists(s: State, order: seq<nat>)
    requires RegistryInv(s) && Enumerates(order, s.workers)
    ensures forall k :: 0 <= k < |order| ==> order[k] < |s.handles|
  {
    forall k | 0 <= k < |order| ensures order[k] < |s.handles| {
      assert order[k] in s.workers.Values;
      var c :| c in s.workers && s.workers[c] == order[k];
      assert Registered(s, c);
    }
  }

  lemma StopLockKeepsCallInv(s: State, p: nat, order: seq<nat>)
    requires RegistryInv(s) && CallInvAt(s, p) && Enabled(s, StopLock(p, order))
    ensures CallInv(Apply(s, StopLock(p, order)), p)
  {
    SnapshotExists(s, order);
  }

  lemma CloseKillKeepsCallInv(s: State, p: nat)
    requires CallInvAt(s, p) && Enabled(s, CloseKill(p))
    ensures CallInv(Apply(s, CloseKill(p)), p)
  {
  }

  lemma CancelKeepsCallInv(s: State, p: nat)
    requires CallInvAt(s, p) && Enabled(s, CancelCtx(p))
    ensures CallInv(Apply(s, CancelCtx(p)), p)
  {
  }

  lemma WaitKeepsCallInv(s: State, st: Step, p: nat)
    requires CallInvAt(s, p) && Enabled(s, st) && (st == SkipShutdown(p) || st == AwaitDone(p))
    ensures CallInv(Apply(s, st), p)
  {
  }

  /** The step leaves its own caller in a good place. */
  lemma MoverKeepsCallInv(s: State, st: Step)
    requires RegistryInv(s) && CallsInv(s) && Enabled(s, st) && Mover(st).Some?
    ensures CallInv(Apply(s, st), Mover(st).value)
  {
    var p := Mover(st).value;
    assert CallInvAt(s, p);
    match st
    case StopLock(_, order) => StopLockKeepsCallInv(s, p, order);
    case CloseKill(_) => CloseKillKeepsCallInv(s, p);
    case CancelCtx(_) => CancelKeepsCallInv(s, p);
    case SkipShutdown(_) => WaitKeepsCallInv(s, st, p);
    case AwaitDone(_) => WaitKeepsCallInv(s, st, p);
    case _ => EnqueueKeepsCallInv(s, st, p);
  }

  /** A half-done shutdown is completed only by the caller inside it. */
  lemma OnceIsPrivate(s: State, st: Step, h: nat)
    requires CallsInv(s) && Enabled(s, st) && h < |s.handles| && s.handles[h].once.RunBy?
    requires EffectOf(s, st).onHandles.Touch? && EffectOf(s, st).onHandles.h == h
    ensures || EffectOf(s, st).onHandles.hd.once == s.handles[h].once
            || (st == CancelCtx(s.handles[h].once.p) && EffectOf(s, st).onHandles.hd.once.Completed?)
  {
    if st.CancelCtx? {
      assert CallInv(s, st.p);
    }
  }

  /** The shutdown a caller is inside of is not completed by a step of others. */
  lemma OthersKeepOnce(s: State, st: Step, p: nat)
    requires CallsInv(s) && Enabled(s, st) && p < |s.calls| && Mover(st) != Some(p)
    requires s.calls[p].pc.Cancelling?
    ensures s.calls[p].pc.i < |s.calls[p].pc.hs| && Target(s, p) < |s.handles|
    ensures var e := EffectOf(s, st);
            e.onHandles.Touch? && e.onHandles.h == Target(s, p) ==>
              e.onHandles.hd.once == s.handles[Target(s, p)].once
  {
    assert CallInv(s, p);
    if EffectOf(s, st).onHandles.Touch? && EffectOf(s, st).onHandles.h == Target(s, p) {
      OnceIsPrivate(s, st, Target(s, p));
    }
  }

  lemma OthersKeepCallInv(s: State, st: Step, p: nat)
    requires CallsInv(s) && Enabled(s, st) && p < |s.calls| && Mover(st) != Some(p)
    ensures CallInv(Apply(s, st), p)
  {
    assert CallInv(s, p);
    StepGrows(s, st);
    OnlyMoverMoves(s, st);
    if s.calls[p].pc.Cancelling? {
      OthersKeepOnce(s, st, p);
    }
    FrameCall(s, Apply(s, st), p);
  }

  lemma OnlyMoverMoves(s: State, st: Step)
    requires Enabled(s, st)
    ensures EffectOf(s, st).onCalls.Move? ==> Mover(st) == Some(EffectOf(s, st).onCalls.p)
  {
  }

  /** Entering killOnce leaves the caller inside it. */
  lemma EntersOnce(s: State, st: Step)
    requires Enabled(s, st) && EffectOf(s, st).onHandles.Touch?
    requires EffectOf(s, st).onHandles.hd.once.RunBy? && !s.handles[EffectOf(s, st).onHandles.h].once.RunBy?
    ensures OnceRuns(Apply(s, st), EffectOf(s, st).onHandles.h)
  {
  }

  lemma StepKeepsOnce(s: State, st: Step, h: nat)
    requires CallsInv(s) && Enabled(s, st)
    requires h < |Apply(s, st).handles| && Apply(s, st).handles[h].once.RunBy?
    ensures OnceRuns(Apply(s, st), h)
  {
    OnlyMoverMoves(s, st);
    if h < |s.handles| && s.handles[h].once.RunBy? {
      assert OnceRuns(s, h);
      StepGrows(s, st);
      StaysInOnce(s, st, h);
    } else {
      EntersOnce(s, st);
    }
  }

  lemma StaysInOnce(s: State, st: Step, h: nat)
    requires CallsInv(s) && Enabled(s, st) && h < |s.handles| && s.handles[h].once.RunBy?
    requires Apply(s, st).handles[h].once.RunBy?
    ensures Apply(s, st).handles[h].once == s.handles[h].once
    ensures s.handles[h].once.p < |s.calls|
    ensures Apply(s, st).calls[s.handles[h].once.p] == s.calls[s.handles[h].once.p]
  {
    assert OnceRuns(s, h);
    OnlyMoverMoves(s, st);
    if EffectOf(s, st).onHandles.Touch? && EffectOf(s, st).onHandles.h == h {
      OnceIsPrivate(s, st, h);
    }
  }

  lemma StepKeepsCallsInv(s: State, st: Step)
    requires RegistryInv(s) && CallsInv(s) && Enabled(s, st)
    ensures CallsInv(Apply(s, st))
  {
    var s' := Apply(s, st);
    forall p | 0 <= p < |s'.calls| ensures CallInv(s', p) {
      if Mover(st) == Some(p) {
        MoverKeepsCallInv(s, st);
      } else if p < |s.calls| {
        OthersKeepCallInv(s, st, p);
      }
    }
    forall h | 0 <= h < |s'.handles| && s'.handles[h].once.RunBy? ensures OnceRuns(s', h) {
      StepKeepsOnce(s, st, h);
    }
  }

  // ---------------------------------------------------------- accepted messages

  /** The messages of the given callers. */
  function MessagesOf(calls: seq<Caller>, ps: seq<nat>): seq<Msg>
    requires forall i :: 0 <= i < |ps| ==> ps[i] < |calls| && calls[ps[i]].req.DispatchReq?
  {
    seq(|ps|, i requires 0 <= i < |ps| => MsgOf(calls[ps[i]].req))
  }

  /** `accepted` lists the callers whose enqueue on `h` returned nil, each once. */
  ghost predicate AcceptedExactly(s: State, h: nat)
    requires h < |s.handles|
  {
    var ps := s.handles[h].accepted;
    && (forall i :: 0 <= i < |ps| ==>
          ps[i] < |s.calls| && s.calls[ps[i]].req.DispatchReq? && s.calls[ps[i]].pc == Returned(Accepted(h)))
    && (forall i, j :: 0 <= i < j < |ps| ==> ps[i] != ps[j])
    && (forall p :: 0 <= p < |s.calls| && s.calls[p].pc == Returned(Accepted(h)) ==> p in ps)
  }

  /** Nothing accepted is lost, duplicated or reordered on its way to the worker. */
  ghost predicate Conserved(s: State, h: nat)
    requires h < |s.handles| && AcceptedExactly(s, h)
  {
    MessagesOf(s.calls, s.handles[h].accepted) == s.handles[h].received + s.handles[h].inbox
  }

  ghost predicate AcceptAt(s: State, h: nat) {
    h < |s.handles| && AcceptedExactly(s, h) && Conserved(s, h)
  }

  ghost predicate AcceptInv(s: State) {
    forall h: nat :: h < |s.handles| ==> AcceptAt(s, h)
  }

  /** A step that adds nothing to `h.accepted` leaves its conservation alone. */
  lemma FrameAccept(s: State, s': State, h: nat)
    requires h < |s.handles| && AcceptedExactly(s, h) && Conserved(s, h)
    requires Grows(s, s') && s'.handles[h].accepted == s.handles[h].accepted
    requires s'.handles[h].received + s'.handles[h].inbox == s.handles[h].received + s.handles[h].inbox
    requires forall p :: 0 <= p < |s'.calls| && s'.calls[p].pc == Returned(Accepted(h)) ==>
                           p < |s.calls| && s.calls[p].pc == Returned(Accepted(h))
    ensures AcceptedExactly(s', h) && Conserved(s', h)
  {
    assert MessagesOf(s'.calls, s'.handles[h].accepted) == MessagesOf(s.calls, s.handles[h].accepted);
  }

  lemma SendKeepsAccept(s: State, p: nat)
    requires AcceptInv(s) && CallsInv(s) && Enabled(s, EnqueueSend(p))
    ensures AcceptedExactly(Apply(s, EnqueueSend(p)), s.calls[p].pc.h)
    ensures Conserved(Apply(s, EnqueueSend(p)), s.calls[p].pc.h)
  {
    var h := s.calls[p].pc.h;
    var s' := Apply(s, EnqueueSend(p));
    var (ps, m) := (s.handles[h].accepted, MsgOf(s.calls[p].req));
    assert AcceptAt(s, h);
    StepGrows(s, EnqueueSend(p));
    assert MessagesOf(s'.calls, ps + [p]) == MessagesOf(s.calls, ps) + [m];
    assert (s.handles[h].received + s.handles[h].inbox) + [m] == s.handles[h].received + (s.handles[h].inbox + [m]);
    assert forall q :: q in ps + [p] <==> q in ps || q == p;
  }

  /** Only the send branch of enqueue accepts; receiving moves the head of the inbox over. */
  lemma EffectKeepsAccepted(s: State, st: Step)
    requires Enabled(s, st)
    ensures var e := EffectOf(s, st);
            && (e.onHandles.Touch? && !st.EnqueueSend? ==>
                  var hd := s.handles[e.onHandles.h];
                  && e.onHandles.hd.accepted == hd.accepted
                  && e.onHandles.hd.received + e.onHandles.hd.inbox == hd.received + hd.inbox)
            && (e.onCalls.Move? && !st.EnqueueSend? ==>
                  !(e.onCalls.pc.Returned? && e.onCalls.pc.outcome.Accepted?))
  {
  }

  lemma PerformKeepsAccept(s: State, e: Effect, h: nat)
    requires EffectOk(s, e) && h < |s.handles| && AcceptedExactly(s, h) && Conserved(s, h)
    requires Grows(s, Perform(s, e))
    requires e.onHandles.Touch? && e.onHandles.h == h ==>
               && e.onHandles.hd.accepted == s.handles[h].accepted
               && e.onHandles.hd.received + e.onHandles.hd.inbox == s.handles[h].received + s.handles[h].inbox
    requires e.onCalls.Move? ==> e.onCalls.pc != Returned(Accepted(h))
    ensures AcceptedExactly(Perform(s, e), h) && Conserved(Perform(s, e), h)
  {
    FrameAccept(s, Perform(s, e), h);
  }

  lemma StepKeepsAcceptOf(s: State, st: Step, h: nat)
    requires AcceptInv(s) && CallsInv(s) && Enabled(s, st) && h < |s.handles|
    ensures AcceptAt(Apply(s, st), h)
  {
    assert AcceptAt(s, h);
    if st.EnqueueSend? && s.calls[st.p].pc.h == h {
      SendKeepsAccept(s, st.p);
    } else {
      StepGrows(s, st);
      EffectKeepsAccepted(s, st);
      PerformKeepsAccept(s, EffectOf(s, st), h);
    }
  }

  lemma SpawnKeepsAccept(s: State, st: Step)
    requires CallsInv(s) && Enabled(s, st) && |Apply(s, st).handles| == |s.handles| + 1
    ensures AcceptAt(Apply(s, st), |s.handles|)
  {
    NobodyAcceptedYet(s, st);
    assert MessagesOf(Apply(s, st).calls, []) == [];
  }

  lemma HandlesAfter(s: State, st: Step)
    requires Enabled(s, st)
    ensures |s.handles| <= |Apply(s, st).handles| <= |s.handles| + 1
  {
  }

  lemma StepKeepsAcceptAt(s: State, st: Step, h: nat)
    requires AcceptInv(s) && CallsInv(s) && Enabled(s, st) && h < |Apply(s, st).handles|
    ensures AcceptAt(Apply(s, st), h)
  {
    HandlesAfter(s, st);
    if h < |s.handles| {
      StepKeepsAcceptOf(s, st, h);
    } else {
      SpawnKeepsAccept(s, st);
    }
  }

  lemma StepKeepsAcceptInv(s: State, st: Step)
    requires AcceptInv(s) && CallsInv(s) && Enabled(s, st)
    ensures AcceptInv(Apply(s, st))
  {
    forall h: nat | h < |Apply(s, st).handles| ensures AcceptAt(Apply(s, st), h) {
      StepKeepsAcceptAt(s, st, h);
    }
  }

  lemma NobodyAcceptedYet(s: State, st: Step)
    requires CallsInv(s) && Enabled(s, st)
    ensures forall p :: 0 <= p < |Apply(s, st).calls| ==> Apply(s, st).calls[p].pc != Returned(Accepted(|s.handles|))
  {
    forall p | 0 <= p < |s.calls| ensures s.calls[p].pc != Returned(Accepted(|s.handles|)) {
      assert CallInv(s, p);
    }
  }

  // ------------------------------------------------------------ every run keeps it

  ghost predicate Inv(s: State) {
    WorkersInv(s) && RegistryInv(s) && CallsInv(s) && AcceptInv(s)
  }

  lemma StepKeepsInv(s: State, st: Step)
    requires Inv(s) && Enabled(s, st)
    ensures Inv(Apply(s, st))
  {
    StepKeepsWorkersInv(s, st);
    StepKeepsRegistryInv(s, st);
    StepKeepsCallsInv(s, st);
    StepKeepsAcceptInv(s, st);
  }

  lemma {:induction false} RunKeepsInv(tr: seq<State>, steps: seq<Step>, k: nat)
    requires IsRun(tr, steps) && k <= |steps|
    ensures Inv(tr[k])
  {
    if k > 0 {
      RunKeepsInv(tr, steps, k - 1);
      assert IsStep(tr, steps, k - 1);
      StepKeepsInv(tr[k - 1], steps[k - 1]);
    }
  }

  lemma {:induction false} RunGrows(tr: seq<State>, steps: seq<Step>, j: nat, k: nat)
    requires IsRun(tr, steps) && j <= k <= |steps|
    ensures Grows(tr[j], tr[k])
    decreases k
  {
    if j < k {
      RunGrows(tr, steps, j, k - 1);
      assert IsStep(tr, steps, k - 1);
      StepGrows(tr[k - 1], steps[k - 1]);
    }
  }
}
