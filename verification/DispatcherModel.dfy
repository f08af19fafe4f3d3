/**
 The per-card dispatcher (internal/app/dispatcher.go) as an interleaved step system.

 A `State` is everything the goroutines share: the mutex-guarded registry, the
 `stopped` flag, every worker handle ever made, and one `Caller` for each goroutine
 that entered `Dispatch`, `Stop` or `DeleteWorker`. A `Step` is one atomic action: a
 critical section, one branch of a `select`, one channel operation, or the return of
 a session call. A Go `select` takes any ready branch, so each branch is its own step
 and no branch has priority.

 The fields `deleted`, `accepted`, `received`, `dropped`, `log` and `closes` of a
 handle are histories: no guard reads them.
 */
module DispatcherModel {
  import opened Common

  type Card = string

  // ---------------------------------------------------------------- messages

  datatype Kind = KindEvent | KindTerminate

  datatype Msg = Msg(kind: Kind, eventID: string, prompt: string)

  datatype RouteAction = RouteDrop | RouteDispatch | RouteTerminate | RouteNotifyDeparture

  /** What a goroutine asked of the dispatcher. */
  datatype Request =
    | DispatchReq(route: RouteAction, card: Card, eventID: string, prompt: string)
    | StopReq
    | DeleteReq(card: Card)

  /** The inbox item `Dispatch` builds for a request: only a terminate route tags it so. */
  function MsgOf(req: Request): Msg
    requires req.DispatchReq?
  {
    Msg(if req.route == RouteTerminate then KindTerminate else KindEvent, req.eventID, req.prompt)
  }

  // ----------------------------------------------------------------- workers

  /** Where the goroutine of a handle stands in `runWorker`. */
  datatype WorkerPc =
    | Selecting           // at the select at the top of the loop
    | Holding(msg: Msg)   // a message is in hand and has not been sent
    | Sending(msg: Msg)   // inside SendAndWait
    | Exiting             // returned; the session defer is next
    | Deregistering       // the deregister defer is next
    | Closing             // close(done) is next
    | Exited              // done is closed

  /** `killOnce`: not entered, entered by one caller, or completed. */
  datatype Once = Fresh | RunBy(p: nat) | Completed

  /** What happened to the sessions of one handle; a session is named by its log position. */
  datatype SessionEvent =
    | Created(sid: nat)
    | Prompted(sid: nat, msg: Msg)
    | Answered(sid: nat, msg: Msg, ok: bool)
    | Disconnected(sid: nat)

  datatype Handle = Handle(
    card: Card,
    inbox: seq<Msg>,
    once: Once,
    cancelled: bool,
    pc: WorkerPc,
    session: Option<nat>,
    deleted: bool,             // a DeleteWorker call took it out of the registry
    accepted: seq<nat>,        // callers whose message entered the inbox, in order
    received: seq<Msg>,        // messages the worker took out of the inbox, in order
    dropped: seq<Msg>,         // messages given up because no session could be made
    log: seq<SessionEvent>,
    closes: nat)               // how often kill was closed
  {
    predicate Killed() { closes > 0 }

    /** The goroutine has not passed its deferred `deregister`. */
    predicate Live() { !pc.Closing? && !pc.Exited? }
  }

  const INBOX_BUF: nat := 64

  function NewHandle(card: Card): Handle {
    Handle(card, [], Fresh, false, Selecting, None, false, [], [], [], [], 0)
  }

  /** The actions a worker goroutine takes on its own handle. */
  datatype WorkerAct =
    | Receive                  // <-inbox
    | SeeKill                  // <-kill
    | IdleReap                 // <-timer.C, then Disconnect
    | CreateSession(ok: bool)
    | BeginSend
    | EndSend(ok: bool)
    | ExitDisconnect           // the session defer and the tracker defer
    | CloseDone

  predicate WorkerEnabled(hd: Handle, a: WorkerAct, idleReaping: bool) {
    match a
    case Receive => hd.pc.Selecting? && hd.inbox != []
    case SeeKill => hd.pc.Selecting? && hd.Killed()
    case IdleReap => hd.pc.Selecting? && hd.session.Some? && idleReaping
    case CreateSession(_) => hd.pc.Holding? && hd.session.None?
    case BeginSend => hd.pc.Holding? && hd.session.Some?
    case EndSend(_) => hd.pc.Sending? && hd.session.Some?
    case ExitDisconnect => hd.pc.Exiting?
    case CloseDone => hd.pc.Closing?
  }

  /** Disconnect the open session, if any. */
  function Disconnect(hd: Handle): Handle {
    if hd.session.None? then hd
    else hd.(session := None, log := hd.log + [Disconnected(hd.session.value)])
  }

  function WorkerApply(hd: Handle, a: WorkerAct): Handle
    requires WorkerEnabled(hd, a, true)
  {
    match a
    case Receive =>
      hd.(pc := Holding(hd.inbox[0]), inbox := hd.inbox[1..], received := hd.received + [hd.inbox[0]])
    case SeeKill => hd.(pc := Exiting)
    case IdleReap => Disconnect(hd)
    case CreateSession(ok) =>
      if ok then hd.(session := Some(|hd.log|), log := hd.log + [Created(|hd.log|)])
      else hd.(pc := Exiting, dropped := hd.dropped + [hd.pc.msg])
    case BeginSend =>
      hd.(pc := Sending(hd.pc.msg), log := hd.log + [Prompted(hd.session.value, hd.pc.msg)])
    case EndSend(ok) =>
      // An error ends the worker only once its context is cancelled; a delivered
      // terminate message always does.
      hd.(pc := if (if ok then hd.pc.msg.kind.KindTerminate? else hd.cancelled) then Exiting else Selecting,
          log := hd.log + [Answered(hd.session.value, hd.pc.msg, ok)])
    case ExitDisconnect => Disconnect(hd).(pc := Deregistering)
    case CloseDone => hd.(pc := Exited)
  }

  // ----------------------------------------------------------------- callers

  datatype Outcome =
    | RouteDropped | NoWorker
    | Accepted(h: nat) | ErrStopped | ErrWorkerDeleted | ErrContext
    | Stopped(hs: seq<nat>) | AlreadyStopped
    | ErrWorkerNotFound | Deleted(h: nat)

  datatype CallPc =
    | Entered                             // nothing done yet
    | AtLock                              // before the critical section of enqueue
    | AtSelect(h: nat)                    // in the select of enqueue, holding a handle
    | Shutting(hs: seq<nat>, i: nat)      // about to call shutdown on hs[i]
    | Cancelling(hs: seq<nat>, i: nat)    // inside killOnce of hs[i]: kill closed, cancel next
    | Waiting(hs: seq<nat>, i: nat)       // at <-hs[i].done
    | Returned(outcome: Outcome)

  datatype Caller = Caller(req: Request, pc: CallPc)

  datatype State = State(
    workers: map<Card, nat>,
    stopped: bool,
    handles: seq<Handle>,
    calls: seq<Caller>,
    idleReaping: bool)           // idleTimeout > 0

  function Init(idleReaping: bool): State {
    State(map[], false, [], [], idleReaping)
  }

  datatype Step =
    | Call(req: Request)
    | Decide(p: nat)                       // route; existence check for departures
    | EnqueueLock(p: nat)
    | EnqueueSend(p: nat) | EnqueueKilled(p: nat) | EnqueueCtxDone(p: nat)
    | StopLock(p: nat, order: seq<nat>)    // order: the map iteration order
    | DeleteLock(p: nat)
    | CloseKill(p: nat) | CancelCtx(p: nat) | SkipShutdown(p: nat)
    | AwaitDone(p: nat)
    | Worker(h: nat, act: WorkerAct)
    | Deregister(h: nat)

  /** `hs` lists the registered handles, each once. */
  predicate Enumerates(hs: seq<nat>, workers: map<Card, nat>) {
    && (forall i, j :: 0 <= i < j < |hs| ==> hs[i] != hs[j])
    && (forall c :: c in workers ==> workers[c] in hs)
    && (forall i :: 0 <= i < |hs| ==> hs[i] in workers.Values)
  }

  predicate Enabled(s: State, st: Step) {
    match st
    case Call(_) => true
    case Decide(p) => p < |s.calls| && s.calls[p].pc.Entered? && s.calls[p].req.DispatchReq?
    case EnqueueLock(p) => p < |s.calls| && s.calls[p].pc.AtLock? && s.calls[p].req.DispatchReq?
    case EnqueueSend(p) =>
      && p < |s.calls| && s.calls[p].pc.AtSelect? && s.calls[p].req.DispatchReq?
      && s.calls[p].pc.h < |s.handles| && |s.handles[s.calls[p].pc.h].inbox| < INBOX_BUF
    case EnqueueKilled(p) =>
      && p < |s.calls| && s.calls[p].pc.AtSelect?
      && s.calls[p].pc.h < |s.handles| && s.handles[s.calls[p].pc.h].Killed()
    case EnqueueCtxDone(p) => p < |s.calls| && s.calls[p].pc.AtSelect?
    case StopLock(p, order) =>
      && p < |s.calls| && s.calls[p].pc.Entered? && s.calls[p].req.StopReq?
      && Enumerates(order, s.workers)
    case DeleteLock(p) =>
      && p < |s.calls| && s.calls[p].pc.Entered? && s.calls[p].req.DeleteReq?
      && (s.calls[p].req.card in s.workers ==> s.workers[s.calls[p].req.card] < |s.handles|)
    case CloseKill(p) => AtShutdown(s, p) && s.handles[Target(s, p)].once.Fresh?
    case SkipShutdown(p) => AtShutdown(s, p) && s.handles[Target(s, p)].once.Completed?
    case CancelCtx(p) =>
      && p < |s.calls| && s.calls[p].pc.Cancelling?
      && s.calls[p].pc.i < |s.calls[p].pc.hs| && Target(s, p) < |s.handles|
    case AwaitDone(p) =>
      && p < |s.calls| && s.calls[p].pc.Waiting? && s.calls[p].pc.i < |s.calls[p].pc.hs|
      && Target(s, p) < |s.handles| && s.handles[Target(s, p)].pc.Exited?
    case Worker(h, a) => h < |s.handles| && WorkerEnabled(s.handles[h], a, s.idleReaping)
    case Deregister(h) => h < |s.handles| && s.handles[h].pc.Deregistering?
  }

  /** Caller `p` is about to call `shutdown` on an existing handle. */
  predicate AtShutdown(s: State, p: nat) {
    && p < |s.calls| && s.calls[p].pc.Shutting?
    && s.calls[p].pc.i < |s.calls[p].pc.hs| && Target(s, p) < |s.handles|
  }

  /** The handle a stopping or deleting caller is working on. */
  function Target(s: State, p: nat): nat
    requires p < |s.calls|
    requires s.calls[p].pc.Shutting? || s.calls[p].pc.Cancelling? || s.calls[p].pc.Waiting?
    requires s.calls[p].pc.i < |s.calls[p].pc.hs|
  {
    s.calls[p].pc.hs[s.calls[p].pc.i]
  }

  /** After `shutdown` of hs[i]: the next handle, or the waiting loop. */
  function AfterShutdown(hs: seq<nat>, i: nat): CallPc {
    if i + 1 < |hs| then Shutting(hs, i + 1) else Waiting(hs, 0)
  }

  /** What one step changes: the registry, the stop flag, one handle and one caller. */
  datatype Effect = Effect(workers: map<Card, nat>, stopped: bool, onHandles: OnHandles, onCalls: OnCalls)

  datatype OnHandles = SameHandles | Touch(h: nat, hd: Handle) | Spawn(card: Card)

  datatype OnCalls = SameCalls | Move(p: nat, pc: CallPc) | Enter(req: Request)

  predicate EffectOk(s: State, e: Effect) {
    && (e.onHandles.Touch? ==> e.onHandles.h < |s.handles|)
    && (e.onCalls.Move? ==> e.onCalls.p < |s.calls|)
  }

  function Perform(s: State, e: Effect): State
    requires EffectOk(s, e)
  {
    State(
      e.workers,
      e.stopped,
      match e.onHandles
      case SameHandles => s.handles
      case Touch(h, hd) => s.handles[h := hd]
      case Spawn(card) => s.handles + [NewHandle(card)],
      match e.onCalls
      case SameCalls => s.calls
      case Move(p, pc) => s.calls[p := s.calls[p].(pc := pc)]
      case Enter(req) => s.calls + [Caller(req, Entered)],
      s.idleReaping)
  }

  function Apply(s: State, st: Step): State
    requires Enabled(s, st)
  {
    Perform(s, EffectOf(s, st))
  }

  /** Only the caller moves. */
  function Moves(s: State, p: nat, pc: CallPc): Effect {
    Effect(s.workers, s.stopped, SameHandles, Move(p, pc))
  }

  function EffectOf(s: State, st: Step): (e: Effect)
    requires Enabled(s, st)
    ensures EffectOk(s, e)
  {
    match st
    case Call(req) => Effect(s.workers, s.stopped, SameHandles, Enter(req))
    case Decide(p) => Moves(s, p, Decision(s, s.calls[p].req))
    case EnqueueLock(p) => EnqueueEffect(s, p, s.calls[p].req.card)
    case EnqueueSend(p) =>
      var h := s.calls[p].pc.h;
      var hd := s.handles[h];
      Effect(s.workers, s.stopped,
             Touch(h, hd.(inbox := hd.inbox + [MsgOf(s.calls[p].req)], accepted := hd.accepted + [p])),
             Move(p, Returned(Accepted(h))))
    case EnqueueKilled(p) => Moves(s, p, Returned(ErrWorkerDeleted))
    case EnqueueCtxDone(p) => Moves(s, p, Returned(ErrContext))
    case StopLock(p, order) =>
      if s.stopped then Moves(s, p, Returned(AlreadyStopped))
      else Effect(s.workers, true, SameHandles,
                  Move(p, if order == [] then Returned(Stopped([])) else Shutting(order, 0)))
    case DeleteLock(p) => DeleteEffect(s, p, s.calls[p].req.card)
    case CloseKill(p) =>
      var h := Target(s, p);
      Effect(s.workers, s.stopped,
             Touch(h, s.handles[h].(once := RunBy(p), closes := s.handles[h].closes + 1)),
             Move(p, Cancelling(s.calls[p].pc.hs, s.calls[p].pc.i)))
    case CancelCtx(p) =>
      var h := Target(s, p);
      Effect(s.workers, s.stopped,
             Touch(h, s.handles[h].(once := Completed, cancelled := true)),
             Move(p, AfterShutdown(s.calls[p].pc.hs, s.calls[p].pc.i)))
    case SkipShutdown(p) => Moves(s, p, AfterShutdown(s.calls[p].pc.hs, s.calls[p].pc.i))
    case AwaitDone(p) => Moves(s, p, AfterDone(s.calls[p].req, s.calls[p].pc.hs, s.calls[p].pc.i))
    case Worker(h, a) => Effect(s.workers, s.stopped, Touch(h, WorkerApply(s.handles[h], a)), SameCalls)
    case Deregister(h) =>
      // By card id, whatever handle the registry holds for that card now.
      Effect(s.workers - {s.handles[h].card}, s.stopped, Touch(h, s.handles[h].(pc := Closing)), SameCalls)
  }

  /** `Dispatch` up to `enqueue`: departures and terminations look the card up first. */
  function Decision(s: State, req: Request): CallPc
    requires req.DispatchReq?
  {
    match req.route
    case RouteDrop => Returned(RouteDropped)
    case RouteDispatch => AtLock
    case _ => if req.card in s.workers then AtLock else Returned(NoWorker)
  }

  /** The critical section of `enqueue`. */
  function EnqueueEffect(s: State, p: nat, card: Card): Effect {
    if s.stopped then Moves(s, p, Returned(ErrStopped))
    else if card in s.workers then Moves(s, p, AtSelect(s.workers[card]))
    else Effect(s.workers[card := |s.handles|], s.stopped, Spawn(card), Move(p, AtSelect(|s.handles|)))
  }

  /** The critical section of `DeleteWorker`. */
  function DeleteEffect(s: State, p: nat, card: Card): Effect
    requires card in s.workers ==> s.workers[card] < |s.handles|
  {
    if card !in s.workers then Moves(s, p, Returned(ErrWorkerNotFound))
    else
      var h := s.workers[card];
      Effect(s.workers - {card}, s.stopped, Touch(h, s.handles[h].(deleted := true)), Move(p, Shutting([h], 0)))
  }

  /** After hs[i] is done: wait for the next handle, or return. */
  function AfterDone(req: Request, hs: seq<nat>, i: nat): CallPc
    requires i < |hs|
  {
    if i + 1 < |hs| then Waiting(hs, i + 1)
    else Returned(if req.DeleteReq? then Deleted(hs[i]) else Stopped(hs))
  }

  // -------------------------------------------------------------------- runs

  /** `tr` is the trace of states the steps produce from an initial state. */
  ghost predicate IsRun(tr: seq<State>, steps: seq<Step>) {
    && |tr| == |steps| + 1
    && (tr[0] == Init(true) || tr[0] == Init(false))
    && forall k :: 0 <= k < |steps| ==> IsStep(tr, steps, k)
  }

  ghost predicate IsStep(tr: seq<State>, steps: seq<Step>, k: nat)
    requires |tr| == |steps| + 1 && k < |steps|
  {
    Enabled(tr[k], steps[k]) && tr[k + 1] == Apply(tr[k], steps[k])
  }

  /** Step `st`, taken in `s`, makes a new worker for the card. */
  predicate Creates(s: State, st: Step, card: Card) {
    && st.EnqueueLock? && Enabled(s, st)
    && s.calls[st.p].req.card == card && !s.stopped && card !in s.workers
  }
}
