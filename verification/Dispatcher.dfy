/**
 The dispatcher as the object the program holds: the registry and the `stopped` flag
 under the mutex, the handles, and the goroutines. Each method is one atomic block of
 the source and is proved to take exactly one step of `DispatcherModel`; `Execute`
 interleaves them under any schedule and yields a run, so every theorem about runs
 holds of the object.
 */
module Dispatcher {
  import opened Common
  import opened DispatcherModel
  import opened DispatcherSessions
  import opened DispatcherInvariant
  import opened DispatcherRuns

  class Dispatcher {
    var workers: map<Card, nat>
    var stopped: bool
    var handles: seq<Handle>
    var calls: seq<Caller>
    const idleReaping: bool

    ghost function View(): State
      reads this
    {
      State(workers, stopped, handles, calls, idleReaping)
    }

    constructor (idleReaping: bool)
      ensures View() == Init(idleReaping)
      ensures workers == map[] && !stopped && handles == [] && calls == []
    {
      this.workers := map[];
      this.stopped := false;
      this.handles := [];
      this.calls := [];
      this.idleReaping := idleReaping;
    }

    method SetCaller(p: nat, pc: CallPc)
      requires p < |calls|
      modifies this`calls
      ensures calls == old(calls)[p := old(calls)[p].(pc := pc)]
    {
      calls := calls[p := calls[p].(pc := pc)];
    }

    /** The routing switch of Dispatch, with the existence check under the lock. */
    method Decide(p: nat)
      requires Enabled(View(), Step.Decide(p))
      modifies this
      ensures View() == Apply(old(View()), Step.Decide(p))
      ensures workers == old(workers) && handles == old(handles)
      ensures var req := calls[p].req;
              calls[p].pc == if req.route == RouteDrop then Returned(RouteDropped)
                             else if req.route == RouteDispatch || req.card in workers then AtLock
                             else Returned(NoWorker)
    {
      var req := calls[p].req;
      match req.route {
        case RouteDrop => SetCaller(p, Returned(RouteDropped));
        case RouteDispatch => SetCaller(p, AtLock);
        case _ =>
          if req.card !in workers {
            SetCaller(p, Returned(NoWorker));
          } else {
            SetCaller(p, AtLock);
          }
      }
    }

    /** enqueue, from Lock to Unlock. */
    method EnqueueLock(p: nat)
      requires Enabled(View(), Step.EnqueueLock(p))
      modifies this
      ensures View() == Apply(old(View()), Step.EnqueueLock(p))
      ensures old(stopped) ==>
                workers == old(workers) && handles == old(handles) && calls[p].pc == Returned(ErrStopped)
      ensures var card := calls[p].req.card;
              !old(stopped) ==>
                && card in workers && calls[p].pc == AtSelect(workers[card])
                && workers - {card} == old(workers) - {card}
                && (card in old(workers) ==> workers == old(workers) && handles == old(handles))
                && (card !in old(workers) ==>
                      && handles == old(handles) + [NewHandle(card)] && workers[card] == |old(handles)|
                      && NewHandle(card) == Handle(card, [], Fresh, false, Selecting, None, false, [], [], [], [], 0))
    {
      var card := calls[p].req.card;
      if stopped {
        SetCaller(p, Returned(ErrStopped));
        return;
      }
      var handle: nat;
      if card in workers {
        handle := workers[card];
      } else {
        handle := |handles|;
        handles := handles + [NewHandle(card)];
        workers := workers[card := handle];
      }
      SetCaller(p, AtSelect(handle));
    }

    /** enqueue, the select: `branch` is the ready branch that was taken. */
    method EnqueueSelect(p: nat, branch: Step)
      requires branch == Step.EnqueueSend(p) || branch == Step.EnqueueKilled(p) || branch == Step.EnqueueCtxDone(p)
      requires Enabled(View(), branch)
      modifies this
      ensures View() == Apply(old(View()), branch)
      ensures workers == old(workers) && (!branch.EnqueueSend? ==> handles == old(handles))
      ensures var (h, req) := (old(calls[p].pc.h), calls[p].req);
              branch.EnqueueSend? ==>
                && handles[h].inbox == old(handles[h].inbox)
                     + [Msg(if req.route == RouteTerminate then KindTerminate else KindEvent, req.eventID, req.prompt)]
                && |handles[h].inbox| <= 64 && handles[h].accepted == old(handles[h].accepted) + [p]
                && calls[p].pc == Returned(Accepted(h))
      ensures branch.EnqueueKilled? ==>
                old(handles[calls[p].pc.h].closes) > 0 && calls[p].pc == Returned(ErrWorkerDeleted)
      ensures branch.EnqueueCtxDone? ==> calls[p].pc == Returned(ErrContext)
    {
      var h := calls[p].pc.h;
      if branch.EnqueueSend? {
        var hd := handles[h];
        handles := handles[h := hd.(inbox := hd.inbox + [MsgOf(calls[p].req)], accepted := hd.accepted + [p])];
        SetCaller(p, Returned(Accepted(h)));
      } else if branch.EnqueueKilled? {
        SetCaller(p, Returned(ErrWorkerDeleted));
      } else {
        SetCaller(p, Returned(ErrContext));
      }
    }

    /** Stop, from Lock to Unlock; `order` is the iteration order of the map. */
    method StopLock(p: nat, order: seq<nat>)
      requires Enabled(View(), Step.StopLock(p, order))
      modifies this
      ensures View() == Apply(old(View()), Step.StopLock(p, order))
      ensures stopped && workers == old(workers) && handles == old(handles)
      ensures calls[p].pc == if old(stopped) then Returned(AlreadyStopped)
                             else if order == [] then Returned(Stopped([])) else Shutting(order, 0)
    {
      if stopped {
        SetCaller(p, Returned(AlreadyStopped));
        return;
      }
      stopped := true;
      if order == [] {
        SetCaller(p, Returned(Stopped([])));
      } else {
        SetCaller(p, Shutting(order, 0));
      }
    }

    /** DeleteWorker, from Lock to Unlock. */
    method DeleteLock(p: nat)
      requires Enabled(View(), Step.DeleteLock(p))
      modifies this
      ensures View() == Apply(old(View()), Step.DeleteLock(p))
      ensures workers == old(workers) - {calls[p].req.card} && |handles| == |old(handles)|
      ensures var card := calls[p].req.card;
              if card !in old(workers) then
                handles == old(handles) && calls[p].pc == Returned(ErrWorkerNotFound)
              else
                var h := old(workers)[card];
                handles[h].deleted && calls[p].pc == Shutting([h], 0)
    {
      var card := calls[p].req.card;
      if card !in workers {
        SetCaller(p, Returned(ErrWorkerNotFound));
        return;
      }
      var h := workers[card];
      workers := workers - {card};
      handles := handles[h := handles[h].(deleted := true)];
      SetCaller(p, Shutting([h], 0));
    }

    /** workerHandle.shutdown: close kill the first time, skip it afterwards. */
    method Shutdown(p: nat) returns (st: Step)
      requires AtShutdown(View(), p) && !handles[Target(View(), p)].once.RunBy?
      modifies this
      ensures Enabled(old(View()), st) && View() == Apply(old(View()), st)
      ensures st == if old(handles[Target(View(), p)].once.Fresh?) then CloseKill(p) else SkipShutdown(p)
      ensures var h := old(Target(View(), p));
              workers == old(workers) && (old(WorkerInv(handles[h])) ==> handles[h].closes == 1)
      ensures var (hs, i) := (old(calls[p].pc.hs), old(calls[p].pc.i));
              calls[p].pc == if st.CloseKill? then Cancelling(hs, i)
                             else if i + 1 < |hs| then Shutting(hs, i + 1) else Waiting(hs, 0)
    {
      var (hs, i) := (calls[p].pc.hs, calls[p].pc.i);
      var h := hs[i];
      if handles[h].once.Fresh? {
        handles := handles[h := handles[h].(once := RunBy(p), closes := handles[h].closes + 1)];
        SetCaller(p, Cancelling(hs, i));
        st := CloseKill(p);
      } else {
        SetCaller(p, AfterShutdown(hs, i));
        st := SkipShutdown(p);
      }
    }

    /** workerHandle.shutdown: cancel the context, leaving killOnce. */
    method CancelCtx(p: nat)
      requires Enabled(View(), Step.CancelCtx(p))
      modifies this
      ensures View() == Apply(old(View()), Step.CancelCtx(p))
      ensures workers == old(workers) && handles[old(Target(View(), p))].cancelled
      ensures var (hs, i) := (old(calls[p].pc.hs), old(calls[p].pc.i));
              calls[p].pc == if i + 1 < |hs| then Shutting(hs, i + 1) else Waiting(hs, 0)
    {
      var (hs, i) := (calls[p].pc.hs, calls[p].pc.i);
      var h := hs[i];
      handles := handles[h := handles[h].(once := Completed, cancelled := true)];
      SetCaller(p, AfterShutdown(hs, i));
    }

    /** <-h.done in Stop and DeleteWorker. */
    method AwaitDone(p: nat)
      requires Enabled(View(), Step.AwaitDone(p))
      modifies this
      ensures View() == Apply(old(View()), Step.AwaitDone(p))
      ensures workers == old(workers) && handles == old(handles) && handles[old(Target(View(), p))].pc.Exited?
      ensures var (hs, i) := (old(calls[p].pc.hs), old(calls[p].pc.i));
              calls[p].pc == if i + 1 < |hs| then Waiting(hs, i + 1)
                             else if calls[p].req.DeleteReq? then Returned(Deleted(hs[i])) else Returned(Stopped(hs))
    {
      var (hs, i) := (calls[p].pc.hs, calls[p].pc.i);
      if i + 1 < |hs| {
        SetCaller(p, Waiting(hs, i + 1));
      } else if calls[p].req.DeleteReq? {
        SetCaller(p, Returned(Deleted(hs[i])));
      } else {
        SetCaller(p, Returned(Stopped(hs)));
      }
    }

    /** The select at the top of runWorker, through the branch taken. */
    method WorkerSelect(h: nat, branch: WorkerAct)
      requires branch.Receive? || branch.SeeKill? || branch.IdleReap?
      requires Enabled(View(), Step.Worker(h, branch))
      modifies this
      ensures View() == Apply(old(View()), Step.Worker(h, branch))
      ensures branch.Receive? ==>
                old(handles[h].inbox) == [handles[h].pc.msg] + handles[h].inbox
                && handles[h].received == old(handles[h].received) + [handles[h].pc.msg]
      ensures !branch.Receive? ==> handles[h].inbox == old(handles[h].inbox)
      ensures branch.SeeKill? ==> old(handles[h].closes) > 0 && handles[h] == old(handles[h]).(pc := Exiting)
      ensures branch.IdleReap? ==>
                && idleReaping && handles[h].session.None? && handles[h].pc == Selecting
                && handles[h].log == old(handles[h].log) + [Disconnected(old(handles[h].session.value))]
    {
      var hd := handles[h];
      if branch.Receive? {
        var msg := hd.inbox[0];
        hd := hd.(inbox := hd.inbox[1..], received := hd.received + [msg]);
        hd := hd.(pc := Holding(msg));
      } else if branch.SeeKill? {
        hd := hd.(pc := Exiting);
      } else {
        hd := hd.(log := hd.log + [Disconnected(hd.session.value)]);
        hd := hd.(session := None);
      }
      handles := handles[h := hd];
    }

    /** runWorker with a message in hand: make the session, begin the send, or see it end. */
    method WorkerMessage(h: nat, act: WorkerAct)
      requires act.CreateSession? || act.BeginSend? || act.EndSend?
      requires Enabled(View(), Step.Worker(h, act))
      modifies this
      ensures View() == Apply(old(View()), Step.Worker(h, act))
      ensures workers == old(workers) && handles[h].inbox == old(handles[h].inbox)
      ensures act == CreateSession(true) ==>
                && handles[h].session == Some(|old(handles[h].log)|) && handles[h].pc == old(handles[h].pc)
                && handles[h].log == old(handles[h].log) + [Created(|old(handles[h].log)|)]
      ensures act == CreateSession(false) ==>
                && PastLoop(handles[h].pc) && handles[h].log == old(handles[h].log)
                && handles[h].dropped == old(handles[h].dropped) + [old(handles[h].pc.msg)]
      ensures act.BeginSend? ==>
                && handles[h].pc == Sending(old(handles[h].pc.msg)) && handles[h].session == old(handles[h].session)
                && handles[h].log
                     == old(handles[h].log) + [Prompted(handles[h].session.value, old(handles[h].pc.msg))]
      ensures act.EndSend? ==> handles[h].session == old(handles[h].session)
      ensures act.EndSend? ==>
                (PastLoop(handles[h].pc) <==>
                   if act.ok then old(handles[h].pc.msg.kind.KindTerminate?) else handles[h].cancelled)
    {
      var hd := handles[h];
      var msg := hd.pc.msg;
      match act {
        case CreateSession(ok) =>
          if ok {
            hd := hd.(session := Some(|hd.log|), log := hd.log + [Created(|hd.log|)]);
          } else {
            hd := hd.(dropped := hd.dropped + [msg]);
            hd := hd.(pc := Exiting);
          }
        case BeginSend =>
          hd := hd.(log := hd.log + [Prompted(hd.session.value, msg)]);
          hd := hd.(pc := Sending(msg));
        case EndSend(ok) =>
          hd := hd.(log := hd.log + [Answered(hd.session.value, msg, ok)]);
          if !ok {
            hd := hd.(pc := if hd.cancelled then Exiting else Selecting);
          } else if msg.kind == KindTerminate {
            hd := hd.(pc := Exiting);
          } else {
            hd := hd.(pc := Selecting);
          }
      }
      handles := handles[h := hd];
    }

    /** The deferred calls of runWorker, one at a time and last in first out. */
    method WorkerDefer(h: nat, st: Step)
      requires st == Step.Worker(h, ExitDisconnect) || st == Step.Deregister(h) || st == Step.Worker(h, CloseDone)
      requires Enabled(View(), st)
      modifies this
      ensures View() == Apply(old(View()), st)
      ensures workers == if st.Deregister? then old(workers) - {handles[h].card} else old(workers)
      ensures st.Worker? && st.act.ExitDisconnect? ==>
                && handles[h].session.None? && handles[h].pc == Deregistering
                && handles[h].log == old(handles[h].log) + if old(handles[h].session.None?) then []
                                                           else [Disconnected(old(handles[h].session.value))]
      ensures st.Deregister? ==> handles[h] == old(handles[h]).(pc := Closing)
      ensures st.Worker? && st.act.CloseDone? ==> handles[h] == old(handles[h]).(pc := Exited)
    {
      var hd := handles[h];
      match hd.pc {
        case Exiting =>
          if hd.session.Some? {
            hd := hd.(log := hd.log + [Disconnected(hd.session.value)]);
            hd := hd.(session := None);
          }
          hd := hd.(pc := Deregistering);
        case Deregistering =>
          workers := workers - {hd.card};
          hd := hd.(pc := Closing);
        case _ => hd := hd.(pc := Exited);
      }
      handles := handles[h := hd];
    }

    /** Let the goroutine concerned take one step. */
    method Take(st: Step)
      requires Enabled(View(), st)
      modifies this
      ensures View() == Apply(old(View()), st)
    {
      match st {
        case Call(req) => calls := calls + [Caller(req, Entered)];
        case Decide(p) => Decide(p);
        case EnqueueLock(p) => EnqueueLock(p);
        case EnqueueSend(p) => EnqueueSelect(p, st);
        case EnqueueKilled(p) => EnqueueSelect(p, st);
        case EnqueueCtxDone(p) => EnqueueSelect(p, st);
        case StopLock(p, order) => StopLock(p, order);
        case DeleteLock(p) => DeleteLock(p);
        case CloseKill(p) => var taken := Shutdown(p);
        case SkipShutdown(p) => var taken := Shutdown(p);
        case CancelCtx(p) => CancelCtx(p);
        case AwaitDone(p) => AwaitDone(p);
        case Deregister(h) => WorkerDefer(h, st);
        case Worker(h, act) =>
          match act {
            case ExitDisconnect => WorkerDefer(h, st);
            case CloseDone => WorkerDefer(h, st);
            case CreateSession(_) => WorkerMessage(h, act);
            case BeginSend => WorkerMessage(h, act);
            case EndSend(_) => WorkerMessage(h, act);
            case _ => WorkerSelect(h, act);
          }
      }
    }

    /** Any schedule, skipping what is not ready: the object goes through a run. */
    method Execute(schedule: seq<Step>) returns (ghost tr: seq<State>, ghost steps: seq<Step>)
      requires View() == Init(idleReaping)
      modifies this
      ensures IsRun(tr, steps) && tr[|steps|] == View()
      ensures Inv(View())
    {
      tr, steps := [View()], [];
      for i := 0 to |schedule|
        invariant IsRun(tr, steps) && tr[|steps|] == View()
      {
        var s := State(workers, stopped, handles, calls, idleReaping);
        if Enabled(s, schedule[i]) {
          Take(schedule[i]);
          Extend(tr, steps, schedule[i], View());
          tr, steps := tr + [View()], steps + [schedule[i]];
        }
      }
      RunKeepsInv(tr, steps, |steps|);
    }
  }
}
