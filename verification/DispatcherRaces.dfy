/**
 Races of the dispatcher: departures and terminations that spawn a worker, and
 concrete runs in which DeleteWorker breaks one-worker-per-card and Stop's promise.
 */
module DispatcherRaces {
  import opened Common
  import opened DispatcherModel
  import opened DispatcherSessions
  import opened DispatcherInvariant
  import opened DispatcherRegistry
  import opened DispatcherRuns

  // ------------------------------------- departures and terminations do not spawn

  predicate Departing(req: Request) {
    req.DispatchReq? && (req.route == RouteNotifyDeparture || req.route == RouteTerminate)
  }

  /** The step takes the card's entry out of the registry. */
  predicate Removes(s: State, st: Step, card: Card) {
    Enabled(s, st) && card in s.workers && card !in Apply(s, st).workers
  }

  /** Only a deregistering worker of the card, or DeleteWorker on it, removes an entry. */
  lemma RemovalIsAnExit(s: State, st: Step, card: Card)
    requires Removes(s, st, card)
    ensures || (st.Deregister? && s.handles[st.h].card == card)
            || (st.DeleteLock? && s.calls[st.p].req.card == card)
  {
  }

  /** A departing caller at the lock of enqueue passed an existence check earlier. */
  lemma {:induction false} CheckBeforeLock(tr: seq<State>, steps: seq<Step>, k: nat, p: nat) returns (j: nat)
    requires IsRun(tr, steps) && k <= |steps|
    requires p < |tr[k].calls| && tr[k].calls[p].pc.AtLock? && Departing(tr[k].calls[p].req)
    ensures j < k && steps[j] == Decide(p) && p < |tr[j].calls|
    ensures tr[k].calls[p].req == tr[j].calls[p].req && tr[j].calls[p].req.card in tr[j].workers
  {
    assert k > 0;
    assert IsStep(tr, steps, k - 1);
    StepGrows(tr[k - 1], steps[k - 1]);
    if p < |tr[k - 1].calls| && tr[k - 1].calls[p].pc.AtLock? {
      j := CheckBeforeLock(tr, steps, k - 1, p);
    } else {
      j := k - 1;
      MovesToLock(tr[k - 1], steps[k - 1], p);
    }
  }

  lemma MovesToLock(s: State, st: Step, p: nat)
    requires Enabled(s, st) && p < |Apply(s, st).calls| && Apply(s, st).calls[p].pc.AtLock?
    requires !(p < |s.calls| && s.calls[p].pc.AtLock?) && Departing(Apply(s, st).calls[p].req)
    ensures st == Decide(p) && p < |s.calls| && s.calls[p].req.card in s.workers
  {
  }

  /** An entry that is there at `j` and gone at `k` was removed by a step in between. */
  lemma {:induction false} SomeStepRemoved(tr: seq<State>, steps: seq<Step>, card: Card, j: nat, k: nat)
    returns (i: nat)
    requires IsRun(tr, steps) && j <= k <= |steps|
    requires card in tr[j].workers && card !in tr[k].workers
    ensures j <= i < k && Removes(tr[i], steps[i], card)
    decreases k
  {
    assert IsStep(tr, steps, k - 1);
    if card in tr[k - 1].workers {
      i := k - 1;
    } else {
      i := SomeStepRemoved(tr, steps, card, j, k - 1);
    }
  }

  /**
   If handling a departure or a termination creates a worker, the card had one at the
   existence check, and its entry left the registry between that check and the lock in
   enqueue: by its own deregister or by DeleteWorker.
   */
  lemma DepartureSpawnsOnlyThroughARace(tr: seq<State>, steps: seq<Step>, k: nat) returns (j: nat, i: nat)
    requires IsRun(tr, steps) && k < |steps|
    requires steps[k].EnqueueLock? && steps[k].p < |tr[k].calls| && Departing(tr[k].calls[steps[k].p].req)
    requires Creates(tr[k], steps[k], tr[k].calls[steps[k].p].req.card)
    ensures j <= i < k && steps[j] == Decide(steps[k].p)
    ensures var card := tr[k].calls[steps[k].p].req.card;
            && card in tr[j].workers && Removes(tr[i], steps[i], card)
            && ((steps[i].Deregister? && tr[i].handles[steps[i].h].card == card)
                || (steps[i].DeleteLock? && tr[i].calls[steps[i].p].req.card == card))
  {
    var card := tr[k].calls[steps[k].p].req.card;
    j := CheckBeforeLock(tr, steps, k, steps[k].p);
    i := SomeStepRemoved(tr, steps, card, j, k);
    RemovalIsAnExit(tr[i], steps[i], card);
  }

  /** The step registers a worker for the card. */
  lemma CreationRegisters(s: State, st: Step, card: Card)
    requires Enabled(s, st) && card !in s.workers
    ensures Creates(s, st, card) <==> card in Apply(s, st).workers
  {
  }

  /** Gone at `i` and registered by no step since: gone at `k`. */
  lemma {:induction false} StaysGone(tr: seq<State>, steps: seq<Step>, card: Card, i: nat, k: nat)
    requires IsRun(tr, steps) && i <= k <= |steps| && card !in tr[i].workers
    requires forall m :: i <= m < k ==> !Creates(tr[m], steps[m], card)
    ensures card !in tr[k].workers
    decreases k
  {
    if i < k {
      StaysGone(tr, steps, card, i, k - 1);
      assert IsStep(tr, steps, k - 1);
      CreationRegisters(tr[k - 1], steps[k - 1], card);
    }
  }

  /** There at `j` and gone at `k`: some step removed it, and none registered it after that. */
  lemma {:induction false} LastRemoval(tr: seq<State>, steps: seq<Step>, card: Card, j: nat, k: nat) returns (i: nat)
    requires IsRun(tr, steps) && j <= k <= |steps| && card in tr[j].workers && card !in tr[k].workers
    ensures j <= i < k && Removes(tr[i], steps[i], card)
    ensures forall m :: i < m < k ==> !Creates(tr[m], steps[m], card)
    decreases k
  {
    assert IsStep(tr, steps, k - 1);
    if card in tr[k - 1].workers {
      i := k - 1;
    } else {
      i := LastRemoval(tr, steps, card, j, k - 1);
      CreationRegisters(tr[k - 1], steps[k - 1], card);
    }
  }

  /** Since the caller's existence check the entry was removed, and not registered again. */
  ghost predicate RemovedSinceCheck(tr: seq<State>, steps: seq<Step>, k: nat, p: nat, card: Card)
    requires |tr| == |steps| + 1 && k <= |steps|
  {
    exists j, i :: 0 <= j < i < k && steps[j] == Decide(p) && Removes(tr[i], steps[i], card)
                   && forall m :: i < m < k ==> !Creates(tr[m], steps[m], card)
  }

  /**
   A departure or termination at the lock of enqueue makes a worker exactly when the
   dispatcher is not stopped and, since the call's existence check, a step removed the
   card's entry and no later step registered the card again.
   */
  lemma DepartureSpawnsIff(tr: seq<State>, steps: seq<Step>, k: nat)
    requires IsRun(tr, steps) && k < |steps|
    requires steps[k].EnqueueLock? && steps[k].p < |tr[k].calls| && Departing(tr[k].calls[steps[k].p].req)
    ensures var (p, card) := (steps[k].p, tr[k].calls[steps[k].p].req.card);
            Creates(tr[k], steps[k], card) <==> !tr[k].stopped && RemovedSinceCheck(tr, steps, k, p, card)
  {
    var (p, card) := (steps[k].p, tr[k].calls[steps[k].p].req.card);
    assert IsStep(tr, steps, k);
    if Creates(tr[k], steps[k], card) {
      var j := CheckBeforeLock(tr, steps, k, p);
      var i := LastRemoval(tr, steps, card, j, k);
      assert IsStep(tr, steps, j);
      assert j != i;
    }
    if RemovedSinceCheck(tr, steps, k, p, card) {
      var j, i :| 0 <= j < i < k && steps[j] == Decide(p) && Removes(tr[i], steps[i], card)
                  && forall m :: i < m < k ==> !Creates(tr[m], steps[m], card);
      assert IsStep(tr, steps, i);
      StaysGone(tr, steps, card, i + 1, k);
    }
  }

  /** Of the four routes only dispatch, departure and terminate reach the lock; drop never does. */
  lemma {:induction false} DroppedNeverReachesTheLock(tr: seq<State>, steps: seq<Step>, k: nat, p: nat)
    requires IsRun(tr, steps) && k <= |steps|
    requires p < |tr[k].calls| && tr[k].calls[p].req.DispatchReq? && tr[k].calls[p].req.route == RouteDrop
    ensures tr[k].calls[p].pc == Entered || tr[k].calls[p].pc == Returned(RouteDropped)
  {
    if k > 0 {
      assert IsStep(tr, steps, k - 1);
      StepGrows(tr[k - 1], steps[k - 1]);
      if p < |tr[k - 1].calls| {
        DroppedNeverReachesTheLock(tr, steps, k - 1, p);
      }
    }
  }

  // ------------------------------------------------ what DeleteWorker can break

  const EVENT: Request := DispatchReq(RouteDispatch, "card", "event", "prompt")

  const LATER: Request := DispatchReq(RouteDispatch, "card", "later event", "later prompt")

  ghost predicate NoDeregister(steps: seq<Step>) {
    forall k :: 0 <= k < |steps| ==> !steps[k].Deregister?
  }

  /** An event registers a worker for the card. */
  lemma RegisteredRun() returns (tr: seq<State>, steps: seq<Step>)
    ensures IsRun(tr, steps) && NoDeregister(steps)
    ensures tr[|steps|] ==
            State(map["card" := 0], false, [NewHandle("card")], [Caller(EVENT, AtSelect(0))], true)
  {
    tr, steps := [Init(true)], [];
    var s := State(map[], false, [], [Caller(EVENT, Entered)], true);
    Extend(tr, steps, Call(EVENT), s);
    tr, steps := tr + [s], steps + [Call(EVENT)];
    s := s.(calls := [Caller(EVENT, AtLock)]);
    Extend(tr, steps, Decide(0), s);
    tr, steps := tr + [s], steps + [Decide(0)];
    s := State(map["card" := 0], false, [NewHandle("card")], [Caller(EVENT, AtSelect(0))], true);
    Extend(tr, steps, EnqueueLock(0), s);
    tr, steps := tr + [s], steps + [EnqueueLock(0)];
  }

  /** ... then DeleteWorker unlinks it and is about to shut it down. */
  lemma UnlinkedRun() returns (tr: seq<State>, steps: seq<Step>)
    ensures IsRun(tr, steps) && NoDeregister(steps)
    ensures tr[|steps|] ==
            State(map[], false, [NewHandle("card").(deleted := true)],
                  [Caller(EVENT, AtSelect(0)), Caller(DeleteReq("card"), Shutting([0], 0))], true)
  {
    tr, steps := RegisteredRun();
    var first := Caller(EVENT, AtSelect(0));
    var s := tr[|steps|];
    s := s.(calls := [first, Caller(DeleteReq("card"), Entered)]);
    Extend(tr, steps, Call(DeleteReq("card")), s);
    tr, steps := tr + [s], steps + [Call(DeleteReq("card"))];
    s := State(map[], false, [NewHandle("card").(deleted := true)],
               [first, Caller(DeleteReq("card"), Shutting([0], 0))], true);
    assert map["card" := 0] - {"card"} == map[];
    Extend(tr, steps, DeleteLock(1), s);
    tr, steps := tr + [s], steps + [DeleteLock(1)];
  }

  /** ... then an event registers a second worker for the card: two live workers. */
  lemma TwoWorkersRun() returns (tr: seq<State>, steps: seq<Step>)
    ensures IsRun(tr, steps) && NoDeregister(steps)
    ensures tr[|steps|] ==
            State(map["card" := 1], false, [NewHandle("card").(deleted := true), NewHandle("card")],
                  [Caller(EVENT, AtSelect(0)), Caller(DeleteReq("card"), Shutting([0], 0)), Caller(LATER, AtSelect(1))],
                  true)
  {
    tr, steps := UnlinkedRun();
    var s := tr[|steps|];
    var two := s.calls;
    s := s.(calls := two + [Caller(LATER, Entered)]);
    Extend(tr, steps, Call(LATER), s);
    tr, steps := tr + [s], steps + [Call(LATER)];
    s := s.(calls := two + [Caller(LATER, AtLock)]);
    Extend(tr, steps, Decide(2), s);
    tr, steps := tr + [s], steps + [Decide(2)];
    s := State(map["card" := 1], false, s.handles + [NewHandle("card")], two + [Caller(LATER, AtSelect(1))], true);
    Extend(tr, steps, EnqueueLock(2), s);
    tr, steps := tr + [s], steps + [EnqueueLock(2)];
  }

  function Leaving(route: RouteAction): Request { DispatchReq(route, "card", "event", "prompt") }

  /** A departure or termination passes its existence check. */
  lemma CheckedRun(route: RouteAction) returns (tr: seq<State>, steps: seq<Step>)
    requires Departing(Leaving(route))
    ensures IsRun(tr, steps)
    ensures tr[|steps|] == State(map["card" := 0], false, [NewHandle("card")],
                                 [Caller(EVENT, AtSelect(0)), Caller(Leaving(route), AtLock)], true)
  {
    tr, steps := RegisteredRun();
    var s := tr[|steps|];
    s := s.(calls := [Caller(EVENT, AtSelect(0)), Caller(Leaving(route), Entered)]);
    Extend(tr, steps, Call(Leaving(route)), s);
    tr, steps := tr + [s], steps + [Call(Leaving(route))];
    s := s.(calls := [Caller(EVENT, AtSelect(0)), Caller(Leaving(route), AtLock)]);
    Extend(tr, steps, Decide(1), s);
    tr, steps := tr + [s], steps + [Decide(1)];
  }

  /** ... then DeleteWorker takes the entry out. */
  lemma OvertakenRun(route: RouteAction) returns (tr: seq<State>, steps: seq<Step>)
    requires Departing(Leaving(route))
    ensures IsRun(tr, steps)
    ensures tr[|steps|].workers == map[] && !tr[|steps|].stopped
    ensures |tr[|steps|].calls| == 3 && tr[|steps|].calls[1] == Caller(Leaving(route), AtLock)
  {
    tr, steps := CheckedRun(route);
    var s := tr[|steps|];
    var before := s.calls;
    s := s.(calls := before + [Caller(DeleteReq("card"), Entered)]);
    Extend(tr, steps, Call(DeleteReq("card")), s);
    tr, steps := tr + [s], steps + [Call(DeleteReq("card"))];
    s := State(map[], false, [NewHandle("card").(deleted := true)],
               before + [Caller(DeleteReq("card"), Shutting([0], 0))], true);
    assert map["card" := 0] - {"card"} == map[];
    Extend(tr, steps, DeleteLock(2), s);
    tr, steps := tr + [s], steps + [DeleteLock(2)];
  }

  /** The step makes a worker for a request of that route. */
  ghost predicate SpawnsFor(s: State, st: Step, route: RouteAction) {
    && st.EnqueueLock? && st.p < |s.calls| && s.calls[st.p].req.DispatchReq?
    && s.calls[st.p].req.route == route && Creates(s, st, s.calls[st.p].req.card)
  }

  /** A departure and a termination do spawn a worker in some run. */
  lemma DepartureCanSpawn(route: RouteAction)
    requires route == RouteNotifyDeparture || route == RouteTerminate
    ensures exists tr: seq<State>, steps: seq<Step>, k: nat ::
              IsRun(tr, steps) && k < |steps| && SpawnsFor(tr[k], steps[k], route)
  {
    var tr, steps := OvertakenRun(route);
    var tr', steps' := OneMore(tr, steps, EnqueueLock(1));
    assert tr'[|steps|] == tr[|steps|];
    assert SpawnsFor(tr'[|steps|], steps'[|steps|], route);
  }

  /** Where the two-worker run stands, up to the callers and the first, unlinked worker. */
  ghost predicate TwoWorkers(s: State, first: Handle, deleter: CallPc) {
    && s.workers == map["card" := 1] && !s.stopped
    && s.handles == [first, NewHandle("card")]
    && |s.calls| == 3 && s.calls[1] == Caller(DeleteReq("card"), deleter)
    && s.calls[0] == Caller(EVENT, AtSelect(0))
  }

  /** ... then DeleteWorker shuts the first one down. */
  lemma ShutDownRun() returns (tr: seq<State>, steps: seq<Step>)
    ensures IsRun(tr, steps)
    ensures TwoWorkers(tr[|steps|],
                       NewHandle("card").(deleted := true, once := Completed, closes := 1, cancelled := true),
                       Waiting([0], 0))
  {
    tr, steps := TwoWorkersRun();
    var s := tr[|steps|];
    s := Perform(s, EffectOf(s, CloseKill(1)));
    Extend(tr, steps, CloseKill(1), s);
    tr, steps := tr + [s], steps + [CloseKill(1)];
    assert TwoWorkers(s, NewHandle("card").(deleted := true, once := RunBy(1), closes := 1), Cancelling([0], 0));
    s := Perform(s, EffectOf(s, CancelCtx(1)));
    Extend(tr, steps, CancelCtx(1), s);
    tr, steps := tr + [s], steps + [CancelCtx(1)];
  }

  /** ... then the first worker leaves its loop and runs the session defer. */
  lemma LeavingRun() returns (tr: seq<State>, steps: seq<Step>)
    ensures IsRun(tr, steps)
    ensures tr[|steps|].workers == map["card" := 1] && !tr[|steps|].stopped && |tr[|steps|].handles| == 2
    ensures tr[|steps|].handles[0].card == "card" && tr[|steps|].handles[0].pc.Deregistering?
    ensures tr[|steps|].handles[0].inbox == [] && tr[|steps|].handles[0].received == []
    ensures |tr[|steps|].calls| == 3 && tr[|steps|].calls[0] == Caller(EVENT, AtSelect(0))
    ensures tr[|steps|].handles[1] == NewHandle("card")
  {
    tr, steps := ShutDownRun();
    var s := tr[|steps|];
    s := Perform(s, EffectOf(s, Worker(0, SeeKill)));
    Extend(tr, steps, Worker(0, SeeKill), s);
    tr, steps := tr + [s], steps + [Worker(0, SeeKill)];
    s := Perform(s, EffectOf(s, Worker(0, ExitDisconnect)));
    Extend(tr, steps, Worker(0, ExitDisconnect), s);
    tr, steps := tr + [s], steps + [Worker(0, ExitDisconnect)];
  }

  /** ... and its deregister, by card id, removes the entry of the second worker. */
  lemma OrphanRun() returns (tr: seq<State>, steps: seq<Step>)
    ensures IsRun(tr, steps)
    ensures tr[|steps|].workers == map[] && !tr[|steps|].stopped
    ensures |tr[|steps|].handles| == 2 && tr[|steps|].handles[1] == NewHandle("card")
  {
    tr, steps := LeavingRun();
    assert map["card" := 1] - {"card"} == map[];
    var s := Perform(tr[|steps|], EffectOf(tr[|steps|], Deregister(0)));
    Extend(tr, steps, Deregister(0), s);
    tr, steps := tr + [s], steps + [Deregister(0)];
  }

  /** With DeleteWorker, one-worker-per-card fails in some run. */
  lemma DeleteCanMakeTwoWorkers()
    ensures exists tr, steps :: IsRun(tr, steps) && !AtMostOne(tr[|steps|], "card")
  {
    var tr, steps := TwoWorkersRun();
    assert LiveFor(tr[|steps|], 0, "card") && LiveFor(tr[|steps|], 1, "card");
  }

  /** Enter Stop and take its critical section. */
  lemma StopEntered(tr: seq<State>, steps: seq<Step>, order: seq<nat>) returns (tr': seq<State>, steps': seq<Step>)
    requires IsRun(tr, steps) && Enumerates(order, tr[|steps|].workers)
    ensures Continues(tr, steps, tr', steps') && |steps'| == |steps| + 2
    ensures var (s, p) := (tr[|steps|], |tr[|steps|].calls|);
            && steps'[|steps|] == Call(StopReq) && steps'[|steps| + 1] == StopLock(p, order)
            && tr'[|steps'| - 1] == s.(calls := s.calls + [Caller(StopReq, Entered)])
            && tr'[|steps'|] == Apply(tr'[|steps'| - 1], StopLock(p, order))
  {
    var p := |tr[|steps|].calls|;
    var tr1, steps1 := OneMore(tr, steps, Call(StopReq));
    tr', steps' := OneMore(tr1, steps1, StopLock(p, order));
    ContinuesTransitively(tr, steps, tr1, steps1, tr', steps');
  }

  /** A run that ends when the Stop call that set the flag has returned, with a watched worker left. */
  ghost predicate StopLeft(w: Watched, tr: seq<State>, steps: seq<Step>) {
    && IsRun(tr, steps) && |steps| > 0
    && steps[|steps| - 1].StopLock? && !tr[|steps| - 1].stopped
    && LeftBehind(w, tr[|steps|], steps[|steps| - 1].p)
  }

  /**
   After that race Stop can return while a worker nobody unlinked is still running:
   its entry was deleted by the other worker's deregister, so Stop never sees it.
   */
  lemma StopCanMissAWorker()
    ensures exists tr, steps :: StopLeft(LiveUndeleted, tr, steps)
  {
    var tr, steps := OrphanRun();
    var tr', steps' := StopEntered(tr, steps, []);
    assert IsWatched(LiveUndeleted, tr'[|steps'|].handles[1]);
    assert StopLeft(LiveUndeleted, tr', steps');
  }

  /** A race takes two workers. */
  lemma OneWorkerIsCalm(tr: seq<State>, steps: seq<Step>)
    requires IsRun(tr, steps) && |tr[|steps|].handles| <= 1
    ensures Calm(tr, steps, |steps|)
  {
    forall j, card | 0 <= j < |steps| ensures !Racy(tr[j], steps[j], card) {
      assert IsStep(tr, steps, j);
      RunGrows(tr, steps, j + 1, |steps|);
    }
  }

  /**
   No race is needed when DeleteWorker is at work: it has unlinked the worker and not yet
   shut it down, so Stop finds an empty registry and returns with that worker running.
   */
  lemma StopCanMissAnUnlinkedWorker()
    ensures exists tr, steps :: StopLeft(AnyLive, tr, steps) && Calm(tr, steps, |steps|)
                                && !HasUnseen(LiveUndeleted, tr[|steps| - 1])
  {
    var tr, steps := UnlinkedRun();
    var tr', steps' := StopEntered(tr, steps, []);
    assert IsWatched(AnyLive, tr'[|steps'|].handles[0]);
    OneWorkerIsCalm(tr', steps');
  }

  /** The first call that stops waits for its workers, a second one returns at once. */
  lemma LaterStopReturnsAtOnce()
    ensures exists tr: seq<State>, steps: seq<Step>, p: nat ::
              IsRun(tr, steps) && LeftBehind(LiveUndeleted, tr[|steps|], p) && |steps| > 0
              && steps[|steps| - 1].StopLock? && steps[|steps| - 1].p == p
              && forall h: nat :: h < |tr[|steps|].handles| ==> IsEntry(tr[|steps|], h)
  {
    var tr, steps := RegisteredRun();
    assert tr[|steps|].workers["card"] == 0 && 0 in tr[|steps|].workers.Values;
    var tr1, steps1 := StopEntered(tr, steps, [0]);
    assert tr1[|steps1|].workers == tr[|steps|].workers;
    var tr2, steps2 := StopEntered(tr1, steps1, [0]);
    assert IsWatched(LiveUndeleted, tr2[|steps2|].handles[0]);
    assert LeftBehind(LiveUndeleted, tr2[|steps2|], steps2[|steps2| - 1].p);
  }

  /**
   A racy registration alone does not break Stop's promise: a run with two live workers
   of a card in which no deregister takes out another's entry before the stop.
   */
  lemma RacyRunCanBeAimed()
    ensures exists tr: seq<State>, steps ::
              && IsRun(tr, steps) && !Calm(tr, steps, |steps|) && AimedUntilStop(tr, steps, |steps|)
              && tr[|steps|].stopped
  {
    var tr, steps := TwoWorkersRun();
    assert tr[|steps|].workers["card"] == 1 && 1 in tr[|steps|].workers.Values;
    var tr', steps' := StopEntered(tr, steps, [1]);
    var s := tr'[|steps'|];
    assert NoDeregister(steps') by {
      assert forall k :: 0 <= k < |steps| ==> steps'[k] == steps[k];
    }
    assert s.handles == tr[|steps|].handles && s.stopped;
    assert LiveFor(s, 0, "card") && LiveFor(s, 1, "card");
    if Calm(tr', steps', |steps'|) {
      CalmRunKeepsOne(tr', steps', |steps'|, "card");
    }
  }
}
