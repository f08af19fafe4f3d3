/**
 One worker per card: when it holds, when it does not, and what Stop leaves behind.
 */
module DispatcherRegistry {
  import opened Common
  import opened DispatcherModel
  import opened DispatcherSessions
  import opened DispatcherInvariant
  import opened DispatcherDelivery

  /** The card does not have two workers that have not passed their deregister defer. */
  ghost predicate AtMostOne(s: State, card: Card) {
    forall g, h :: 0 <= g < h < |s.handles| ==> !(LiveFor(s, g, card) && LiveFor(s, h, card))
  }

  ghost predicate LiveFor(s: State, h: nat, card: Card) {
    h < |s.handles| && s.handles[h].card == card && s.handles[h].Live()
  }

  /** Every live worker of the card that no DeleteWorker unlinked is its registry entry. */
  ghost predicate LiveAreRegistered(s: State, card: Card) {
    forall h :: 0 <= h < |s.handles| && LiveFor(s, h, card) && !s.handles[h].deleted ==> IsEntry(s, h)
  }

  ghost predicate IsEntry(s: State, h: nat)
    requires h < |s.handles|
  {
    s.handles[h].card in s.workers && s.workers[s.handles[h].card] == h
  }

  /** A worker of the card was unlinked by DeleteWorker and has not deregistered yet. */
  ghost predicate HasUnlinked(s: State, card: Card) {
    exists h :: 0 <= h < |s.handles| && LiveFor(s, h, card) && s.handles[h].deleted
  }

  /** An enqueue registers the card between the map delete and the old worker's deregister. */
  ghost predicate Racy(s: State, st: Step, card: Card) {
    Creates(s, st, card) && HasUnlinked(s, card)
  }

  lemma CalmStepKeepsAtMostOne(s: State, st: Step, card: Card)
    requires Enabled(s, st) && !Racy(s, st, card) && AtMostOne(s, card) && LiveAreRegistered(s, card)
    ensures AtMostOne(Apply(s, st), card)
  {
    var s' := Apply(s, st);
    StepGrows(s, st);
    forall g, h | 0 <= g < h < |s'.handles| ensures !(LiveFor(s', g, card) && LiveFor(s', h, card)) {
      if h < |s.handles| {
        assert HandleGrows(s.handles[g], s'.handles[g]) && HandleGrows(s.handles[h], s'.handles[h]);
        assert !(LiveFor(s, g, card) && LiveFor(s, h, card));
      } else if LiveFor(s', h, card) {
        CalmSpawnIsAlone(s, st, card, g);
      }
    }
  }

  /** A calm registration happens only when the card has no live worker at all. */
  lemma CalmSpawnIsAlone(s: State, st: Step, card: Card, g: nat)
    requires Enabled(s, st) && !Racy(s, st, card) && LiveAreRegistered(s, card) && g < |s.handles|
    requires |Apply(s, st).handles| > |s.handles| && LiveFor(Apply(s, st), |s.handles|, card)
    ensures !LiveFor(Apply(s, st), g, card)
  {
    assert !HasUnlinked(s, card);
  }

  /** A step removes an entry only by unlinking it or with a worker of that card leaving. */
  lemma EffectKeepsEntry(s: State, st: Step, h: nat)
    requires Enabled(s, st) && h < |s.handles| && IsEntry(s, h)
    ensures var e := EffectOf(s, st); var card := s.handles[h].card;
            || (card in e.workers && e.workers[card] == h)
            || (st.DeleteLock? && e.onHandles.Touch? && e.onHandles.h == h && e.onHandles.hd.deleted)
            || (st.Deregister? && LiveFor(s, st.h, card) && (st.h == h ==> !Apply(s, st).handles[h].Live()))
  {
  }

  /** A worker's deregister, which goes by card id, takes out the entry of another worker. */
  ghost predicate Misfires(s: State, st: Step, card: Card) {
    && st.Deregister? && Enabled(s, st) && s.handles[st.h].card == card
    && card in s.workers && s.workers[card] != st.h
  }

  lemma StepKeepsRegistered(s: State, st: Step, card: Card)
    requires Enabled(s, st) && !Misfires(s, st, card) && LiveAreRegistered(s, card)
    ensures LiveAreRegistered(Apply(s, st), card)
  {
    var s' := Apply(s, st);
    StepGrows(s, st);
    forall h | 0 <= h < |s'.handles| && LiveFor(s', h, card) && !s'.handles[h].deleted ensures IsEntry(s', h) {
      if h < |s.handles| {
        assert HandleGrows(s.handles[h], s'.handles[h]);
        assert LiveFor(s, h, card);
        EffectKeepsEntry(s, st, h);
      }
    }
  }

  /** The worker whose entry is taken out is live, not deleted, and no entry any more. */
  lemma MisfireOrphans(s: State, st: Step, card: Card)
    requires RegistryInv(s) && Misfires(s, st, card)
    ensures !LiveAreRegistered(Apply(s, st), card)
  {
    var g := s.workers[card];
    assert Registered(s, card);
    assert LiveFor(Apply(s, st), g, card) && !IsEntry(Apply(s, st), g);
  }

  lemma {:induction false} AimedRunKeepsRegistered(tr: seq<State>, steps: seq<Step>, k: nat, card: Card)
    requires IsRun(tr, steps) && k <= |steps|
    requires forall j :: 0 <= j < k ==> !Misfires(tr[j], steps[j], card)
    ensures LiveAreRegistered(tr[k], card)
  {
    if k > 0 {
      AimedRunKeepsRegistered(tr, steps, k - 1, card);
      assert IsStep(tr, steps, k - 1);
      StepKeepsRegistered(tr[k - 1], steps[k - 1], card);
    }
  }

  /**
   Every live worker of the card that nobody deleted is its registry entry, in all states
   of a run, if and only if no deregister of the run takes out another worker's entry.
   */
  lemma RegisteredIffNoMisfire(tr: seq<State>, steps: seq<Step>, card: Card)
    requires IsRun(tr, steps)
    ensures (forall k :: 0 <= k < |tr| ==> LiveAreRegistered(tr[k], card)) <==>
            (forall k :: 0 <= k < |steps| ==> !Misfires(tr[k], steps[k], card))
  {
    if forall k :: 0 <= k < |steps| ==> !Misfires(tr[k], steps[k], card) {
      forall k | 0 <= k < |tr| ensures LiveAreRegistered(tr[k], card) {
        AimedRunKeepsRegistered(tr, steps, k, card);
      }
    } else {
      var k :| 0 <= k < |steps| && Misfires(tr[k], steps[k], card);
      assert IsStep(tr, steps, k);
      RunKeepsInv(tr, steps, k);
      MisfireOrphans(tr[k], steps[k], card);
      assert !LiveAreRegistered(tr[k + 1], card);
    }
  }

  /** With one worker per card a deregister can only meet its own entry. */
  lemma OneWorkerNeverMisfires(s: State, st: Step, card: Card)
    requires RegistryInv(s) && AtMostOne(s, card)
    ensures !Misfires(s, st, card)
  {
    if Misfires(s, st, card) {
      var (g, h) := (s.workers[card], st.h);
      assert Registered(s, card);
      assert LiveFor(s, g, card) && LiveFor(s, h, card);
    }
  }

  lemma {:induction false} CalmRunKeepsOne(tr: seq<State>, steps: seq<Step>, k: nat, card: Card)
    requires IsRun(tr, steps) && k <= |steps|
    requires forall j :: 0 <= j < k ==> !Racy(tr[j], steps[j], card)
    ensures AtMostOne(tr[k], card) && LiveAreRegistered(tr[k], card)
  {
    if k > 0 {
      CalmRunKeepsOne(tr, steps, k - 1, card);
      assert IsStep(tr, steps, k - 1);
      CalmStepKeepsAtMostOne(tr[k - 1], steps[k - 1], card);
      RunKeepsInv(tr, steps, k - 1);
      OneWorkerNeverMisfires(tr[k - 1], steps[k - 1], card);
      StepKeepsRegistered(tr[k - 1], steps[k - 1], card);
    }
  }

  /** The racy registration itself gives the card a second live worker. */
  lemma RacyStepMakesTwo(s: State, st: Step, card: Card)
    requires Racy(s, st, card)
    ensures !AtMostOne(Apply(s, st), card)
  {
    var h :| 0 <= h < |s.handles| && LiveFor(s, h, card) && s.handles[h].deleted;
    assert LiveFor(Apply(s, st), h, card) && LiveFor(Apply(s, st), |s.handles|, card);
  }

  /**
   The card has at most one worker in every state of a run if and only if no enqueue of
   the run registers the card while an unlinked worker of it is still live.
   */
  lemma OneWorkerIffNoRace(tr: seq<State>, steps: seq<Step>, card: Card)
    requires IsRun(tr, steps)
    ensures (forall k :: 0 <= k < |tr| ==> AtMostOne(tr[k], card)) <==>
            (forall k :: 0 <= k < |steps| ==> !Racy(tr[k], steps[k], card))
  {
    if forall k :: 0 <= k < |steps| ==> !Racy(tr[k], steps[k], card) {
      forall k | 0 <= k < |tr| ensures AtMostOne(tr[k], card) {
        CalmRunKeepsOne(tr, steps, k, card);
      }
    } else {
      var k :| 0 <= k < |steps| && Racy(tr[k], steps[k], card);
      assert IsStep(tr, steps, k);
      RacyStepMakesTwo(tr[k], steps[k], card);
    }
  }

  // ----------------------------------------------------- runs without DeleteWorker

  ghost predicate NoDelete(steps: seq<Step>) {
    forall k :: 0 <= k < |steps| ==> !steps[k].DeleteLock?
  }

  lemma {:induction false} NothingUnlinked(tr: seq<State>, steps: seq<Step>, k: nat)
    requires IsRun(tr, steps) && NoDelete(steps) && k <= |steps|
    ensures forall h :: 0 <= h < |tr[k].handles| ==> !tr[k].handles[h].deleted
  {
    if k > 0 {
      NothingUnlinked(tr, steps, k - 1);
      assert IsStep(tr, steps, k - 1);
    }
  }

  /** No step of the run up to `k` is a racy registration, of any card. */
  ghost predicate Calm(tr: seq<State>, steps: seq<Step>, k: nat)
    requires |tr| == |steps| + 1 && k <= |steps|
  {
    forall j, card :: 0 <= j < k ==> !Racy(tr[j], steps[j], card)
  }

  lemma NoDeleteIsCalm(tr: seq<State>, steps: seq<Step>)
    requires IsRun(tr, steps) && NoDelete(steps)
    ensures Calm(tr, steps, |steps|)
  {
    forall j, card | 0 <= j < |steps| ensures !Racy(tr[j], steps[j], card) {
      NothingUnlinked(tr, steps, j);
    }
  }

  /**
   Without DeleteWorker, in every state: a worker has not passed its deregister defer
   exactly when it is its card's registry entry, so no card has two.
   */
  lemma LiveWorkersAreTheRegistry(tr: seq<State>, steps: seq<Step>, k: nat)
    requires IsRun(tr, steps) && NoDelete(steps) && k <= |steps|
    ensures forall card :: AtMostOne(tr[k], card)
    ensures forall h :: 0 <= h < |tr[k].handles| ==> (tr[k].handles[h].Live() <==> IsEntry(tr[k], h))
  {
    NoDeleteIsCalm(tr, steps);
    NothingUnlinked(tr, steps, k);
    RunKeepsInv(tr, steps, k);
    forall card ensures AtMostOne(tr[k], card) && LiveAreRegistered(tr[k], card) {
      CalmRunKeepsOne(tr, steps, k, card);
    }
    forall h | 0 <= h < |tr[k].handles| ensures tr[k].handles[h].Live() <==> IsEntry(tr[k], h) {
      var card := tr[k].handles[h].card;
      assert LiveAreRegistered(tr[k], card) && !tr[k].handles[h].deleted;
      assert tr[k].handles[h].Live() ==> LiveFor(tr[k], h, card);
      assert card in tr[k].workers ==> Registered(tr[k], card);
    }
  }

  // ------------------------------------------------------------------------- Stop

  /** The Stop call `p` has returned while a watched worker is left. */
  ghost predicate LeftBehind(w: Watched, s: State, p: nat) {
    && p < |s.calls| && s.calls[p].req.StopReq? && s.calls[p].pc.Returned?
    && exists h :: 0 <= h < |s.handles| && IsWatched(w, s.handles[h])
  }

  /** Once `stopped` is set no handle is ever made or registered. */
  lemma {:induction false} StoppedRegistersNothing(tr: seq<State>, steps: seq<Step>, j: nat, k: nat)
    requires IsRun(tr, steps) && j <= k <= |steps| && tr[j].stopped
    ensures tr[k].stopped && |tr[k].handles| == |tr[j].handles|
    ensures tr[k].workers.Items <= tr[j].workers.Items
    decreases k
  {
    if j < k {
      StoppedRegistersNothing(tr, steps, j, k - 1);
      assert IsStep(tr, steps, k - 1);
      ItemsShrink(tr[k - 1], steps[k - 1]);
    }
  }

  lemma ItemsShrink(s: State, st: Step)
    requires s.stopped && Enabled(s, st)
    ensures Apply(s, st).stopped && |Apply(s, st).handles| == |s.handles|
    ensures Apply(s, st).workers.Items <= s.workers.Items
  {
  }

  /** The handles a Stop call that set `stopped` has taken from the registry. */
  function StopSnapshot(pc: CallPc): Option<seq<nat>> {
    match pc
    case Shutting(hs, _) => Some(hs)
    case Cancelling(hs, _) => Some(hs)
    case Waiting(hs, _) => Some(hs)
    case Returned(Stopped(hs)) => Some(hs)
    case _ => None
  }

  /** The workers a Stop call may be asked about. */
  datatype Watched =
    | LiveUndeleted   // not past its deregister defer, and no DeleteWorker call unlinked it
    | AnyLive         // not past its deregister defer
    | AnyRunning      // its goroutine has not exited

  ghost predicate IsWatched(w: Watched, hd: Handle) {
    match w
    case LiveUndeleted => hd.Live() && !hd.deleted
    case AnyLive => hd.Live()
    case AnyRunning => !hd.pc.Exited?
  }

  /** The worker is one a Stop call entering now would not wait for. */
  ghost predicate Unseen(w: Watched, s: State, h: nat) {
    h < |s.handles| && IsWatched(w, s.handles[h]) && (s.stopped || !IsEntry(s, h))
  }

  ghost predicate HasUnseen(w: Watched, s: State) { exists h: nat :: Unseen(w, s, h) }

  /** A stopping caller's snapshot covers every watched worker. */
  ghost predicate SnapshotsCover(w: Watched, s: State) {
    forall p :: 0 <= p < |s.calls| && s.calls[p].req.StopReq? && StopSnapshot(s.calls[p].pc).Some? ==>
                  Covers(w, s, StopSnapshot(s.calls[p].pc).value)
  }

  ghost predicate Covers(w: Watched, s: State, hs: seq<nat>) {
    s.stopped && forall h :: 0 <= h < |s.handles| && IsWatched(w, s.handles[h]) ==> h in hs
  }

  /** A step takes a snapshot only in the critical section of Stop; later it keeps it. */
  lemma EffectKeepsSnapshot(s: State, st: Step, p: nat)
    requires Enabled(s, st) && Mover(st) == Some(p) && s.calls[p].req.StopReq?
    requires StopSnapshot(Apply(s, st).calls[p].pc).Some?
    ensures StopSnapshot(Apply(s, st).calls[p].pc) == StopSnapshot(s.calls[p].pc)
            || (st.StopLock? && !s.stopped && StopSnapshot(Apply(s, st).calls[p].pc) == Some(st.order))
  {
  }

  lemma WatchedShrinks(w: Watched, hd: Handle, hd': Handle)
    requires HandleGrows(hd, hd') && IsWatched(w, hd')
    ensures IsWatched(w, hd)
  {
  }

  lemma StepKeepsCover(w: Watched, s: State, st: Step, hs: seq<nat>)
    requires Enabled(s, st) && Covers(w, s, hs)
    ensures Covers(w, Apply(s, st), hs)
  {
    var s' := Apply(s, st);
    StepGrows(s, st);
    ItemsShrink(s, st);
    forall h | 0 <= h < |s'.handles| && IsWatched(w, s'.handles[h]) ensures h in hs {
      WatchedShrinks(w, s.handles[h], s'.handles[h]);
    }
  }

  /** The snapshot of Stop holds exactly the registry's entries. */
  lemma SnapshotIsEntries(s: State, order: seq<nat>, h: nat)
    requires RegistryInv(s) && Enumerates(order, s.workers) && h < |s.handles|
    ensures h in order <==> IsEntry(s, h)
  {
    if h in order {
      var i :| 0 <= i < |order| && order[i] == h;
      assert h in s.workers.Values;
      var c :| c in s.workers && s.workers[c] == h;
      assert Registered(s, c);
    }
  }

  /** At the critical section that sets the flag, the snapshot covers exactly what is not unseen. */
  lemma LockCoversIff(w: Watched, s: State, p: nat, order: seq<nat>)
    requires Inv(s) && Enabled(s, StopLock(p, order)) && !s.stopped
    ensures Covers(w, Apply(s, StopLock(p, order)), order) <==> !HasUnseen(w, s)
  {
    var s' := Apply(s, StopLock(p, order));
    assert s'.handles == s.handles && s'.stopped;
    forall h | 0 <= h < |s.handles| ensures Unseen(w, s, h) <==> IsWatched(w, s'.handles[h]) && h !in order {
      SnapshotIsEntries(s, order, h);
    }
    if HasUnseen(w, s) {
      var h: nat :| Unseen(w, s, h);
      assert IsWatched(w, s'.handles[h]) && h !in order;
    }
  }

  lemma StepKeepsSnapshots(w: Watched, s: State, st: Step)
    requires Inv(s) && Enabled(s, st) && SnapshotsCover(w, s) && (!s.stopped ==> !HasUnseen(w, s))
    ensures SnapshotsCover(w, Apply(s, st))
  {
    var s' := Apply(s, st);
    StepGrows(s, st);
    forall p | 0 <= p < |s'.calls| && s'.calls[p].req.StopReq? && StopSnapshot(s'.calls[p].pc).Some?
      ensures Covers(w, s', StopSnapshot(s'.calls[p].pc).value)
    {
      if Mover(st) == Some(p) {
        EffectKeepsSnapshot(s, st, p);
      }
      if p < |s.calls| && StopSnapshot(s'.calls[p].pc) == StopSnapshot(s.calls[p].pc) {
        StepKeepsCover(w, s, st, StopSnapshot(s.calls[p].pc).value);
      } else {
        LockCoversIff(w, s, st.p, st.order);
      }
    }
  }

  /** Until the dispatcher is stopped no deregister takes out another worker's entry. */
  ghost predicate AimedUntilStop(tr: seq<State>, steps: seq<Step>, k: nat)
    requires |tr| == |steps| + 1 && k <= |steps|
  {
    forall j, card :: 0 <= j < k && !tr[j].stopped ==> !Misfires(tr[j], steps[j], card)
  }

  lemma RegisteredIsSeen(s: State)
    requires !s.stopped && forall card :: LiveAreRegistered(s, card)
    ensures !HasUnseen(LiveUndeleted, s)
  {
    forall h: nat ensures !Unseen(LiveUndeleted, s, h) {
      if h < |s.handles| {
        assert LiveAreRegistered(s, s.handles[h].card);
        assert s.handles[h].Live() ==> LiveFor(s, h, s.handles[h].card);
      }
    }
  }

  lemma {:induction false} AimedRunKeepsSnapshots(tr: seq<State>, steps: seq<Step>, k: nat)
    requires IsRun(tr, steps) && k <= |steps| && AimedUntilStop(tr, steps, k)
    ensures SnapshotsCover(LiveUndeleted, tr[k])
    ensures !tr[k].stopped ==> forall card :: LiveAreRegistered(tr[k], card)
  {
    if k > 0 {
      var (s, st) := (tr[k - 1], steps[k - 1]);
      AimedRunKeepsSnapshots(tr, steps, k - 1);
      RunKeepsInv(tr, steps, k - 1);
      assert IsStep(tr, steps, k - 1);
      if !s.stopped {
        RegisteredIsSeen(s);
      }
      StepKeepsSnapshots(LiveUndeleted, s, st);
      StepGrows(s, st);
      if !s.stopped {
        forall card ensures LiveAreRegistered(Apply(s, st), card) {
          StepKeepsRegistered(s, st, card);
        }
      }
    }
  }

  /** Runs without a racy registration are of this kind; not only they are. */
  lemma CalmIsAimed(tr: seq<State>, steps: seq<Step>, k: nat)
    requires IsRun(tr, steps) && k <= |steps| && Calm(tr, steps, k)
    ensures forall j, card :: 0 <= j < k ==> !Misfires(tr[j], steps[j], card)
    ensures AimedUntilStop(tr, steps, k)
  {
    forall j, card | 0 <= j < k ensures !Misfires(tr[j], steps[j], card) {
      CalmRunKeepsOne(tr, steps, j, card);
      RunKeepsInv(tr, steps, j);
      OneWorkerNeverMisfires(tr[j], steps[j], card);
    }
  }

  /** The goroutine has run its defers: no session open, none left connected, deregistered. */
  ghost predicate WoundDown(hd: Handle) {
    !hd.Live() && hd.session.None? && forall sid :: Created(sid) in hd.log ==> Disconnected(sid) in hd.log
  }

  /** Deregistered implies wound down. */
  lemma HandleWoundDown(s: State, h: nat)
    requires WorkersInv(s) && h < |s.handles| && !s.handles[h].Live()
    ensures WoundDown(s.handles[h])
  {
    assert WorkerInv(s.handles[h]);
    forall sid | Created(sid) in s.handles[h].log ensures Disconnected(sid) in s.handles[h].log {
      DeregisteredMeansDisconnected(s.handles[h], sid);
    }
  }

  /** A registry entry is a worker to watch. */
  lemma EntryIsWatched(w: Watched, s: State)
    requires RegistryInv(s) && s.workers != map[]
    ensures exists h :: 0 <= h < |s.handles| && IsWatched(w, s.handles[h])
  {
    var c :| c in s.workers;
    assert Registered(s, c);
    assert IsWatched(w, s.handles[s.workers[c]]);
  }

  /** A Stop call that has returned with a snapshot that covers what is watched leaves none of it. */
  lemma CoveredStopLeavesNothing(w: Watched, s: State, p: nat, hs: seq<nat>)
    requires Inv(s) && Covers(w, s, hs)
    requires p < |s.calls| && s.calls[p].pc == Returned(Stopped(hs))
    ensures s.workers == map[]
    ensures forall h :: 0 <= h < |s.handles| ==> !IsWatched(w, s.handles[h])
  {
    assert CallInv(s, p);
    forall h | h in hs ensures h < |s.handles| && s.handles[h].pc.Exited? {
      var i :| 0 <= i < |hs| && hs[i] == h;
      assert s.handles[hs[i]].pc.Exited?;
    }
    if s.workers != map[] {
      EntryIsWatched(w, s);
    }
  }

  /**
   Shutdown quiescence for runs in which, until the stop, no deregister takes out another
   worker's entry: when the Stop call that set `stopped` returns, the registry is empty
   and every worker ever made, except one a DeleteWorker call unlinked, has wound down.
   */
  lemma StopLeavesNothing(tr: seq<State>, steps: seq<Step>, k: nat, p: nat, hs: seq<nat>)
    requires IsRun(tr, steps) && k <= |steps| && AimedUntilStop(tr, steps, k)
    requires p < |tr[k].calls| && tr[k].calls[p].pc == Returned(Stopped(hs))
    ensures tr[k].workers == map[]
    ensures forall h :: 0 <= h < |tr[k].handles| && !tr[k].handles[h].deleted ==> WoundDown(tr[k].handles[h])
  {
    RunKeepsInv(tr, steps, k);
    AimedRunKeepsSnapshots(tr, steps, k);
    assert CallInv(tr[k], p);
    CoveredStopLeavesNothing(LiveUndeleted, tr[k], p, hs);
    forall h | 0 <= h < |tr[k].handles| && !tr[k].handles[h].deleted ensures WoundDown(tr[k].handles[h]) {
      assert !IsWatched(LiveUndeleted, tr[k].handles[h]);
      HandleWoundDown(tr[k], h);
    }
  }

  /** Without DeleteWorker, Stop returns to an empty registry and no worker is left at all. */
  lemma StopIsQuiescent(tr: seq<State>, steps: seq<Step>, k: nat, p: nat, hs: seq<nat>)
    requires IsRun(tr, steps) && NoDelete(steps) && k <= |steps|
    requires p < |tr[k].calls| && tr[k].calls[p].pc == Returned(Stopped(hs))
    ensures tr[k].workers == map[]
    ensures forall h :: 0 <= h < |tr[k].handles| ==> WoundDown(tr[k].handles[h])
  {
    NoDeleteIsCalm(tr, steps);
    CalmIsAimed(tr, steps, k);
    NothingUnlinked(tr, steps, k);
    StopLeavesNothing(tr, steps, k, p, hs);
  }

  /** DeleteWorker returns only after the worker it unlinked has wound down. */
  lemma DeleteWaitsForItsWorker(tr: seq<State>, steps: seq<Step>, k: nat, p: nat, h: nat)
    requires IsRun(tr, steps) && k <= |steps|
    requires p < |tr[k].calls| && tr[k].calls[p].pc == Returned(Deleted(h))
    ensures tr[k].calls[p].req.DeleteReq?
    ensures h < |tr[k].handles| && tr[k].handles[h].card == tr[k].calls[p].req.card
    ensures tr[k].handles[h].pc.Exited? && WoundDown(tr[k].handles[h])
    ensures forall c :: c in tr[k].workers ==> tr[k].workers[c] != h
  {
    var s := tr[k];
    RunKeepsInv(tr, steps, k);
    assert CallInv(s, p);
    assert s.handles[[h][0]].pc.Exited?;
    HandleWoundDown(s, h);
    assert forall c :: c in s.workers ==> Registered(s, c);
  }
}
