/**
 De-duplication of webhook deliveries (internal/app/runner.go): the TTL cache behind
 `markActionSeen`, refined to a statement about the whole history of calls, and the
 gate it forms at the top of `Handle`. Instants are integers; the clock is an input.
 */
module Dedup {
  import opened Common
  import opened Numbers

  // ---------------------------------------------------------------- the cache

  datatype Marked = Marked(seen: map<string, int>, duplicate: bool)

  function Pruned(seen: map<string, int>, ttl: int, now: int): map<string, int> {
    map id | id in seen && seen[id] + ttl >= now :: seen[id]
  }

  /** One call of markActionSeen at instant `now`. */
  function Mark(seen: map<string, int>, ttl: int, id: string, now: int): Marked {
    if id == "" then Marked(seen, false)
    else
      var kept := Pruned(seen, ttl, now);
      if id in kept then Marked(kept, true) else Marked(kept[id := now], false)
  }

  datatype Outcome = DuplicateDropped | SlimFailed | Dispatched(ok: bool)

  class Runner {
    var dedupSeen: map<string, int>
    const dedupTTL: int

    constructor (ttl: int)
      ensures dedupSeen == map[] && dedupTTL == ttl
    {
      dedupSeen := map[];
      dedupTTL := ttl;
    }

    /** The full scan that deletes what has expired. */
    method Prune(now: int)
      modifies this
      ensures dedupSeen == Pruned(old(dedupSeen), dedupTTL, now)
    {
      var ids := dedupSeen.Keys;
      while ids != {}
        invariant dedupSeen.Keys <= old(dedupSeen).Keys && ids <= dedupSeen.Keys
        invariant forall id :: id in dedupSeen ==> dedupSeen[id] == old(dedupSeen)[id]
        invariant forall id :: id in old(dedupSeen) && id !in ids ==>
                                 (id in dedupSeen <==> old(dedupSeen)[id] + dedupTTL >= now)
        decreases ids
      {
        var id :| id in ids;
        if dedupSeen[id] + dedupTTL < now {
          dedupSeen := dedupSeen - {id};
        }
        ids := ids - {id};
      }
    }

    method MarkActionSeen(actionID: string, now: int) returns (duplicate: bool)
      modifies this
      ensures Marked(dedupSeen, duplicate) == Mark(old(dedupSeen), dedupTTL, actionID, now)
    {
      if actionID == "" {
        return false;
      }
      Prune(now);
      if actionID in dedupSeen {
        return true;
      }
      dedupSeen := dedupSeen[actionID := now];
      return false;
    }

    /** Handle: a delivery without action id skips the gate; a marked one stays marked. */
    method Handle(actionID: Option<string>, now: int, slimOk: bool, dispatchOk: bool) returns (outcome: Outcome)
      modifies this
      ensures var d := Delivery(actionID, now, slimOk);
              var m := Mark(old(dedupSeen), dedupTTL, IdOf(d), now);
              && dedupSeen == m.seen
              && (outcome.DuplicateDropped? <==> m.duplicate)
              && (outcome.Dispatched? <==> !m.duplicate && slimOk)
              && (outcome.Dispatched? ==> outcome.ok == dispatchOk)
    {
      if actionID.Some? {
        var duplicate := MarkActionSeen(actionID.value, now);
        if duplicate {
          return DuplicateDropped;
        }
      }
      if !slimOk {
        return SlimFailed;
      }
      return Dispatched(dispatchOk);
    }

    /** A fresh runner over any run of deliveries dispatches exactly those the history lets through. */
    method HandleAll(ds: seq<Delivery>) returns (outcomes: seq<Outcome>)
      requires dedupSeen == map[]
      modifies this
      ensures dedupSeen == Seen(dedupTTL, CallsOf(ds), |ds|)
      ensures |outcomes| == |ds|
      ensures forall k :: 0 <= k < |ds| ==> (outcomes[k].Dispatched? <==> ReachesDispatch(dedupTTL, ds, k))
    {
      outcomes := [];
      for i := 0 to |ds|
        invariant dedupSeen == Seen(dedupTTL, CallsOf(ds), i) && |outcomes| == i
        invariant forall k :: 0 <= k < i ==> (outcomes[k].Dispatched? <==> ReachesDispatch(dedupTTL, ds, k))
      {
        var outcome := Handle(ds[i].actionID, ds[i].now, ds[i].slimOk, true);
        assert outcome.Dispatched? <==> ReachesDispatch(dedupTTL, ds, i);
        outcomes := outcomes + [outcome];
      }
    }
  }

  // ------------------------------------------------------- the history of calls

  datatype Call = Call(id: string, now: int)

  /** The cache after the first `n` calls. */
  function Seen(ttl: int, calls: seq<Call>, n: nat): map<string, int>
    requires n <= |calls|
  {
    if n == 0 then map[] else Mark(Seen(ttl, calls, n - 1), ttl, calls[n - 1].id, calls[n - 1].now).seen
  }

  /** What the k-th call returns. */
  predicate Duplicate(ttl: int, calls: seq<Call>, k: nat)
    requires k < |calls|
  {
    Mark(Seen(ttl, calls, k), ttl, calls[k].id, calls[k].now).duplicate
  }

  /** The latest of the first `n` calls for `id` that returned false; -1 if there is none. */
  function LastMiss(ttl: int, calls: seq<Call>, n: nat, id: string): (j: int)
    requires n <= |calls|
    ensures -1 <= j < n
    ensures j >= 0 ==> calls[j].id == id && !Duplicate(ttl, calls, j)
    ensures forall i :: j < i < n && calls[i].id == id ==> Duplicate(ttl, calls, i)
  {
    if n == 0 then -1
    else if calls[n - 1].id == id && !Duplicate(ttl, calls, n - 1) then n - 1
    else LastMiss(ttl, calls, n - 1, id)
  }

  /** No scan among the calls after `j` and before `n` finds the entry made at `j` expired. */
  ghost predicate Survives(ttl: int, calls: seq<Call>, j: nat, n: nat)
    requires j < |calls| && n <= |calls|
  {
    forall i :: j < i < n && calls[i].id != "" ==> calls[j].now + ttl >= calls[i].now
  }

  /** The cache in terms of the history, whatever the clock does. */
  lemma {:induction false} SeenIsHistory(ttl: int, calls: seq<Call>, n: nat, id: string)
    requires n <= |calls| && id != ""
    ensures var j := LastMiss(ttl, calls, n, id);
            && (id in Seen(ttl, calls, n) <==> j >= 0 && Survives(ttl, calls, j, n))
            && (id in Seen(ttl, calls, n) ==> Seen(ttl, calls, n)[id] == calls[j].now)
  {
    if n > 0 {
      SeenIsHistory(ttl, calls, n - 1, id);
      var (before, j) := (Seen(ttl, calls, n - 1), LastMiss(ttl, calls, n - 1, id));
      var last := calls[n - 1];
      if last.id != "" && !(last.id == id && !Duplicate(ttl, calls, n - 1)) {
        assert id in Seen(ttl, calls, n) <==> id in before && before[id] + ttl >= last.now;
        assert j >= 0 ==> (Survives(ttl, calls, j, n) <==>
                             Survives(ttl, calls, j, n - 1) && calls[j].now + ttl >= last.now);
      }
    }
  }

  /**
   Under every clock: a call returns true exactly when its id is not empty, an earlier
   call for the id returned false, and since the latest of these no scan, this call's
   included, came later than the TTL after it.
   */
  lemma DuplicateIffUnexpired(ttl: int, calls: seq<Call>, k: nat)
    requires k < |calls|
    ensures Duplicate(ttl, calls, k) <==>
            && calls[k].id != ""
            && LastMiss(ttl, calls, k, calls[k].id) >= 0
            && Survives(ttl, calls, LastMiss(ttl, calls, k, calls[k].id), k + 1)
  {
    if calls[k].id != "" {
      SeenIsHistory(ttl, calls, k, calls[k].id);
      var j := LastMiss(ttl, calls, k, calls[k].id);
      if j >= 0 {
        assert Survives(ttl, calls, j, k + 1) <==> Survives(ttl, calls, j, k) && calls[j].now + ttl >= calls[k].now;
      }
    }
  }

  ghost predicate ClockRuns(calls: seq<Call>) {
    forall i, j :: 0 <= i < j < |calls| ==> calls[i].now <= calls[j].now
  }

  /**
   With a clock that never runs backwards only this call's instant matters: the latest
   miss of the id must be at most TTL ago. A duplicate in between changes nothing.
   */
  lemma DuplicateIffWithinTtl(ttl: int, calls: seq<Call>, k: nat)
    requires k < |calls| && ClockRuns(calls)
    ensures Duplicate(ttl, calls, k) <==>
            && calls[k].id != ""
            && LastMiss(ttl, calls, k, calls[k].id) >= 0
            && calls[LastMiss(ttl, calls, k, calls[k].id)].now + ttl >= calls[k].now
  {
    DuplicateIffUnexpired(ttl, calls, k);
  }

  /** A clock that runs backwards can let the same id through twice at one instant. */
  lemma BackwardClockForgets()
    ensures exists calls: seq<Call> ::
              |calls| == 3 && calls[0] == calls[2] && !Duplicate(5, calls, 0) && !Duplicate(5, calls, 2)
  {
    var calls := [Call("a", 0), Call("b", 100), Call("a", 0)];
    assert Seen(5, calls, 1) == map["a" := 0];
    assert Seen(5, calls, 2) == map["b" := 100];
    assert !Duplicate(5, calls, 2);
  }

  // ---------------------------------------------------------- runs of Handle

  datatype Delivery = Delivery(actionID: Option<string>, now: int, slimOk: bool)

  /** Deliveries without an action id behave like the empty one: never marked. */
  function IdOf(d: Delivery): string { if d.actionID.Some? then d.actionID.value else "" }

  function CallsOf(ds: seq<Delivery>): seq<Call> {
    seq(|ds|, i requires 0 <= i < |ds| => Call(IdOf(ds[i]), ds[i].now))
  }

  /** The k-th delivery reaches the dispatcher. */
  predicate ReachesDispatch(ttl: int, ds: seq<Delivery>, k: nat)
    requires k < |ds|
  {
    !Duplicate(ttl, CallsOf(ds), k) && ds[k].slimOk
  }

  lemma LastMissAfter(ttl: int, calls: seq<Call>, j: nat, k: nat)
    requires j < k < |calls| && !Duplicate(ttl, calls, j)
    ensures LastMiss(ttl, calls, k, calls[j].id) >= j
  {
  }

  /** Any two deliveries of one action id that reach the dispatcher are more than TTL apart. */
  lemma DispatchesAreApart(ttl: int, ds: seq<Delivery>, j: nat, k: nat)
    requires j < k < |ds| && IdOf(ds[j]) == IdOf(ds[k]) != "" && ClockRuns(CallsOf(ds))
    requires ReachesDispatch(ttl, ds, j) && ReachesDispatch(ttl, ds, k)
    ensures ds[k].now > ds[j].now + ttl
  {
    var calls := CallsOf(ds);
    LastMissAfter(ttl, calls, j, k);
    DuplicateIffWithinTtl(ttl, calls, k);
    var m := LastMiss(ttl, calls, k, calls[k].id);
    assert calls[j].now <= calls[m].now;
  }

  /**
   A retry within the TTL of a first delivery is dropped whatever became of that one:
   a delivery that failed after the gate is not given a second chance.
   */
  lemma RetryIsDroppedEvenAfterFailure(ttl: int, ds: seq<Delivery>, j: nat, k: nat)
    requires j < k < |ds| && IdOf(ds[j]) == IdOf(ds[k]) != "" && ClockRuns(CallsOf(ds))
    requires !Duplicate(ttl, CallsOf(ds), j) && ds[k].now <= ds[j].now + ttl
    ensures !ReachesDispatch(ttl, ds, k)
  {
    var calls := CallsOf(ds);
    LastMissAfter(ttl, calls, j, k);
    DuplicateIffWithinTtl(ttl, calls, k);
    var m := LastMiss(ttl, calls, k, calls[k].id);
    assert calls[j].now <= calls[m].now;
  }

  // -------------------------------------------------------------- occupancy

  /** Calls with an id are at least `delta` apart. */
  ghost predicate Spaced(calls: seq<Call>, delta: nat) {
    forall i, j :: 0 <= i < j < |calls| && calls[i].id != "" && calls[j].id != "" ==>
                     calls[i].now + delta <= calls[j].now
  }

  /** Entries of different ids are at least `delta` apart. */
  ghost predicate EntriesApart(m: map<string, int>, delta: nat) {
    forall a, b :: a in m && b in m && a != b ==> m[a] + delta <= m[b] || m[b] + delta <= m[a]
  }

  lemma {:induction false} LatestEntry(m: map<string, int>) returns (k: string)
    requires m != map[]
    ensures k in m && forall a :: a in m ==> m[a] <= m[k]
    decreases |m|
  {
    var first :| first in m;
    k := first;
    var rest := m - {first};
    if rest != map[] {
      var other := LatestEntry(rest);
      k := if m[first] < rest[other] then other else first;
    }
    assert forall a :: a in m ==> a in rest || a == first;
  }

  /** Without the latest entry the others end at least `delta` earlier. */
  lemma WithoutLatest(m: map<string, int>, k: string, delta: nat)
    requires k in m && EntriesApart(m, delta) && delta > 0
    requires forall a :: a in m ==> m[a] <= m[k]
    ensures EntriesApart(m - {k}, delta) && |m - {k}| == |m| - 1
    ensures forall a :: a in m - {k} ==> (m - {k})[a] == m[a] && m[a] + delta <= m[k]
  {
    assert m.Keys == (m - {k}).Keys + {k};
  }

  /** Entries `delta` apart within a window take up `delta` each but the first. */
  lemma {:induction false} ApartMapSize(m: map<string, int>, lo: int, hi: int, delta: nat)
    requires m != map[] && EntriesApart(m, delta) && delta > 0
    requires forall a :: a in m ==> lo <= m[a] <= hi
    ensures |m| > 0 && (|m| - 1) * delta <= hi - lo
    decreases |m|
  {
    var k := LatestEntry(m);
    var rest := m - {k};
    WithoutLatest(m, k, delta);
    if rest != map[] {
      ApartMapSize(rest, lo, m[k] - delta, delta);
      TimesMore(|rest|, delta);
    }
  }

  /** What fits `q` times fits at most as often as the division says. */
  lemma QuotientBound(q: nat, a: nat, d: nat)
    requires d > 0 && q * d <= a
    ensures q <= a / d
  {
    var e := a / d;
    if q > e {
      TimesMonotone(e + 1, q, d);
    }
  }

  /** What is in the cache: the latest scan spared it, and different ids are different instants. */
  lemma EntriesAreSpaced(ttl: nat, calls: seq<Call>, n: nat, delta: nat, a: string, b: string)
    requires n <= |calls| && delta > 0 && Spaced(calls, delta)
    requires a in Seen(ttl, calls, n) && b in Seen(ttl, calls, n) && a != b
    ensures var s := Seen(ttl, calls, n); s[a] + delta <= s[b] || s[b] + delta <= s[a]
  {
    NoEmptyId(ttl, calls, n);
    SeenIsHistory(ttl, calls, n, a);
    SeenIsHistory(ttl, calls, n, b);
  }

  lemma {:induction false} NoEmptyId(ttl: int, calls: seq<Call>, n: nat)
    requires n <= |calls|
    ensures "" !in Seen(ttl, calls, n)
  {
    if n > 0 {
      NoEmptyId(ttl, calls, n - 1);
    }
  }

  /** All entries lie within the TTL before the instant of the last call with an id. */
  lemma {:induction false} EntriesInWindow(ttl: nat, calls: seq<Call>, n: nat, delta: nat) returns (hi: int)
    requires n <= |calls| && Spaced(calls, delta)
    ensures forall id :: id in Seen(ttl, calls, n) ==> hi - ttl <= Seen(ttl, calls, n)[id] <= hi
  {
    if n == 0 {
      hi := 0;
    } else if calls[n - 1].id == "" {
      hi := EntriesInWindow(ttl, calls, n - 1, delta);
    } else {
      hi := calls[n - 1].now;
      forall id | id in Seen(ttl, calls, n) ensures hi - ttl <= Seen(ttl, calls, n)[id] <= hi {
        NoEmptyId(ttl, calls, n);
        SeenIsHistory(ttl, calls, n, id);
      }
    }
  }

  /** The cache never holds more than TTL / delta + 1 entries, however long the run. */
  lemma OccupancyBound(ttl: nat, calls: seq<Call>, n: nat, delta: nat)
    requires n <= |calls| && delta > 0 && Spaced(calls, delta)
    ensures 0 <= ttl / delta && |Seen(ttl, calls, n)| <= ttl / delta + 1
  {
    var s := Seen(ttl, calls, n);
    var hi := EntriesInWindow(ttl, calls, n, delta);
    forall a, b | a in s && b in s && a != b ensures s[a] + delta <= s[b] || s[b] + delta <= s[a] {
      EntriesAreSpaced(ttl, calls, n, delta, a, b);
    }
    if s != map[] {
      ApartMapSize(s, hi - ttl, hi, delta);
      QuotientBound(|s| - 1, ttl, delta);
    }
  }

  // ------------------------------------------------------ the bound is attained

  /** `n` calls with different ids, exactly `delta` apart. */
  function Train(n: nat, delta: nat): (calls: seq<Call>)
    ensures |calls| == n
  {
    seq(n, i requires 0 <= i < n => Call(Numbered(i), i * delta))
  }

  lemma TrainIsSpaced(n: nat, delta: nat)
    ensures Spaced(Train(n, delta), delta)
  {
    forall i, j | 0 <= i < j < n ensures Train(n, delta)[i].now + delta <= Train(n, delta)[j].now {
      TimesMonotone(i + 1, j, delta);
      TimesMore(i + 1, delta);
    }
  }

  lemma NothingExpires(seen: map<string, int>, ttl: int, id: string, now: int)
    requires id != "" && id !in seen && forall k :: k in seen ==> seen[k] + ttl >= now
    ensures Mark(seen, ttl, id, now).seen == seen[id := now]
    ensures |Mark(seen, ttl, id, now).seen| == |seen| + 1
  {
    assert Pruned(seen, ttl, now) == seen;
    assert seen[id := now].Keys == seen.Keys + {id};
  }

  /** The first `k` calls of the train, each with an entry made when the clock was not negative. */
  ghost predicate Holds(seen: map<string, int>, k: nat) {
    |seen| == k && forall id :: id in seen ==> 1 <= |id| <= k && seen[id] >= 0
  }

  /** As long as the train fits the TTL, every call adds an entry and none expires. */
  lemma {:induction false} TrainFillsTheCache(ttl: nat, n: nat, delta: nat, k: nat)
    requires k <= n && (n - 1) * delta <= ttl
    ensures Holds(Seen(ttl, Train(n, delta), k), k)
  {
    if k > 0 {
      TrainFillsTheCache(ttl, n, delta, k - 1);
      TimesMonotone(k - 1, n - 1, delta);
      NothingExpires(Seen(ttl, Train(n, delta), k - 1), ttl, Numbered(k - 1), (k - 1) * delta);
    }
  }

  /** The number of entries that calls `delta` apart can make within the TTL. */
  function MostEntries(ttl: nat, delta: nat): (n: nat)
    requires delta > 0
    ensures n > 0 && (n - 1) * delta <= ttl < n * delta
  {
    DivisionFits(ttl, delta);
    ttl / delta + 1
  }

  lemma DivisionFits(a: nat, d: nat)
    requires d > 0
    ensures 0 <= a / d && a / d * d <= a < (a / d + 1) * d
  {
  }

  /** The bound is attained: by that many calls with different ids, exactly delta apart. */
  lemma OccupancyBoundIsTight(ttl: nat, delta: nat)
    requires delta > 0
    ensures Spaced(Train(MostEntries(ttl, delta), delta), delta)
    ensures |Seen(ttl, Train(MostEntries(ttl, delta), delta), MostEntries(ttl, delta))| == MostEntries(ttl, delta)
  {
    var n := MostEntries(ttl, delta);
    TrainIsSpaced(n, delta);
    TrainFillsTheCache(ttl, n, delta, n);
  }
}
