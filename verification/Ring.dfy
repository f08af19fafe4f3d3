/**
 The rotating buffer that the per-card activity log and the gateway-wide event log both
 keep: it fills up, then overwrites its oldest item.
 */
module Ring {

  /** The stored items and the index the next one overwrites once the buffer is full. */
  datatype Buffer<T> = Buffer(entries: seq<T>, head: nat)

  /** The last `n` items of a history, or all of a shorter one. */
  ghost function Last<T>(history: seq<T>, n: nat): seq<T> {
    if |history| <= n then history else history[|history| - n..]
  }

  function Append<T>(b: Buffer<T>, capacity: nat, x: T): Buffer<T>
    requires capacity > 0 && (|b.entries| < capacity || b.head < |b.entries|)
  {
    if |b.entries| < capacity then b.(entries := b.entries + [x])
    else Buffer(b.entries[b.head := x], (b.head + 1) % capacity)
  }

  /** Oldest first: from the head to the end, then from the start to the head. */
  function Read<T>(b: Buffer<T>, capacity: nat): seq<T>
    requires |b.entries| < capacity || b.head <= |b.entries|
  {
    if |b.entries| < capacity then b.entries else b.entries[b.head..] + b.entries[..b.head]
  }

  /** The buffer stores what is left of the history. */
  ghost predicate Holds<T>(b: Buffer<T>, capacity: nat, history: seq<T>) {
    && capacity > 0
    && if |history| < capacity then b == Buffer(history, 0)
       else |b.entries| == capacity && b.head < capacity && Read(b, capacity) == Last(history, capacity)
  }

  lemma HoldsReads<T>(b: Buffer<T>, capacity: nat, history: seq<T>)
    requires Holds(b, capacity, history)
    ensures Read(b, capacity) == Last(history, capacity)
  {
  }

  lemma AppendKeeps<T>(b: Buffer<T>, capacity: nat, history: seq<T>, x: T)
    requires Holds(b, capacity, history)
    ensures Holds(Append(b, capacity, x), capacity, history + [x])
  {
    var next := Append(b, capacity, x);
    if |history| < capacity {
      assert |history| + 1 == capacity ==> next.entries[0..] + next.entries[..0] == history + [x];
    } else {
      Rotates(b, capacity, x);
      assert Last(history + [x], capacity) == Last(history, capacity)[1..] + [x];
    }
  }

  lemma NextHead(head: nat, capacity: nat)
    requires head < capacity
    ensures (head + 1) % capacity == if head + 1 < capacity then head + 1 else 0
  {
    if head + 1 < capacity {
      SmallMod(head + 1, capacity);
    } else {
      assert head + 1 == capacity;
    }
  }

  lemma SmallMod(a: nat, m: nat)
    requires a < m
    ensures a % m == a
  {
  }

  lemma RotatesInside<T>(s: seq<T>, h: nat, x: T)
    requires h + 1 < |s|
    ensures s[h := x][h + 1..] + s[h := x][..h + 1] == (s[h..] + s[..h])[1..] + [x]
  {
    assert s[h := x][h + 1..] == s[h + 1..];
    assert s[h := x][..h + 1] == s[..h] + [x];
    assert (s[h..] + s[..h])[1..] == s[h + 1..] + s[..h];
  }

  lemma RotatesAround<T>(s: seq<T>, h: nat, x: T)
    requires h + 1 == |s|
    ensures s[h := x][0..] + s[h := x][..0] == (s[h..] + s[..h])[1..] + [x]
  {
    assert s[h := x] == s[..h] + [x];
    assert (s[h..] + s[..h])[1..] == s[..h];
  }

  /** Overwriting the head drops the oldest item, also when the head wraps around. */
  lemma Rotates<T>(b: Buffer<T>, capacity: nat, x: T)
    requires |b.entries| == capacity && b.head < capacity
    ensures Append(b, capacity, x).head < capacity
    ensures Read(Append(b, capacity, x), capacity) == Read(b, capacity)[1..] + [x]
  {
    NextHead(b.head, capacity);
    if b.head + 1 < capacity {
      RotatesInside(b.entries, b.head, x);
    } else {
      RotatesAround(b.entries, b.head, x);
    }
  }

  /** What a run of appends leaves in an empty buffer. */
  ghost function AppendAll<T>(capacity: nat, history: seq<T>): (b: Buffer<T>)
    requires capacity > 0
    ensures Holds(b, capacity, history)
  {
    if history == [] then Buffer([], 0)
    else
      var (before, x) := (history[..|history| - 1], history[|history| - 1]);
      assert history == before + [x];
      AppendKeeps(AppendAll(capacity, before), capacity, before, x);
      Append(AppendAll(capacity, before), capacity, x)
  }

  /** For every capacity and any number of appends, the buffer reads back the last of them, in order. */
  lemma ReadsBackTheLast<T>(capacity: nat, history: seq<T>)
    requires capacity > 0
    ensures Read(AppendAll(capacity, history), capacity) == Last(history, capacity)
    ensures |Read(AppendAll(capacity, history), capacity)| == if |history| < capacity then |history| else capacity
  {
    HoldsReads(AppendAll(capacity, history), capacity, history);
  }
}
