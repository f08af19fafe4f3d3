/** The gateway-wide event log (internal/app/globallog.go). */
module GlobalLog {
  import opened Ring

  datatype GlobalEvent = GlobalEvent(at: int, cardID: string, kind: string, summary: string)

  class GlobalEventLog {
    var entries: seq<GlobalEvent>
    var head: nat
    const ringSize: nat
    ghost var history: seq<GlobalEvent>

    ghost predicate Valid()
      reads this
    {
      Holds(Buffer(entries, head), ringSize, history)
    }

    /** A capacity that is not positive means 128. */
    constructor (size: int)
      ensures Valid() && history == []
      ensures ringSize == if size <= 0 then 128 else size
    {
      ringSize := if size <= 0 then 128 else size;
      entries, head := [], 0;
      history := [];
    }

    method Record(now: int, cardID: string, kind: string, summary: string)
      requires Valid()
      modifies this
      ensures Valid() && history == old(history) + [GlobalEvent(now, cardID, kind, summary)]
    {
      var e := GlobalEvent(now, cardID, kind, summary);
      AppendKeeps(Buffer(entries, head), ringSize, history, e);
      history := history + [e];
      if |entries| < ringSize {
        entries := entries + [e];
        return;
      }
      entries := entries[head := e];
      head := (head + 1) % ringSize;
    }

    method Entries() returns (out: seq<GlobalEvent>)
      requires Valid()
      ensures out == Last(history, ringSize)
    {
      HoldsReads(Buffer(entries, head), ringSize, history);
      if |entries| < ringSize {
        return entries;
      }
      out := entries[head..];
      out := out + entries[..head];
    }
  }
}
