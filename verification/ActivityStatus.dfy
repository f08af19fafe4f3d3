/**
 What the tracker shows after any run of calls, field by field and by positions in the run,
 and what its small texts say.
 */
module ActivityStatus {
  import opened Common
  import opened Ring
  import opened Activity
  import opened ActivityPairing

  // ------------------------------------------------------------- the latest call that tells

  /** The call at `i` is the latest that gives a value. */
  ghost predicate GivesLast<V>(calls: seq<Call>, given: Call -> Option<V>, i: nat) {
    && i < |calls| && given(calls[i]).Some?
    && forall j :: i < j < |calls| ==> given(calls[j]).None?
  }

  /** `v` is what the latest call that gives a value gives, and `start` when none does. */
  ghost predicate LatestGives<V>(calls: seq<Call>, given: Call -> Option<V>, start: V, v: V) {
    || (v == start && forall j :: 0 <= j < |calls| ==> given(calls[j]).None?)
    || exists i: nat :: GivesLast(calls, given, i) && given(calls[i]) == Some(v)
  }

  lemma LatestOneMore<V>(calls: seq<Call>, given: Call -> Option<V>, start: V, was: V, now: V)
    requires calls != [] && LatestGives(calls[..|calls| - 1], given, start, was)
    requires now == OrElse(given(calls[|calls| - 1]), was)
    ensures LatestGives(calls, given, start, now)
  {
    var (front, last) := (calls[..|calls| - 1], calls[|calls| - 1]);
    if given(last).Some? {
      assert GivesLast(calls, given, |front|);
    } else if j :| 0 <= j < |front| && given(front[j]).Some? {
      var i: nat :| GivesLast(front, given, i) && given(front[i]) == Some(was);
      forall k | i < k < |calls| ensures given(calls[k]).None? {
        assert k < |front| ==> front[k] == calls[k];
      }
      assert GivesLast(calls, given, i);
    } else {
      forall k | 0 <= k < |calls| ensures given(calls[k]).None? {
        assert k < |front| ==> front[k] == calls[k];
      }
    }
  }

  /** Every field shows the latest value given for it, and what a fresh tracker shows when none was. */
  ghost predicate ShowsLatest(calls: seq<Call>, s: Status) {
    && LatestGives(calls, StateGiven, Starting, s.state)
    && LatestGives(calls, ErrorGiven, "", s.lastError)
    && LatestGives(calls, TokensInGiven, 0, s.turnTokensIn)
    && LatestGives(calls, TokensOutGiven, 0, s.turnTokensOut)
    && LatestGives(calls, ModelGiven, "", s.model)
    && LatestGives(calls, SessionGiven, "", s.sessionID)
    && LatestGives(calls, PreviewGiven, "", s.lastAssistantPreview)
    && LatestGives(calls, EventAtGiven, None, s.lastEventAt)
  }

  lemma ShowsOneMore(calls: seq<Call>, was: Status, now: Status)
    requires calls != [] && ShowsLatest(calls[..|calls| - 1], was) && Takes(calls[|calls| - 1], was, now)
    ensures ShowsLatest(calls, now)
  {
    LatestOneMore(calls, StateGiven, Starting, was.state, now.state);
    LatestOneMore(calls, ErrorGiven, "", was.lastError, now.lastError);
    LatestOneMore(calls, TokensInGiven, 0, was.turnTokensIn, now.turnTokensIn);
    LatestOneMore(calls, TokensOutGiven, 0, was.turnTokensOut, now.turnTokensOut);
    LatestOneMore(calls, ModelGiven, "", was.model, now.model);
    LatestOneMore(calls, SessionGiven, "", was.sessionID, now.sessionID);
    LatestOneMore(calls, PreviewGiven, "", was.lastAssistantPreview, now.lastAssistantPreview);
    LatestOneMore(calls, EventAtGiven, None, was.lastEventAt, now.lastEventAt);
  }

  /**
   After any run: the state is that of the latest call that sets one; the last error, model,
   session, assistant preview and event time are the latest given; the token counts are those
   of the latest usage since the latest user message, and zero when there is none.
   */
  lemma {:induction false} StatusShowsLatest(calls: seq<Call>)
    ensures ShowsLatest(calls, TrackerAfter(calls).status)
  {
    if calls != [] {
      var front := calls[..|calls| - 1];
      StatusShowsLatest(front);
      StepRecords(TrackerAfter(front), calls[|calls| - 1]);
      ShowsOneMore(calls, TrackerAfter(front).status, TrackerAfter(calls).status);
    }
  }

  /** A new tracker fed any run of calls knows what the run says, and shows the end of its entries. */
  method Feed(size: int, calls: seq<Call>) returns (t: ActivityTracker, status: Status, recent: seq<Entry>)
    ensures fresh(t) && t.Valid() && t.View() == TrackerAfter(calls)
    ensures status == TrackerAfter(calls).status
    ensures recent == Last(TrackerAfter(calls).log, if size <= 0 then 64 else size)
    ensures ShowsLatest(calls, status)
    ensures status.currentTool != "" <==> exists i: nat :: CurrentStart(calls, i)
  {
    t := new ActivityTracker(size);
    for k := 0 to |calls|
      invariant fresh(t) && t.Valid() && t.View() == TrackerAfter(calls[..k])
    {
      AfterOneMore(calls, k);
      match calls[k] {
        case RecordEvent(at, e) => t.RecordEvent(at, e);
        case MarkDisconnected(at) => t.MarkDisconnected(at);
        case MarkSessionIdleReaped(at) => t.MarkSessionIdleReaped(at);
      }
    }
    assert calls[..|calls|] == calls;
    status, recent := t.Snapshot();
    StatusShowsLatest(calls);
    CurrentToolIsLatestStart(calls);
  }

  // ----------------------------------------------------------------------- the texts

  /** The text on one line: what breaks or indents a line has become a blank. */
  ghost predicate OnOneLine(s: string, line: string) {
    && |line| == |s|
    && forall i :: 0 <= i < |s| ==>
         line[i] == if s[i] == '\n' || s[i] == '\r' || s[i] == '\t' then ' ' else s[i]
  }

  /** A preview is the text on one line, of a long one its first `max` characters and "...". */
  lemma PreviewIsOneLine(s: string, max: nat)
    ensures |s| <= max ==> OnOneLine(s, Preview(s, max))
    ensures |s| > max ==> |Preview(s, max)| == max + 3 && OnOneLine(s[..max], Preview(s, max)[..max])
                          && Preview(s, max)[max..] == "..."
  {
    var breaks := "\n\r\t";
    assert breaks[0] == '\n' && breaks[1] == '\r' && breaks[2] == '\t';
    assert forall c: char :: c in breaks <==> c == '\n' || c == '\r' || c == '\t';
  }

  /** The number a string of digits stands for. */
  function ValueOf(s: string): int {
    if s == "" then 0 else 10 * ValueOf(s[..|s| - 1]) + (s[|s| - 1] as int - '0' as int)
  }

  /** Decimal writes a number in digits, without leading zeros, and a negative one with a sign. */
  lemma {:induction false} DecimalReadsBack(n: int)
    requires n >= 0
    ensures Decimal(n) != "" && ValueOf(Decimal(n)) == n
    ensures forall i :: 0 <= i < |Decimal(n)| ==> '0' <= Decimal(n)[i] <= '9'
    ensures n > 0 ==> Decimal(n)[0] != '0' && Decimal(-n) == "-" + Decimal(n)
  {
    if n < 10 {
      assert Decimal(n) == [('0' as int + n) as char];
      assert Decimal(n)[..0] == "";
    } else {
      DecimalReadsBack(n / 10);
      var (front, last) := (Decimal(n / 10), ('0' as int + n % 10) as char);
      assert Decimal(n) == front + [last];
      assert Decimal(n)[..|Decimal(n)| - 1] == front;
    }
  }
}
