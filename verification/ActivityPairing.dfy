/**
 What the tracker knows after any run of calls, told by positions in the run: which tool
 calls are live, under which label, and which tool is current.
 */
module ActivityPairing {
  import opened Common
  import opened Strings
  import opened Activity

  function TrackerAfter(calls: seq<Call>): Tracker {
    if calls == [] then FRESH else Step(TrackerAfter(calls[..|calls| - 1]), calls[|calls| - 1])
  }

  lemma AfterOneMore(calls: seq<Call>, k: nat)
    requires k < |calls|
    ensures TrackerAfter(calls[..k + 1]) == Step(TrackerAfter(calls[..k]), calls[k])
  {
    assert calls[..k + 1][..k] == calls[..k];
  }

  /** Both maps are emptied: the session is gone. */
  predicate Resets(c: Call) { !c.RecordEvent? }

  predicate StartsCall(c: Call, id: string) { c.RecordEvent? && c.e.ToolStart? && c.e.callID == id }

  predicate EndsCall(c: Call, id: string) {
    Resets(c) || (c.e.ToolComplete? && c.e.callID == id)
  }

  /** Position `i` is the latest start of the tool call `id`, neither completed nor reset since. */
  ghost predicate LiveCall(calls: seq<Call>, i: nat, id: string) {
    && i < |calls| && StartsCall(calls[i], id)
    && forall j :: i < j < |calls| ==> !StartsCall(calls[j], id) && !EndsCall(calls[j], id)
  }

  predicate StartsSubagent(c: Call, id: string) { c.RecordEvent? && c.e.SubagentStarted? && c.e.callID == id }

  predicate EndsSubagent(c: Call, id: string) {
    Resets(c) || ((c.e.SubagentCompleted? || c.e.SubagentFailed?) && c.e.callID == id)
  }

  ghost predicate LiveSubagent(calls: seq<Call>, i: nat, id: string) {
    && i < |calls| && StartsSubagent(calls[i], id)
    && forall j :: i < j < |calls| ==> !StartsSubagent(calls[j], id) && !EndsSubagent(calls[j], id)
  }

  /** The label the start at `i` gave its call. */
  ghost function LabelAt(calls: seq<Call>, i: nat): string
    requires i < |calls| && calls[i].RecordEvent? && calls[i].e.ToolStart?
  {
    StartLabel(calls[i].e.toolName, calls[i].e.parent, TrackerAfter(calls[..i]).subagents)
  }

  // ------------------------------------------------------------- which calls are live

  lemma LiveCallOneMore(calls: seq<Call>, i: nat, id: string)
    requires calls != []
    ensures var front := calls[..|calls| - 1];
            LiveCall(calls, i, id) <==>
              if i == |front| then StartsCall(calls[i], id)
              else LiveCall(front, i, id) && !StartsCall(calls[|front|], id) && !EndsCall(calls[|front|], id)
  {
    var front := calls[..|calls| - 1];
    if i < |front| && LiveCall(calls, i, id) {
      forall j | i < j < |front| ensures !StartsCall(front[j], id) && !EndsCall(front[j], id) {
        assert front[j] == calls[j];
      }
    }
    if i < |front| && LiveCall(front, i, id) && !StartsCall(calls[|front|], id) && !EndsCall(calls[|front|], id) {
      forall j | i < j < |calls| ensures !StartsCall(calls[j], id) && !EndsCall(calls[j], id) {
        assert j < |front| ==> front[j] == calls[j];
      }
    }
  }

  lemma LabelOfFront(calls: seq<Call>, i: nat)
    requires i < |calls| - 1 && calls[i].RecordEvent? && calls[i].e.ToolStart?
    ensures LabelAt(calls[..|calls| - 1], i) == LabelAt(calls, i)
  {
    assert calls[..|calls| - 1][..i] == calls[..i];
  }

  /** A call with a live start is in the map, under that start's label. */
  lemma {:induction false} LiveCallIsHeld(calls: seq<Call>, i: nat, id: string)
    requires LiveCall(calls, i, id)
    ensures id in TrackerAfter(calls).calls && TrackerAfter(calls).calls[id] == LabelAt(calls, i)
  {
    LiveCallOneMore(calls, i, id);
    if i < |calls| - 1 {
      LiveCallIsHeld(calls[..|calls| - 1], i, id);
      LabelOfFront(calls, i);
    }
  }

  /** A call in the map has a live start. */
  lemma {:induction false} HeldCallIsLive(calls: seq<Call>, id: string) returns (i: nat)
    requires id in TrackerAfter(calls).calls
    ensures LiveCall(calls, i, id)
  {
    var last := calls[|calls| - 1];
    if StartsCall(last, id) {
      i := |calls| - 1;
    } else {
      i := HeldCallIsLive(calls[..|calls| - 1], id);
      LiveCallOneMore(calls, i, id);
    }
  }

  /**
   After any run, however calls interleave, the map of call names holds exactly the calls
   started and not completed since the last reset, each under its latest start's label.
   */
  lemma CallNamesAreLive(calls: seq<Call>, id: string)
    ensures id in TrackerAfter(calls).calls <==> exists i: nat :: LiveCall(calls, i, id)
    ensures forall i: nat :: LiveCall(calls, i, id) ==>
              id in TrackerAfter(calls).calls && TrackerAfter(calls).calls[id] == LabelAt(calls, i)
  {
    forall i: nat | LiveCall(calls, i, id)
      ensures id in TrackerAfter(calls).calls && TrackerAfter(calls).calls[id] == LabelAt(calls, i)
    {
      LiveCallIsHeld(calls, i, id);
    }
    if id in TrackerAfter(calls).calls {
      var i := HeldCallIsLive(calls, id);
    }
  }

  /** The same for the names of subagents, which the tags are read from. */
  lemma {:induction false} SubagentNamesAreLive(calls: seq<Call>, id: string)
    ensures id in TrackerAfter(calls).subagents <==> exists i: nat :: LiveSubagent(calls, i, id)
    ensures forall i: nat :: LiveSubagent(calls, i, id) ==>
              id in TrackerAfter(calls).subagents && TrackerAfter(calls).subagents[id] == calls[i].e.agentName
  {
    if calls != [] {
      var (front, last) := (calls[..|calls| - 1], calls[|calls| - 1]);
      SubagentNamesAreLive(front, id);
      forall i: nat ensures LiveSubagent(calls, i, id)
          <==> if i == |front| then StartsSubagent(last, id)
               else LiveSubagent(front, i, id) && !StartsSubagent(last, id) && !EndsSubagent(last, id)
      {
        LiveSubagentOneMore(calls, i, id);
      }
      if StartsSubagent(last, id) {
        assert LiveSubagent(calls, |front|, id);
      } else if id in TrackerAfter(calls).subagents {
        var i: nat :| LiveSubagent(front, i, id);
        assert LiveSubagent(calls, i, id);
      }
    }
  }

  /** The tag of a call names the live subagent that made it, or "?" when none is live. */
  lemma TagNamesTheSubagent(calls: seq<Call>, parent: string)
    ensures forall j: nat :: LiveSubagent(calls, j, parent) ==>
              SubTag(parent, TrackerAfter(calls).subagents) == "[sub:" + calls[j].e.agentName + "]"
    ensures (forall j: nat :: !LiveSubagent(calls, j, parent)) ==>
              SubTag(parent, TrackerAfter(calls).subagents) == "[sub:?]"
  {
    SubagentNamesAreLive(calls, parent);
    assert "[sub:" + "?" + "]" == "[sub:?]";
  }

  /** A start is labelled with its tool, tagged with the subagent that made it if one did. */
  lemma LabelNamesTheSubagent(calls: seq<Call>, i: nat)
    requires i < |calls| && calls[i].RecordEvent? && calls[i].e.ToolStart?
    ensures calls[i].e.parent.None? ==> LabelAt(calls, i) == calls[i].e.toolName
    ensures calls[i].e.parent.Some? ==> forall j: nat :: LiveSubagent(calls[..i], j, calls[i].e.parent.value) ==>
              LabelAt(calls, i) == calls[i].e.toolName + ("[sub:" + calls[j].e.agentName + "]")
    ensures calls[i].e.parent.Some? && (forall j: nat :: !LiveSubagent(calls[..i], j, calls[i].e.parent.value)) ==>
              LabelAt(calls, i) == calls[i].e.toolName + "[sub:?]"
  {
    if calls[i].e.parent.Some? {
      TagNamesTheSubagent(calls[..i], calls[i].e.parent.value);
    }
  }

  lemma LiveSubagentOneMore(calls: seq<Call>, i: nat, id: string)
    requires calls != []
    ensures var front := calls[..|calls| - 1];
            LiveSubagent(calls, i, id) <==>
              if i == |front| then StartsSubagent(calls[i], id)
              else LiveSubagent(front, i, id) && !StartsSubagent(calls[|front|], id)
                   && !EndsSubagent(calls[|front|], id)
  {
    var front := calls[..|calls| - 1];
    if i < |front| && LiveSubagent(calls, i, id) {
      forall j | i < j < |front| ensures !StartsSubagent(front[j], id) && !EndsSubagent(front[j], id) {
        assert front[j] == calls[j];
      }
    }
    if i < |front| && LiveSubagent(front, i, id) && !StartsSubagent(calls[|front|], id)
       && !EndsSubagent(calls[|front|], id) {
      forall j | i < j < |calls| ensures !StartsSubagent(calls[j], id) && !EndsSubagent(calls[j], id) {
        assert j < |front| ==> front[j] == calls[j];
      }
    }
  }

  // ---------------------------------------------------------------- the recorded labels

  /** The entry the call at `k` records. */
  ghost function EntryAt(calls: seq<Call>, k: nat): Option<Entry>
    requires k < |calls|
  {
    EntryOf(TrackerAfter(calls[..k]), calls[k])
  }

  /** The history of entries is what the calls recorded, in the order of the calls: each what describes its call. */
  lemma LogIsWhatWasRecorded(calls: seq<Call>, k: nat)
    requires k < |calls|
    ensures var (before, after) := (TrackerAfter(calls[..k]).log, TrackerAfter(calls[..k + 1]).log);
            && Records(calls[k], before, after)
            && after == if EntryAt(calls, k).None? then before else before + [EntryAt(calls, k).value]
  {
    AfterOneMore(calls, k);
    StepRecords(TrackerAfter(calls[..k]), calls[k]);
  }

  lemma TagIsFound(name: string, rest: string)
    ensures Contains(name + ("[sub:" + rest), "[sub:")
  {
    var s := name + ("[sub:" + rest);
    assert s[|name|..] == "[sub:" + rest;
    assert OccursAt(s, "[sub:", |name|);
  }

  /** The label of a call a subagent made carries a tag. */
  lemma ParentedStartIsTagged(name: string, parent: string, subagents: map<string, string>)
    ensures Contains(StartLabel(name, Some(parent), subagents), "[sub:")
  {
    var agent := if parent in subagents then subagents[parent] else "?";
    assert SubTag(parent, subagents) == "[sub:" + (agent + "]");
    TagIsFound(name, agent + "]");
  }

  /**
   A completion with a live start is recorded under that start's label, whatever calls
   came in between; the tag of a subagent is added exactly when the completion has a
   parent and the label has no tag. The call is then live no more.
   */
  lemma CompletionUsesItsStart(calls: seq<Call>, k: nat, i: nat, id: string)
    requires k < |calls| && calls[k].RecordEvent? && calls[k].e.ToolComplete? && calls[k].e.callID == id
    requires LiveCall(calls[..k], i, id)
    ensures EntryAt(calls, k).Some? && EntryAt(calls, k).value.kind == "tool_complete"
    ensures var (tool, start, e) := (EntryAt(calls, k).value.tool, LabelAt(calls, i), calls[k].e);
            tool == if e.parent.Some? && !Contains(start, "[sub:")
                    then start + SubTag(e.parent.value, TrackerAfter(calls[..k]).subagents) else start
    ensures EntryAt(calls, i).Some? && EntryAt(calls, i).value.tool == LabelAt(calls, i)
    ensures EntryAt(calls, k).value.tool == EntryAt(calls, i).value.tool
        <==> calls[k].e.parent.None? || Contains(LabelAt(calls, i), "[sub:")
    ensures calls[i].e.parent.Some? ==> EntryAt(calls, k).value.tool == EntryAt(calls, i).value.tool
    ensures id !in TrackerAfter(calls[..k + 1]).calls
  {
    var before := calls[..k];
    LiveCallIsHeld(before, i, id);
    assert before[..i] == calls[..i];
    if calls[i].e.parent.Some? {
      ParentedStartIsTagged(calls[i].e.toolName, calls[i].e.parent.value, TrackerAfter(calls[..i]).subagents);
    }
    AfterOneMore(calls, k);
  }

  lemma {:induction false} FirstWordStops(word: string, rest: string)
    requires ' ' !in word
    ensures FirstWord(word + " " + rest) == word
  {
    var s := word + " " + rest;
    if word != "" {
      assert s[0] == word[0] && word[0] in word;
      assert s[1..] == word[1..] + " " + rest;
      FirstWordStops(word[1..], rest);
      assert word == [word[0]] + word[1..];
    }
  }

  // -------------------------------------------------------------------- the current tool

  predicate StartsTool(c: Call) { c.RecordEvent? && c.e.ToolStart? }

  /** Any completion, an idle session and an idle reap clear the current tool; the worker's exit does not. */
  predicate ClearsTool(c: Call) {
    c.MarkSessionIdleReaped? || (c.RecordEvent? && (c.e.ToolComplete? || c.e.SessionIdle?))
  }

  ghost predicate CurrentStart(calls: seq<Call>, i: nat) {
    && i < |calls| && StartsTool(calls[i])
    && forall j :: i < j < |calls| ==> !StartsTool(calls[j]) && !ClearsTool(calls[j])
  }

  /** What the status shows of the start at `i`. */
  ghost function ShownAt(calls: seq<Call>, i: nat): string
    requires i < |calls| && StartsTool(calls[i])
  {
    LabelAt(calls, i) + " " + Preview(calls[i].e.arguments, 80)
  }

  lemma CurrentStartOneMore(calls: seq<Call>, i: nat)
    requires calls != []
    ensures var front := calls[..|calls| - 1];
            CurrentStart(calls, i) <==>
              if i == |front| then StartsTool(calls[i])
              else CurrentStart(front, i) && !StartsTool(calls[|front|]) && !ClearsTool(calls[|front|])
  {
    var front := calls[..|calls| - 1];
    if i < |front| && CurrentStart(calls, i) {
      forall j | i < j < |front| ensures !StartsTool(front[j]) && !ClearsTool(front[j]) {
        assert front[j] == calls[j];
      }
    }
    if i < |front| && CurrentStart(front, i) && !StartsTool(calls[|front|]) && !ClearsTool(calls[|front|]) {
      forall j | i < j < |calls| ensures !StartsTool(calls[j]) && !ClearsTool(calls[j]) {
        assert j < |front| ==> front[j] == calls[j];
      }
    }
  }

  lemma {:induction false} CurrentStartIsShown(calls: seq<Call>, i: nat)
    requires CurrentStart(calls, i)
    ensures TrackerAfter(calls).status.currentTool == ShownAt(calls, i)
  {
    CurrentStartOneMore(calls, i);
    if i < |calls| - 1 {
      CurrentStartIsShown(calls[..|calls| - 1], i);
      LabelOfFront(calls, i);
    }
  }

  lemma {:induction false} CurrentStartSince(calls: seq<Call>, i: nat)
    requires CurrentStart(calls, i)
    ensures TrackerAfter(calls).status.currentToolStartedAt == Some(calls[i].at)
  {
    CurrentStartOneMore(calls, i);
    if i < |calls| - 1 {
      CurrentStartSince(calls[..|calls| - 1], i);
    }
  }

  lemma {:induction false} ShownHasStart(calls: seq<Call>) returns (i: nat)
    requires TrackerAfter(calls).status.currentTool != ""
    ensures CurrentStart(calls, i)
  {
    var last := calls[|calls| - 1];
    if StartsTool(last) {
      i := |calls| - 1;
    } else {
      i := ShownHasStart(calls[..|calls| - 1]);
      CurrentStartOneMore(calls, i);
    }
  }

  /** There is a current tool exactly when the latest tool start was not cleared since; it is that tool, since then. */
  lemma CurrentToolIsLatestStart(calls: seq<Call>)
    ensures TrackerAfter(calls).status.currentTool != "" <==> exists i: nat :: CurrentStart(calls, i)
    ensures forall i: nat :: CurrentStart(calls, i) ==> TrackerAfter(calls).status.currentTool == ShownAt(calls, i)
    ensures forall i: nat :: CurrentStart(calls, i) ==>
              TrackerAfter(calls).status.currentToolStartedAt == Some(calls[i].at)
  {
    forall i: nat | CurrentStart(calls, i)
      ensures TrackerAfter(calls).status.currentTool == ShownAt(calls, i)
      ensures TrackerAfter(calls).status.currentToolStartedAt == Some(calls[i].at)
    {
      CurrentStartIsShown(calls, i);
      CurrentStartSince(calls, i);
    }
    if TrackerAfter(calls).status.currentTool != "" {
      var i := ShownHasStart(calls);
    }
  }

  /**
   A completion with no live start takes the label of the current tool, if there is one
   and its label has no blank; otherwise it takes the first word of what is shown, or "".
   */
  lemma OrphanCompletion(calls: seq<Call>, k: nat)
    requires k < |calls| && calls[k].RecordEvent? && calls[k].e.ToolComplete?
    requires forall i: nat :: !LiveCall(calls[..k], i, calls[k].e.callID)
    ensures EntryAt(calls, k).Some?
    ensures forall i: nat :: CurrentStart(calls[..k], i) && ' ' !in LabelAt(calls[..k], i) ==>
              EntryAt(calls, k).value.tool
                == TagIfMissing(LabelAt(calls[..k], i), calls[k].e.parent, TrackerAfter(calls[..k]).subagents)
    ensures (forall i: nat :: !CurrentStart(calls[..k], i)) ==>
              EntryAt(calls, k).value.tool == TagIfMissing("", calls[k].e.parent, TrackerAfter(calls[..k]).subagents)
  {
    var before := calls[..k];
    CallNamesAreLive(before, calls[k].e.callID);
    CurrentToolIsLatestStart(before);
    forall i: nat | CurrentStart(before, i) && ' ' !in LabelAt(before, i)
      ensures FirstWord(TrackerAfter(before).status.currentTool) == LabelAt(before, i)
    {
      FirstWordStops(LabelAt(before, i), Preview(before[i].e.arguments, 80));
    }
  }

  /** A running tool is shown; an idle session shows none; a session reaped for idleness shows none. */
  lemma {:induction false} StateAgreesWithTool(calls: seq<Call>)
    ensures var s := TrackerAfter(calls).status;
            && (s.state == RunningTool ==> s.currentTool != "")
            && (s.state == Idle ==> s.currentTool == "")
            && (s.currentTool != "" <==> s.currentToolStartedAt.Some?)
    ensures calls != [] && calls[|calls| - 1].MarkSessionIdleReaped? ==>
              TrackerAfter(calls).status.state == Disconnected && TrackerAfter(calls).status.currentTool == ""
  {
    if calls != [] {
      StateAgreesWithTool(calls[..|calls| - 1]);
    }
  }

  /** A worker that exits while a tool runs leaves that tool shown as current. */
  lemma ExitKeepsTheTool(calls: seq<Call>, at: int)
    ensures TrackerAfter(calls + [Call.MarkDisconnected(at)]).status.state == Disconnected
    ensures TrackerAfter(calls + [Call.MarkDisconnected(at)]).status.currentTool == ""
        <==> forall i: nat :: !CurrentStart(calls, i)
  {
    var all := calls + [Call.MarkDisconnected(at)];
    assert all[..|all| - 1] == calls;
    CurrentToolIsLatestStart(calls);
  }

  /** A run that shows it: a tool is started, the worker exits, and the tool is still shown. */
  lemma ToolShownAfterExit()
    ensures var calls := [Call.RecordEvent(0, ToolStart("id", "view", None, "file")), Call.MarkDisconnected(1)];
            && TrackerAfter(calls).status.state == Disconnected
            && TrackerAfter(calls).status.currentTool == "view file"
  {
    var start := Call.RecordEvent(0, ToolStart("id", "view", None, "file"));
    var calls := [start, Call.MarkDisconnected(1)];
    assert calls[..1] == [start] && [start][..0] == [];
    assert TrackerAfter([]) == FRESH;
    assert TrackerAfter([start]) == Step(FRESH, start);
    assert Preview("file", 80) == "file";
    assert "view" + " " + "file" == "view file";
  }
}
