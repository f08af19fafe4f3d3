/**
 The per-card activity tracker (internal/app/activity.go): the status fed by the session's
 events, the two maps that label tool calls, and the ring of recent entries.
 */
module Activity {
  import opened Common
  import opened Ring
  import opened Strings

  datatype WorkerState = Starting | Thinking | RunningTool | WaitingPermission | Idle | ErrorState | Disconnected

  datatype Entry = Entry(at: int, kind: string, tool: string, summary: string)

  datatype Status = Status(
    state: WorkerState, currentTool: string, currentToolStartedAt: Option<int>, lastAssistantPreview: string,
    lastEventAt: Option<int>, lastError: string, turnTokensIn: int, turnTokensOut: int,
    model: string, sessionID: string)

  datatype ToolError = ToolError(message: string, code: Option<string>)

  /** The session events the tracker knows. `Other` is any it does not. */
  datatype SessionEvent =
    | SessionStart(sessionID: string, selectedModel: Option<string>)
    | SessionShutdown(shutdownType: string)
    | SessionIdle
    | SessionError(message: string)
    | UserMessage(content: string)
    | AssistantMessage(content: string)
    | AssistantUsage(inputTokens: Option<int>, outputTokens: Option<int>, model: string)
    | ToolStart(callID: string, toolName: string, parent: Option<string>, arguments: string)
    | ToolComplete(callID: string, parent: Option<string>, success: bool, error: Option<ToolError>)
    | SubagentStarted(callID: string, agentName: string)
    | SubagentCompleted(callID: string, agentName: string, toolCalls: Option<int>, durationMs: Option<int>)
    | SubagentFailed(callID: string, agentName: string, reason: string)
    | PermissionRequested(tool: Option<string>, requestKind: string)
    | PermissionCompleted(resultKind: string)
    | Other

  /** One call on the tracker: an event, the end of the worker, or the reap of an idle session. */
  datatype Call = RecordEvent(at: int, e: SessionEvent) | MarkDisconnected(at: int) | MarkSessionIdleReaped(at: int)

  // ------------------------------------------------------------------ small text

  /** One line of at most `max` characters, with "..." when cut. */
  function Preview(s: string, max: nat): string {
    var cleaned := seq(|s|, i requires 0 <= i < |s| => if s[i] in "\n\r\t" then ' ' else s[i]);
    if |s| <= max then cleaned else cleaned[..max] + "..."
  }

  function Decimal(n: int): string
    decreases if n < 0 then 1 else 0, if n < 0 then -n else n
  {
    if n < 0 then "-" + Decimal(-n)
    else if n < 10 then [('0' as int + n) as char]
    else Decimal(n / 10) + [('0' as int + n % 10) as char]
  }

  /** The text before the first blank. */
  function FirstWord(s: string): string {
    if s == "" || s[0] == ' ' then "" else [s[0]] + FirstWord(s[1..])
  }

  // ----------------------------------------------------------------- tool labels

  /** The tag of a call made by a subagent: its name, or "?" when that is not known. */
  function SubTag(parent: string, subagents: map<string, string>): string {
    "[sub:" + (if parent in subagents then subagents[parent] else "?") + "]"
  }

  function StartLabel(name: string, parent: Option<string>, subagents: map<string, string>): string {
    if parent.Some? then name + SubTag(parent.value, subagents) else name
  }

  /** The label of a completion: tagged when it has a parent and no tag yet. */
  function TagIfMissing(name: string, parent: Option<string>, subagents: map<string, string>): string {
    if parent.Some? && !Contains(name, "[sub:") then name + SubTag(parent.value, subagents) else name
  }

  // ------------------------------------------------------------- one call, as values

  /** What the tracker knows, with every entry ever recorded. */
  datatype Tracker = Tracker(status: Status, calls: map<string, string>, subagents: map<string, string>,
                             log: seq<Entry>)

  const FRESH := Tracker(Status(Starting, "", None, "", None, "", 0, 0, "", ""), map[], map[], [])

  function CompleteSummary(success: bool, error: Option<ToolError>): string {
    if success then "success=true"
    else if error.Some? && error.value.message != "" then
      var summary := "success=false err=" + Preview(error.value.message, 200);
      if error.value.code.Some? && error.value.code.value != "" then summary + (" code=" + error.value.code.value)
      else summary
    else "success=false"
  }

  function SubagentSummary(name: string, toolCalls: Option<int>, durationMs: Option<int>): string {
    var named := "name=" + name + " success=true";
    var counted := if toolCalls.Some? then named + (" tool_calls=" + Decimal(toolCalls.value)) else named;
    if durationMs.Some? then counted + (" duration_ms=" + Decimal(durationMs.value)) else counted
  }

  /** The label of a completion: that of its start, or else the first word of the current tool. */
  function CompleteLabel(t: Tracker, callID: string, parent: Option<string>): string {
    TagIfMissing(if callID in t.calls then t.calls[callID] else FirstWord(t.status.currentTool), parent, t.subagents)
  }

  function NextStatus(s: Status, c: Call, subagents: map<string, string>): Status {
    match c
    case MarkDisconnected(_) => s.(state := Disconnected)
    case MarkSessionIdleReaped(_) => s.(state := Disconnected, currentTool := "", currentToolStartedAt := None)
    case RecordEvent(at, e) =>
      var s := s.(lastEventAt := Some(at));
      match e
      case SessionStart(id, m) =>
        s.(sessionID := id, model := if m.Some? then m.value else s.model, state := Thinking)
      case SessionShutdown(_) => s.(state := Disconnected)
      case SessionIdle => s.(state := Idle, currentTool := "", currentToolStartedAt := None)
      case SessionError(m) => s.(state := ErrorState, lastError := m)
      case UserMessage(_) => s.(turnTokensIn := 0, turnTokensOut := 0, state := Thinking)
      case AssistantMessage(text) => if text != "" then s.(lastAssistantPreview := Preview(text, 200)) else s
      case AssistantUsage(i, o, m) =>
        s.(turnTokensIn := if i.Some? then i.value else s.turnTokensIn,
           turnTokensOut := if o.Some? then o.value else s.turnTokensOut,
           model := if m != "" then m else s.model)
      case ToolStart(_, name, parent, args) =>
        s.(state := RunningTool, currentTool := StartLabel(name, parent, subagents) + " " + Preview(args, 80),
           currentToolStartedAt := Some(at))
      case ToolComplete(_, _, _, _) => s.(state := Thinking, currentTool := "", currentToolStartedAt := None)
      case PermissionRequested(_, _) => s.(state := WaitingPermission)
      case PermissionCompleted(_) => s.(state := Thinking)
      case _ => s
  }

  function NextCalls(calls: map<string, string>, c: Call, subagents: map<string, string>): map<string, string> {
    if !c.RecordEvent? then map[]
    else if c.e.ToolStart? then calls[c.e.callID := StartLabel(c.e.toolName, c.e.parent, subagents)]
    else if c.e.ToolComplete? then calls - {c.e.callID}
    else calls
  }

  function NextSubagents(subagents: map<string, string>, c: Call): map<string, string> {
    if !c.RecordEvent? then map[]
    else if c.e.SubagentStarted? then subagents[c.e.callID := c.e.agentName]
    else if c.e.SubagentCompleted? || c.e.SubagentFailed? then subagents - {c.e.callID}
    else subagents
  }

  /** The entry a call records, if any. */
  function EntryOf(t: Tracker, c: Call): Option<Entry> {
    match c
    case MarkDisconnected(at) => Some(Entry(at, "session_shutdown", "", "worker exited"))
    case MarkSessionIdleReaped(at) => Some(Entry(at, "session_idle_reaped", "", "idle timeout"))
    case RecordEvent(at, e) =>
      match e
      case SessionStart(id, _) => Some(Entry(at, "session_start", "", "session=" + id))
      case SessionShutdown(why) => Some(Entry(at, "session_shutdown", "", why))
      case SessionIdle => Some(Entry(at, "idle", "", ""))
      case SessionError(m) => Some(Entry(at, "error", "", m))
      case UserMessage(text) => Some(Entry(at, "user_message", "", "chars=" + Decimal(|text|)))
      case AssistantMessage(text) =>
        if text != "" then Some(Entry(at, "assistant_message", "", Preview(text, 200))) else None
      case ToolStart(_, name, parent, args) =>
        Some(Entry(at, "tool_start", StartLabel(name, parent, t.subagents), Preview(args, 80)))
      case ToolComplete(id, parent, success, error) =>
        Some(Entry(at, "tool_complete", CompleteLabel(t, id, parent), CompleteSummary(success, error)))
      case SubagentStarted(id, name) =>
        Some(Entry(at, "subagent_start", name, "name=" + name + " parent_tool_call_id=" + id))
      case SubagentCompleted(_, name, tools, ms) =>
        Some(Entry(at, "subagent_complete", name, SubagentSummary(name, tools, ms)))
      case SubagentFailed(_, name, why) =>
        Some(Entry(at, "subagent_complete", name, "name=" + name + " success=false err=" + Preview(why, 200)))
      case PermissionRequested(tool, kind) =>
        Some(Entry(at, "permission", if tool.Some? then tool.value else "", "requested kind=" + kind))
      case PermissionCompleted(kind) => Some(Entry(at, "permission", "", "completed kind=" + kind))
      case _ => None
  }

  function Logged(log: seq<Entry>, e: Option<Entry>): seq<Entry> {
    if e.Some? then log + [e.value] else log
  }

  function Step(t: Tracker, c: Call): Tracker {
    Tracker(NextStatus(t.status, c, t.subagents), NextCalls(t.calls, c, t.subagents), NextSubagents(t.subagents, c),
            Logged(t.log, EntryOf(t, c)))
  }

  // --------------------------------------------------- what one call says, field by field

  function StateGiven(c: Call): Option<WorkerState> {
    match c
    case MarkDisconnected(_) => Some(Disconnected)
    case MarkSessionIdleReaped(_) => Some(Disconnected)
    case RecordEvent(_, e) =>
      match e
      case SessionStart(_, _) => Some(Thinking)
      case SessionShutdown(_) => Some(Disconnected)
      case SessionIdle => Some(Idle)
      case SessionError(_) => Some(ErrorState)
      case UserMessage(_) => Some(Thinking)
      case ToolStart(_, _, _, _) => Some(RunningTool)
      case ToolComplete(_, _, _, _) => Some(Thinking)
      case PermissionRequested(_, _) => Some(WaitingPermission)
      case PermissionCompleted(_) => Some(Thinking)
      case _ => None
  }

  function ErrorGiven(c: Call): Option<string> {
    if c.RecordEvent? && c.e.SessionError? then Some(c.e.message) else None
  }

  /** A user message starts a turn, of which no tokens are known yet. */
  function TokensInGiven(c: Call): Option<int> {
    if !c.RecordEvent? then None
    else if c.e.UserMessage? then Some(0)
    else if c.e.AssistantUsage? then c.e.inputTokens
    else None
  }

  function TokensOutGiven(c: Call): Option<int> {
    if !c.RecordEvent? then None
    else if c.e.UserMessage? then Some(0)
    else if c.e.AssistantUsage? then c.e.outputTokens
    else None
  }

  function ModelGiven(c: Call): Option<string> {
    if !c.RecordEvent? then None
    else if c.e.SessionStart? then c.e.selectedModel
    else if c.e.AssistantUsage? && c.e.model != "" then Some(c.e.model)
    else None
  }

  function SessionGiven(c: Call): Option<string> {
    if c.RecordEvent? && c.e.SessionStart? then Some(c.e.sessionID) else None
  }

  function PreviewGiven(c: Call): Option<string> {
    if c.RecordEvent? && c.e.AssistantMessage? && c.e.content != "" then Some(Preview(c.e.content, 200)) else None
  }

  function EventAtGiven(c: Call): Option<Option<int>> {
    if c.RecordEvent? then Some(Some(c.at)) else None
  }

  function OrElse<V>(given: Option<V>, was: V): V { if given.Some? then given.value else was }

  /** After the call a field has the value the call gives it, or the one it had. */
  ghost predicate Takes(c: Call, was: Status, now: Status) {
    && now.state == OrElse(StateGiven(c), was.state)
    && now.lastError == OrElse(ErrorGiven(c), was.lastError)
    && now.turnTokensIn == OrElse(TokensInGiven(c), was.turnTokensIn)
    && now.turnTokensOut == OrElse(TokensOutGiven(c), was.turnTokensOut)
    && now.model == OrElse(ModelGiven(c), was.model)
    && now.sessionID == OrElse(SessionGiven(c), was.sessionID)
    && now.lastAssistantPreview == OrElse(PreviewGiven(c), was.lastAssistantPreview)
    && now.lastEventAt == OrElse(EventAtGiven(c), was.lastEventAt)
  }

  lemma NextTakes(s: Status, c: Call, subagents: map<string, string>)
    ensures Takes(c, s, NextStatus(s, c, subagents))
  {
  }

  ghost predicate RecordsNothing(c: Call) {
    c.RecordEvent? && (c.e.Other? || c.e.AssistantUsage? || (c.e.AssistantMessage? && c.e.content == ""))
  }

  /** The entry is that of the call: when, of what kind, and with what text. */
  ghost predicate Describes(c: Call, x: Entry) {
    && x.at == c.at
    && match c
       case MarkDisconnected(_) => x.kind == "session_shutdown" && x.tool == "" && x.summary == "worker exited"
       case MarkSessionIdleReaped(_) => x.kind == "session_idle_reaped" && x.tool == "" && x.summary == "idle timeout"
       case RecordEvent(_, e) =>
         if e.ToolStart? || e.ToolComplete? then DescribesTool(e, x)
         else if e.SubagentStarted? || e.SubagentCompleted? || e.SubagentFailed? then DescribesSubagent(e, x)
         else DescribesSession(e, x)
  }

  ghost predicate DescribesSession(e: SessionEvent, x: Entry) {
    match e
    case SessionStart(id, _) => x.kind == "session_start" && x.tool == "" && x.summary == "session=" + id
    case SessionShutdown(why) => x.kind == "session_shutdown" && x.tool == "" && x.summary == why
    case SessionIdle => x.kind == "idle" && x.tool == "" && x.summary == ""
    case SessionError(m) => x.kind == "error" && x.tool == "" && x.summary == m
    case UserMessage(text) => x.kind == "user_message" && x.tool == "" && x.summary == "chars=" + Decimal(|text|)
    case AssistantMessage(text) =>
      text != "" && x.kind == "assistant_message" && x.tool == "" && x.summary == Preview(text, 200)
    case PermissionRequested(tool, kind) =>
      && x.kind == "permission" && x.tool == (if tool.Some? then tool.value else "")
      && x.summary == "requested kind=" + kind
    case PermissionCompleted(kind) => x.kind == "permission" && x.tool == "" && x.summary == "completed kind=" + kind
    case _ => false
  }

  /** The label of the call is told by where it stands in its run. */
  ghost predicate DescribesTool(e: SessionEvent, x: Entry) {
    match e
    case ToolStart(_, _, _, arguments) => x.kind == "tool_start" && x.summary == Preview(arguments, 80)
    case ToolComplete(_, _, success, error) =>
      && x.kind == "tool_complete"
      && x.summary == if success then "success=true"
                      else if error.None? || error.value.message == "" then "success=false"
                      else "success=false err=" + Preview(error.value.message, 200)
                           + if error.value.code.None? || error.value.code.value == "" then ""
                             else " code=" + error.value.code.value
    case _ => false
  }

  ghost predicate DescribesSubagent(e: SessionEvent, x: Entry) {
    match e
    case SubagentStarted(id, name) =>
      x.kind == "subagent_start" && x.tool == name && x.summary == "name=" + name + " parent_tool_call_id=" + id
    case SubagentCompleted(_, name, toolCalls, durationMs) =>
      && x.kind == "subagent_complete" && x.tool == name
      && x.summary == "name=" + name + " success=true"
                      + (if toolCalls.Some? then " tool_calls=" + Decimal(toolCalls.value) else "")
                      + (if durationMs.Some? then " duration_ms=" + Decimal(durationMs.value) else "")
    case SubagentFailed(_, name, why) =>
      && x.kind == "subagent_complete" && x.tool == name
      && x.summary == "name=" + name + " success=false err=" + Preview(why, 200)
    case _ => false
  }

  /** A call adds the one entry that describes it, or none. */
  ghost predicate Records(c: Call, was: seq<Entry>, now: seq<Entry>) {
    if RecordsNothing(c) then now == was
    else |now| == |was| + 1 && now[..|was|] == was && Describes(c, now[|was|])
  }

  lemma EntryDescribes(t: Tracker, c: Call)
    ensures EntryOf(t, c).None? <==> RecordsNothing(c)
    ensures EntryOf(t, c).Some? ==> Describes(c, EntryOf(t, c).value)
  {
    if c.RecordEvent? && c.e.ToolComplete? {
      CompletionSummary(c.e);
    } else if c.RecordEvent? && c.e.SubagentCompleted? {
      SubagentSummaryIs(c.e.agentName, c.e.toolCalls, c.e.durationMs);
    }
  }

  lemma NothingAdded(s: string)
    ensures s + "" == s
  {
  }

  lemma CompletionSummary(e: SessionEvent)
    requires e.ToolComplete?
    ensures CompleteSummary(e.success, e.error)
            == if e.success then "success=true"
               else if e.error.None? || e.error.value.message == "" then "success=false"
               else "success=false err=" + Preview(e.error.value.message, 200)
                    + if e.error.value.code.None? || e.error.value.code.value == "" then ""
                      else " code=" + e.error.value.code.value
  {
    if !e.success && e.error.Some? && e.error.value.message != "" {
      NothingAdded("success=false err=" + Preview(e.error.value.message, 200));
    }
  }

  lemma SubagentSummaryIs(name: string, toolCalls: Option<int>, durationMs: Option<int>)
    ensures SubagentSummary(name, toolCalls, durationMs)
            == "name=" + name + " success=true"
               + (if toolCalls.Some? then " tool_calls=" + Decimal(toolCalls.value) else "")
               + (if durationMs.Some? then " duration_ms=" + Decimal(durationMs.value) else "")
  {
    var named := "name=" + name + " success=true";
    var counted := if toolCalls.Some? then named + (" tool_calls=" + Decimal(toolCalls.value)) else named;
    NothingAdded(named);
    NothingAdded(counted);
  }

  lemma StepRecords(t: Tracker, c: Call)
    ensures Records(c, t.log, Step(t, c).log)
    ensures Takes(c, t.status, Step(t, c).status)
  {
    EntryDescribes(t, c);
    NextTakes(t.status, c, t.subagents);
  }

  // ------------------------------------------------------------------ the tracker

  class ActivityTracker {
    const ringSize: nat
    var status: Status
    var entries: seq<Entry>
    var head: nat
    var toolCallNames: map<string, string>
    var subagentNames: map<string, string>
    ghost var log: seq<Entry>

    ghost predicate Valid()
      reads this
    {
      Holds(Buffer(entries, head), ringSize, log)
    }

    ghost function View(): Tracker
      reads this
    {
      Tracker(status, toolCallNames, subagentNames, log)
    }

    /** A ring size that is not positive means 64. */
    constructor (size: int)
      ensures Valid() && View() == FRESH
      ensures ringSize == if size <= 0 then 64 else size
    {
      ringSize := if size <= 0 then 64 else size;
      status := FRESH.status;
      entries, head := [], 0;
      toolCallNames, subagentNames := map[], map[];
      log := [];
    }

    method AppendEntry(e: Entry)
      requires Valid()
      modifies `entries, `head, `log
      ensures Valid() && log == old(log) + [e]
    {
      AppendKeeps(Buffer(entries, head), ringSize, log, e);
      log := log + [e];
      if |entries| < ringSize {
        entries := entries + [e];
        return;
      }
      entries := entries[head := e];
      head := (head + 1) % ringSize;
    }

    method EntriesChronological() returns (out: seq<Entry>)
      requires Valid()
      ensures out == Last(log, ringSize)
    {
      HoldsReads(Buffer(entries, head), ringSize, log);
      if |entries| < ringSize {
        return entries;
      }
      out := entries[head..];
      out := out + entries[..head];
    }

    method Snapshot() returns (s: Status, recent: seq<Entry>)
      requires Valid()
      ensures s == status && recent == Last(log, ringSize)
    {
      s := status;
      recent := EntriesChronological();
    }

    method ToolStarted(now: int, e: SessionEvent)
      requires Valid() && e.ToolStart? && status.lastEventAt == Some(now)
      modifies this
      ensures Valid()
      ensures View() == Step(old(View()), Call.RecordEvent(now, e))
    {
      var argPreview := Preview(e.arguments, 80);
      status := status.(state := RunningTool);
      var toolLabel := e.toolName;
      if e.parent.Some? {
        if e.parent.value in subagentNames {
          toolLabel := e.toolName + ("[sub:" + subagentNames[e.parent.value] + "]");
        } else {
          toolLabel := e.toolName + ("[sub:" + "?" + "]");
        }
      }
      toolCallNames := toolCallNames[e.callID := toolLabel];
      status := status.(currentTool := toolLabel + " " + argPreview, currentToolStartedAt := Some(now));
      AppendEntry(Entry(now, "tool_start", toolLabel, argPreview));
    }

    method ToolCompleted(now: int, e: SessionEvent)
      requires Valid() && e.ToolComplete? && status.lastEventAt == Some(now)
      modifies this
      ensures Valid()
      ensures View() == Step(old(View()), Call.RecordEvent(now, e))
    {
      var toolLabel: string;
      if e.callID !in toolCallNames {
        toolLabel := FirstWord(status.currentTool);
      } else {
        toolLabel := toolCallNames[e.callID];
        toolCallNames := toolCallNames - {e.callID};
      }
      if e.parent.Some? && !Contains(toolLabel, "[sub:") {
        if e.parent.value in subagentNames {
          toolLabel := toolLabel + ("[sub:" + subagentNames[e.parent.value] + "]");
        } else {
          toolLabel := toolLabel + ("[sub:" + "?" + "]");
        }
      }
      status := status.(state := Thinking, currentTool := "", currentToolStartedAt := None);
      var summary := if e.success then "success=true" else "success=false";
      if !e.success && e.error.Some? && e.error.value.message != "" {
        var msg := Preview(e.error.value.message, 200);
        summary := "success=false err=" + msg;
        if e.error.value.code.Some? && e.error.value.code.value != "" {
          summary := summary + (" code=" + e.error.value.code.value);
        }
      }
      AppendEntry(Entry(now, "tool_complete", toolLabel, summary));
    }
  
    method SubagentDone(now: int, e: SessionEvent)
      requires Valid() && (e.SubagentCompleted? || e.SubagentFailed?) && status.lastEventAt == Some(now)
      modifies this
      ensures Valid()
      ensures View() == Step(old(View()), Call.RecordEvent(now, e))
    {
      var summary: string;
      if e.SubagentCompleted? {
        summary := "name=" + e.agentName + " success=true";
        if e.toolCalls.Some? {
          summary := summary + (" tool_calls=" + Decimal(e.toolCalls.value));
        }
        if e.durationMs.Some? {
          summary := summary + (" duration_ms=" + Decimal(e.durationMs.value));
        }
      } else {
        summary := "name=" + e.agentName + " success=false err=" + Preview(e.reason, 200);
      }
      AppendEntry(Entry(now, "subagent_complete", e.agentName, summary));
      subagentNames := subagentNames - {e.callID};
    }

    method TurnEvent(now: int, e: SessionEvent)
      requires Valid() && (e.UserMessage? || e.AssistantMessage? || e.AssistantUsage?)
      requires status.lastEventAt == Some(now)
      modifies this
      ensures Valid()
      ensures View() == Step(old(View()), Call.RecordEvent(now, e))
    {
      if e.UserMessage? {
        status := status.(turnTokensIn := 0, turnTokensOut := 0, state := Thinking);
        AppendEntry(Entry(now, "user_message", "", "chars=" + Decimal(|e.content|)));
      } else if e.AssistantMessage? {
        if |e.content| > 0 {
          status := status.(lastAssistantPreview := Preview(e.content, 200));
          AppendEntry(Entry(now, "assistant_message", "", Preview(e.content, 200)));
        }
      } else {
        if e.inputTokens.Some? {
          status := status.(turnTokensIn := e.inputTokens.value);
        }
        if e.outputTokens.Some? {
          status := status.(turnTokensOut := e.outputTokens.value);
        }
        if e.model != "" {
          status := status.(model := e.model);
        }
      }
    }

    /** The switch on the kind of event. */
    method SwitchOn(now: int, e: SessionEvent)
      requires Valid()
      modifies this
      ensures Valid()
      ensures View() == Step(old(View()), Call.RecordEvent(now, e))
    {
      status := status.(lastEventAt := Some(now));
      match e {
        case SessionStart(id, m) =>
          status := status.(sessionID := id);
          if m.Some? {
            status := status.(model := m.value);
          }
          status := status.(state := Thinking);
          AppendEntry(Entry(now, "session_start", "", "session=" + id));
        case SessionShutdown(why) =>
          status := status.(state := Disconnected);
          AppendEntry(Entry(now, "session_shutdown", "", why));
        case SessionIdle =>
          status := status.(state := Idle, currentTool := "", currentToolStartedAt := None);
          AppendEntry(Entry(now, "idle", "", ""));
        case SessionError(m) =>
          status := status.(state := ErrorState, lastError := m);
          AppendEntry(Entry(now, "error", "", m));
        case UserMessage(_) => TurnEvent(now, e);
        case AssistantMessage(_) => TurnEvent(now, e);
        case AssistantUsage(_, _, _) => TurnEvent(now, e);
        case ToolStart(_, _, _, _) => ToolStarted(now, e);
        case ToolComplete(_, _, _, _) => ToolCompleted(now, e);
        case SubagentStarted(id, name) =>
          subagentNames := subagentNames[id := name];
          AppendEntry(Entry(now, "subagent_start", name, "name=" + name + " parent_tool_call_id=" + id));
        case SubagentCompleted(_, _, _, _) => SubagentDone(now, e);
        case SubagentFailed(_, _, _) => SubagentDone(now, e);
        case PermissionRequested(tool, kind) =>
          status := status.(state := WaitingPermission);
          AppendEntry(Entry(now, "permission", if tool.Some? then tool.value else "", "requested kind=" + kind));
        case PermissionCompleted(kind) =>
          status := status.(state := Thinking);
          AppendEntry(Entry(now, "permission", "", "completed kind=" + kind));
        case Other =>
      }
    }

    /** The callback the session feeds. */
    method RecordEvent(now: int, e: SessionEvent)
      requires Valid()
      modifies this
      ensures Valid()
      ensures View() == Step(old(View()), Call.RecordEvent(now, e))
      ensures Takes(Call.RecordEvent(now, e), old(status), status)
      ensures Records(Call.RecordEvent(now, e), old(log), log)
    {
      StepRecords(View(), Call.RecordEvent(now, e));
      SwitchOn(now, e);
    }

    /** The worker goroutine has exited. The current tool stays as it was. */
    method MarkDisconnected(now: int)
      requires Valid()
      modifies this
      ensures Valid()
      ensures View() == Step(old(View()), Call.MarkDisconnected(now))
      ensures status == old(status).(state := Disconnected) && toolCallNames == map[] && subagentNames == map[]
      ensures log == old(log) + [Entry(now, "session_shutdown", "", "worker exited")]
    {
      status := status.(state := Disconnected);
      toolCallNames, subagentNames := map[], map[];
      AppendEntry(Entry(now, "session_shutdown", "", "worker exited"));
    }

    /** The idle session was disconnected; the worker stays. */
    method MarkSessionIdleReaped(now: int)
      requires Valid()
      modifies this
      ensures Valid()
      ensures View() == Step(old(View()), Call.MarkSessionIdleReaped(now))
      ensures status == old(status).(state := Disconnected, currentTool := "", currentToolStartedAt := None)
      ensures toolCallNames == map[] && subagentNames == map[]
      ensures log == old(log) + [Entry(now, "session_idle_reaped", "", "idle timeout")]
    {
      status := status.(state := Disconnected);
      status := status.(currentTool := "", currentToolStartedAt := None);
      toolCallNames, subagentNames := map[], map[];
      AppendEntry(Entry(now, "session_idle_reaped", "", "idle timeout"));
    }
  }
}
