/**
 * `ExecuteTask` after the model has answered: run each requested tool call in order and log
 * it, or, when the reply carried no tool call, interpret its text, auto-execute an allowlisted
 * command through `run_commands`, or only show what was suggested.
 */
module Task {
  import opened Wrappers
  import opened Text
  import opened Json
  import opened Chat
  import opened Safety
  import opened Interpreter
  import opened Tools
  import opened Logger

  /**
   * What the task manager works with: the JSON codecs, the process runner, and its settings.
   * `decode`/`encode` handle tool arguments, `readEntry`/`writeEntry` handle log lines.
   */
  datatype Env = Env(
    decode: Decoder,
    encode: Encoder,
    readEntry: EntryDecoder,
    writeEntry: EntryEncoder,
    spawn: Spawner,
    model: string,
    toolsEnabled: bool)

  /** Where `ExecuteTask` ends. */
  datatype Outcome =
    | ModelFailed(error: string)
    | RanTools(results: seq<TaskResponse>)
    | AutoExecuted(command: string, arguments: string, response: TaskResponse)
    | Suggested(command: string)
    | SuggestedFromJson(command: string)
    | ShownAsJson
    | ShownAsText
    | NoToolUsage

  /** Lines 391-407 and 449-465: the entry logged for one executed call. */
  function NewLogEntry(env: Env, timestamp: string, toolName: string, arguments: string, r: TaskResponse, rating: int): (e: LogEntry)
    ensures e.timestamp == timestamp && e.model == env.model && e.toolsEnabled == env.toolsEnabled && e.rating == rating
    ensures e.toolName == toolName && e.arguments == arguments
    ensures e.status == r.status && e.message == r.message && e.output == r.output
    ensures r.status == "error" ==> e.errorDetails == r.message
    ensures r.status != "error" ==> e.errorDetails == ""
  {
    LogEntry(timestamp, env.model, toolName, arguments, r.status, r.message, r.output, ErrorDetails(r), env.toolsEnabled, rating)
  }

  /** The entry for the `i`-th call; `clock(i)` and `keyboard(i)` are the time and the rating line read then. */
  function ToolEntry(env: Env, call: ToolCall, i: nat, clock: nat -> string, keyboard: nat -> string): LogEntry {
    NewLogEntry(env, clock(i), call.name, call.arguments, ExecuteTool(env.decode, env.spawn, call), ParseRating(keyboard(i)))
  }

  /** The entries the tool loop logs, one per call, in order. */
  function ToolEntries(env: Env, calls: seq<ToolCall>, clock: nat -> string, keyboard: nat -> string): (entries: seq<LogEntry>)
    ensures |entries| == |calls|
  {
    if |calls| == 0 then []
    else ToolEntries(env, calls[..|calls| - 1], clock, keyboard) + [ToolEntry(env, calls[|calls| - 1], |calls| - 1, clock, keyboard)]
  }

  /** The responses of the tool loop, one per call, in order. */
  function ToolResults(env: Env, calls: seq<ToolCall>): (results: seq<TaskResponse>)
    ensures |results| == |calls|
  {
    if |calls| == 0 then []
    else ToolResults(env, calls[..|calls| - 1]) + [ExecuteTool(env.decode, env.spawn, calls[|calls| - 1])]
  }

  /** The `i`-th response is the dispatch of the `i`-th call, and the `i`-th entry records it. */
  lemma {:induction false} ToolLoopPointwise(env: Env, calls: seq<ToolCall>, clock: nat -> string, keyboard: nat -> string, i: int)
    requires 0 <= i < |calls|
    ensures ToolResults(env, calls)[i] == ExecuteTool(env.decode, env.spawn, calls[i])
    ensures ToolEntries(env, calls, clock, keyboard)[i] == ToolEntry(env, calls[i], i, clock, keyboard)
  {
    var init := calls[..|calls| - 1];
    if i < |calls| - 1 {
      ToolLoopPointwise(env, init, clock, keyboard, i);
      assert init[i] == calls[i];
    }
  }

  /** The object `{"command": command}`. */
  function CommandObject(command: string): JsonValue {
    JObj(map["command" := JStr(command)])
  }

  /** The argument codecs read back every command object they print. */
  ghost predicate CommandObjectsRoundTrip(env: Env) {
    forall c :: env.decode(env.encode(CommandObject(c))) == Success(CommandObject(c))
  }

  /**
   * The arguments built for an auto-executed command, `json.Marshal` of `{"command": command}`:
   * they bind to that command and no timeout.
   */
  function CommandArguments(env: Env, command: string): (arguments: string)
    ensures CommandObjectsRoundTrip(env) ==> BindRunParams(env.decode, arguments) == Success(RunParams(command, None))
  {
    env.encode(CommandObject(command))
  }

  /** Lines 415-491: what the text of a reply without tool calls leads to. */
  function ContentOutcome(env: Env, content: string): (o: Outcome)
    ensures o.AutoExecuted? <==> ParseCommand(env.decode, content).1 && ParseCommand(env.decode, content).0 != ""
    ensures o.AutoExecuted? ==>
      && o.command == ParseCommand(env.decode, content).0
      && AutoExecutable(o.command)
      && o.arguments == CommandArguments(env, o.command)
      && o.response == ExecuteRunCommands(env.decode, env.spawn, o.arguments)
    ensures o.Suggested? <==> !ParseCommand(env.decode, content).1 && ParseCommand(env.decode, content).0 != ""
    ensures o.Suggested? ==> o.command == ParseCommand(env.decode, content).0
    ensures o.NoToolUsage? <==> content == ""
  {
    var (command, auto) := ParseCommand(env.decode, content);
    if auto && command != "" then
      var arguments := CommandArguments(env, command);
      AutoExecuted(command, arguments, ExecuteRunCommands(env.decode, env.spawn, arguments))
    else if command != "" then Suggested(command)
    else if content != "" then
      match AsObject(env.decode(content))
      case Some(m) =>
        if StringMember(m, "command").Some? && StringMember(m, "command").value != "" then
          SuggestedFromJson(StringMember(m, "command").value)
        else ShownAsJson
      case None => ShownAsText
    else NoToolUsage
  }

  /** One `logToolCall`: the file afterwards holds the rotated entries with `entry` last. */
  method LogOne(env: Env, log: Option<string>, entry: LogEntry) returns (log': Option<string>)
    ensures log'.Some?
    ensures Lossless(env.readEntry, env.writeEntry) ==>
      ReadLog(env.readEntry, log') == Rotate(ReadLog(env.readEntry, log) + [entry])
  {
    var content, kept := LogToolCall(env.readEntry, env.writeEntry, log, entry);
    if Lossless(env.readEntry, env.writeEntry) {
      ReadBackAfterWrite(env.readEntry, env.writeEntry, kept);
    }
    log' := Some(content);
  }

  lemma TailGrows(history: seq<LogEntry>, prefix: seq<LogEntry>, entry: LogEntry, current: seq<LogEntry>)
    requires current == history + prefix || (|prefix| > 0 && current == Rotate(history + prefix))
    requires |prefix| > 0 || current == history
    ensures Rotate(current + [entry]) == Rotate(history + (prefix + [entry]))
  {
    assert history + (prefix + [entry]) == history + prefix + [entry];
    if |prefix| > 0 && current == Rotate(history + prefix) {
      RotateAbsorbs(history + prefix, [entry]);
    }
  }

  /** Lines 359-409: every call is executed and logged in turn; `log` is the log file, if it can be read. */
  method ExecuteToolCalls(env: Env, calls: seq<ToolCall>, log: Option<string>, clock: nat -> string, keyboard: nat -> string)
    returns (results: seq<TaskResponse>, log': Option<string>)
    ensures results == ToolResults(env, calls)
    ensures |calls| == 0 ==> log' == log
    ensures |calls| > 0 && Lossless(env.readEntry, env.writeEntry) ==>
      ReadLog(env.readEntry, log') == Rotate(ReadLog(env.readEntry, log) + ToolEntries(env, calls, clock, keyboard))
  {
    results := [];
    log' := log;
    ghost var history := ReadLog(env.readEntry, log);
    ghost var lossless := Lossless(env.readEntry, env.writeEntry);
    for i := 0 to |calls|
      invariant results == ToolResults(env, calls[..i])
      invariant i == 0 ==> log' == log
      invariant i > 0 && lossless ==>
        ReadLog(env.readEntry, log') == Rotate(history + ToolEntries(env, calls[..i], clock, keyboard))
    {
      assert calls[..i + 1][..i] == calls[..i];
      var result := ExecuteTool(env.decode, env.spawn, calls[i]);
      var rating := ParseRating(keyboard(i));
      var entry := NewLogEntry(env, clock(i), calls[i].name, calls[i].arguments, result, rating);
      ghost var current := ReadLog(env.readEntry, log');
      log' := LogOne(env, log', entry);
      if lossless {
        TailGrows(history, ToolEntries(env, calls[..i], clock, keyboard), entry, current);
      }
      results := results + [result];
    }
    assert calls[..|calls|] == calls;
  }

  /**
   * `ExecuteTask` from the model's reply on: `reply` is the chat call's choices or its error.
   * The returned `log'` is the log file after the run.
   */
  method ExecuteTask(env: Env, reply: Result<seq<Message>, string>, log: Option<string>, clock: nat -> string, keyboard: nat -> string)
    returns (outcome: Outcome, log': Option<string>)
    ensures reply.Failure? ==> outcome == ModelFailed("failed to get response from model: " + reply.error) && log' == log
    ensures reply == Success([]) ==> outcome == ModelFailed("no response from model") && log' == log
    ensures reply.Success? && |reply.value| > 0 && |reply.value[0].toolCalls| > 0 ==>
      var calls := reply.value[0].toolCalls;
      && outcome.RanTools?
      && outcome.results == ToolResults(env, calls)
      && (Lossless(env.readEntry, env.writeEntry) ==>
            ReadLog(env.readEntry, log') == Rotate(ReadLog(env.readEntry, log) + ToolEntries(env, calls, clock, keyboard)))
    ensures reply.Success? && |reply.value| > 0 && |reply.value[0].toolCalls| == 0 ==>
      && outcome == ContentOutcome(env, reply.value[0].content)
      && (!outcome.AutoExecuted? ==> log' == log)
      && (outcome.AutoExecuted? && Lossless(env.readEntry, env.writeEntry) ==>
            var entry := NewLogEntry(env, clock(0), "run_commands", outcome.arguments, outcome.response, ParseRating(keyboard(0)));
            ReadLog(env.readEntry, log') == Rotate(ReadLog(env.readEntry, log) + [entry]))
  {
    if reply.Failure? {
      return ModelFailed("failed to get response from model: " + reply.error), log;
    }
    if |reply.value| == 0 {
      return ModelFailed("no response from model"), log;
    }
    var message := reply.value[0];
    if |message.toolCalls| > 0 {
      var results;
      results, log' := ExecuteToolCalls(env, message.toolCalls, log, clock, keyboard);
      return RanTools(results), log';
    }
    var command, shouldExecute := ParseCommandFromResponse(env.decode, message.content);
    if shouldExecute && command != "" {
      var arguments := CommandArguments(env, command);
      var result := ExecuteRunCommands(env.decode, env.spawn, arguments);
      var rating := ParseRating(keyboard(0));
      var entry := NewLogEntry(env, clock(0), "run_commands", arguments, result, rating);
      log' := LogOne(env, log, entry);
      return AutoExecuted(command, arguments, result), log';
    }
    outcome := ContentOutcome(env, message.content);
    log' := log;
  }

  /** An auto-executed command still passes the safety gate: a dangerous one is denied and never run. */
  lemma AutoExecutionStillGated(env: Env, content: string)
    requires CommandObjectsRoundTrip(env)
    requires ContentOutcome(env, content).AutoExecuted?
    requires IsDangerous(ContentOutcome(env, content).command)
    ensures ContentOutcome(env, content).response == TaskResponse("denied", "Command was denied for safety reasons", "")
  {
  }

  /** An auto-executed command that the gate passes is run with the default 30-second timeout. */
  lemma AutoExecutionUsesDefaultTimeout(env: Env, content: string)
    requires CommandObjectsRoundTrip(env)
    requires ContentOutcome(env, content).AutoExecuted?
    requires !IsDangerous(ContentOutcome(env, content).command)
    ensures var o := ContentOutcome(env, content);
      o.response == ProcessResponse(env.spawn(o.command, DefaultTimeoutSeconds))
  {
  }

  /** The allowlisted prefix `cat ` does not get `cat /etc/passwd; rm -rf /` past the denylist. */
  lemma ChainedRemoveAfterCatIsDenied()
    ensures AutoExecutable("cat /etc/passwd; rm -rf /")
    ensures IsDangerous("cat /etc/passwd; rm -rf /")
  {
    var c := "cat /etc/passwd; rm -rf /";
    TrimSpaceKeepsTrimmed(c);
    assert ToLower(c) == c;
    assert HasPrefix(c, ReadOnlyPrefixes[0]);
    assert OccursAt(c, DangerousPatterns[0], 17);
  }

  /** Every logged tool entry has a rating in 0..5 and error details exactly when its status is "error". */
  lemma LoggedEntriesAreConsistent(env: Env, calls: seq<ToolCall>, clock: nat -> string, keyboard: nat -> string, i: int)
    requires 0 <= i < |calls|
    ensures var e := ToolEntries(env, calls, clock, keyboard)[i];
      && 0 <= e.rating <= 5
      && e.toolName == calls[i].name && e.arguments == calls[i].arguments
      && (e.errorDetails != "" <==> e.status == "error")
      && (e.status == "success" || e.status == "error" || e.status == "denied")
  {
    ToolLoopPointwise(env, calls, clock, keyboard, i);
    ToolResponsesAreWellFormed(env.decode, env.spawn, calls[i]);
  }
}
