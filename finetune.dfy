/**
 * The log converter `convert_logs_for_finetuning.go`: reads tool-call log lines, filters them
 * by rating, and turns each into a fine-tuning example of role-tagged chat messages, either
 * from the recorded user query and model response or, for entries that lack them,
 * reconstructed from the tool call alone.
 */
module FineTune {
  import opened Wrappers
  import opened Text
  import opened Json
  import opened Chat

  const DefaultMinRating: int := 3

  /** A log line as the converter reads it; `userQuery` and `modelResponse` are absent in older logs. */
  datatype LogRecord = LogRecord(
    timestamp: string,
    model: string,
    userQuery: string,
    modelResponse: string,
    toolName: string,
    arguments: string,
    status: string,
    message: string,
    output: string,
    errorDetails: string,
    toolsEnabled: bool,
    rating: int)

  /** A fine-tuning example: the message list written as one JSON line. */
  datatype Example = Example(messages: seq<Message>)

  /**
   * The converter's uses of `encoding/json`: a log line to a record, `model_response` to a
   * message (`ModelResponse` and `Message` have the same fields and tags, so one decoder serves
   * both), tool arguments to a value, and an example to its JSON text.
   */
  datatype Codecs = Codecs(
    record: string -> Option<LogRecord>,
    response: string -> Result<Message, string>,
    arguments: Decoder,
    example: Example -> Option<string>)

  /** Lines 118-121: a rated entry below the minimum is dropped; unrated entries (0) always pass. */
  function PassesRatingFilter(rating: int, minRating: int): (passes: bool)
    ensures passes <==> rating <= 0 || rating >= minRating
  {
    !(rating > 0 && rating < minRating)
  }

  /** Unrated entries pass every filter, and raising the minimum never lets more entries through. */
  lemma RatingFilterMonotone(rating: int, lower: int, higher: int)
    requires lower <= higher
    ensures PassesRatingFilter(0, higher)
    ensures PassesRatingFilter(rating, higher) ==> PassesRatingFilter(rating, lower)
  {
  }

  /** With the default minimum, ratings 1 and 2 are dropped and 0, 3, 4 and 5 kept. */
  lemma DefaultFilterKeeps(rating: int)
    requires 0 <= rating <= 5
    ensures PassesRatingFilter(rating, DefaultMinRating) <==> rating != 1 && rating != 2
  {
  }

  predicate HasToolResult(r: LogRecord) {
    r.status == "success" && r.output != ""
  }

  /** Lines 223-227 and 266-270: the tool message that reports a successful call's output. */
  function ToolResultMessage(r: LogRecord): Message {
    Message("tool", "Tool execution result:\nStatus: " + r.status + "\nOutput: " + r.output, [])
  }

  /** Lines 210-216 and 255-260: the tool call rebuilt from the log entry. */
  function ReconstructedCall(r: LogRecord): ToolCall {
    ToolCall("call_1", "function", r.toolName, r.arguments)
  }

  /** The message list with the tool result appended when there is one. */
  function WithToolResult(r: LogRecord, messages: seq<Message>): (all: seq<Message>)
    ensures HasToolResult(r) ==> all == messages + [ToolResultMessage(r)]
    ensures !HasToolResult(r) ==> all == messages
  {
    if HasToolResult(r) then messages + [ToolResultMessage(r)] else messages
  }

  /** Lines 179-189: `model_response` parsed as a `ModelResponse`, then as a `Message`, error from the first attempt. */
  function ParseModelResponse(c: Codecs, text: string): (r: Result<Message, string>)
    ensures r.Failure? <==> c.response(text).Failure?
    ensures r.Success? ==> r.value == c.response(text).value
    ensures r.Failure? ==> r.error == "failed to parse model_response: " + c.response(text).error
  {
    match c.response(text)
    case Success(m) => Success(m)
    case Failure(err) =>
      match c.response(text)
      case Success(msg) => Success(Message(msg.role, msg.content, msg.toolCalls))
      case Failure(_) => Failure("failed to parse model_response: " + err)
  }

  /** Lines 192-232: the example built from a parsed response. */
  function ExampleFromResponse(r: LogRecord, resp: Message): (e: Example)
    ensures 2 <= |e.messages| <= 3
    ensures |e.messages| == 3 <==> HasToolResult(r)
    ensures e.messages[0] == Message("user", r.userQuery, [])
    ensures e.messages[1].role == "assistant" && e.messages[1].content == resp.content
    ensures |resp.toolCalls| > 0 ==> e.messages[1].toolCalls == resp.toolCalls
    ensures |resp.toolCalls| == 0 ==> e.messages[1].toolCalls == [ReconstructedCall(r)]
    ensures HasToolResult(r) ==> e.messages[2] == ToolResultMessage(r)
  {
    var calls := if |resp.toolCalls| > 0 then resp.toolCalls else [ReconstructedCall(r)];
    Example(WithToolResult(r, [Message("user", r.userQuery, []), Message("assistant", resp.content, calls)]))
  }

  /** `createFineTuningExample` as written (lines 172-233). */
  function CreateFineTuningExample(c: Codecs, r: LogRecord): (e: Result<Example, string>)
    ensures e.Failure? <==> r.userQuery == "" || r.modelResponse == "" || c.response(r.modelResponse).Failure?
    ensures r.userQuery == "" || r.modelResponse == "" ==> e == Failure("missing user_query or model_response")
    ensures e.Success? ==> e.value == ExampleFromResponse(r, c.response(r.modelResponse).value)
  {
    if r.userQuery == "" || r.modelResponse == "" then Failure("missing user_query or model_response")
    else
      var resp :- ParseModelResponse(c, r.modelResponse);
      Success(ExampleFromResponse(r, resp))
  }

  /**
   * `createFineTuningExample` as its caller expects it (lines 131-145): an entry without
   * `user_query` or `model_response` is an old-format entry, reported as no example and no error.
   */
  function CreateFineTuningExampleIntended(c: Codecs, r: LogRecord): (e: Result<Option<Example>, string>)
    ensures e == Success(None) <==> r.userQuery == "" || r.modelResponse == ""
    ensures r.userQuery != "" && r.modelResponse != "" ==>
      match CreateFineTuningExample(c, r)
      case Success(ex) => e == Success(Some(ex))
      case Failure(err) => e == Failure(err)
  {
    if r.userQuery == "" || r.modelResponse == "" then Success(None)
    else
      var ex :- CreateFineTuningExample(c, r);
      Success(Some(ex))
  }

  /** The members of the tool arguments; unparsable arguments leave the map empty (lines 280-281). */
  function ArgumentMembers(c: Codecs, arguments: string): map<string, JsonValue> {
    match AsObject(c.arguments(arguments))
    case Some(m) => m
    case None => map[]
  }

  /** The phrase `reconstructUserQuery` uses for a command, by the first prefix that matches. */
  function CommandQuery(cmd: string): string {
    if HasPrefix(cmd, "who") || HasPrefix(cmd, "w ") then "Check current users"
    else if HasPrefix(cmd, "pwd") then "What's the current directory?"
    else if HasPrefix(cmd, "ls") then "List files in current directory"
    else if HasPrefix(cmd, "ps") then "Show running processes"
    else "Execute: " + cmd
  }

  /** `reconstructUserQuery` (lines 278-310): a best guess at the question behind a tool call. */
  function ReconstructUserQuery(c: Codecs, r: LogRecord): (q: string)
    ensures q != ""
    ensures r.toolName != "run_commands" && r.toolName != "edit_files" ==> q == "Use tool: " + r.toolName
  {
    var args := ArgumentMembers(c, r.arguments);
    if r.toolName == "run_commands" then
      match StringMember(args, "command")
      case Some(cmd) => CommandQuery(cmd)
      case None => "Execute a command"
    else if r.toolName == "edit_files" then
      match StringMember(args, "path")
      case Some(path) => "Edit file: " + path
      case None => "Edit a file"
    else "Use tool: " + r.toolName
  }

  /** The prefixes are tried in order, and a command is quoted back only when none matches. */
  lemma CommandQueryQuotesOnlyUnknown(cmd: string)
    ensures CommandQuery(cmd) == "Execute: " + cmd <==>
      !HasPrefix(cmd, "who") && !HasPrefix(cmd, "w ") && !HasPrefix(cmd, "pwd") && !HasPrefix(cmd, "ls") && !HasPrefix(cmd, "ps")
    ensures HasPrefix(cmd, "who") ==> CommandQuery(cmd) == "Check current users"
    ensures HasPrefix(cmd, "w ") ==> CommandQuery(cmd) == "Check current users"
    ensures HasPrefix(cmd, "pwd") ==> CommandQuery(cmd) == "What's the current directory?"
    ensures HasPrefix(cmd, "ls") ==> CommandQuery(cmd) == "List files in current directory"
    ensures HasPrefix(cmd, "ps") ==> CommandQuery(cmd) == "Show running processes"
  {
    if HasPrefix(cmd, "w ") {
      assert cmd[1] == "w "[1];
      PrefixMismatch(cmd, "who", 1);
    }
    if HasPrefix(cmd, "pwd") {
      assert cmd[0] == "pwd"[0];
      PrefixMismatch(cmd, "who", 0);
      PrefixMismatch(cmd, "w ", 0);
    }
    if HasPrefix(cmd, "ls") {
      assert cmd[0] == "ls"[0];
      PrefixMismatch(cmd, "who", 0);
      PrefixMismatch(cmd, "w ", 0);
      PrefixMismatch(cmd, "pwd", 0);
    }
    if HasPrefix(cmd, "ps") {
      assert cmd[0] == "ps"[0] && cmd[1] == "ps"[1];
      PrefixMismatch(cmd, "who", 0);
      PrefixMismatch(cmd, "w ", 0);
      PrefixMismatch(cmd, "pwd", 1);
      PrefixMismatch(cmd, "ls", 0);
    }
    if CommandQuery(cmd) == "Execute: " + cmd {
      var q := "Execute: " + cmd;
      assert q[0] == 'E';
    }
  }

  /** Prefix matching is literal: `whoami` counts as `who`, `lsblk` as `ls`, and a bare `w` as nothing. */
  lemma CommandQueryQuirks()
    ensures CommandQuery("whoami") == "Check current users"
    ensures CommandQuery("lsblk") == "List files in current directory"
    ensures CommandQuery("w") == "Execute: w"
    ensures CommandQuery("psql -l") == "Show running processes"
  {
    assert HasPrefix("whoami", "who");
    PrefixMismatch("lsblk", "who", 0);
    PrefixMismatch("lsblk", "w ", 0);
    PrefixMismatch("lsblk", "pwd", 0);
    assert HasPrefix("lsblk", "ls");
    PrefixMismatch("psql -l", "who", 0);
    PrefixMismatch("psql -l", "w ", 0);
    PrefixMismatch("psql -l", "pwd", 1);
    PrefixMismatch("psql -l", "ls", 0);
    assert HasPrefix("psql -l", "ps");
  }

  lemma PrefixMismatch(s: string, p: string, k: int)
    requires 0 <= k < |p| && k < |s| && s[k] != p[k]
    ensures !HasPrefix(s, p)
  {
  }

  /** A `run_commands` call whose arguments hold a string command is described by that command alone, whatever else they hold. */
  lemma RunCommandsQueryFromCommand(c: Codecs, r: LogRecord, m: map<string, JsonValue>, cmd: string)
    requires r.toolName == "run_commands"
    requires c.arguments(r.arguments) == Success(JObj(m)) && "command" in m && m["command"] == JStr(cmd)
    ensures ReconstructUserQuery(c, r) == CommandQuery(cmd)
  {
  }

  /**
   * A `run_commands` call without a string command (arguments that do not parse, are not an
   * object, or lack one) is described generically.
   */
  lemma RunCommandsQueryWithoutCommand(c: Codecs, r: LogRecord)
    requires r.toolName == "run_commands"
    requires c.arguments(r.arguments).Success? && c.arguments(r.arguments).value.JObj? ==>
      var m := c.arguments(r.arguments).value.fields; !("command" in m && m["command"].JStr?)
    ensures ReconstructUserQuery(c, r) == "Execute a command"
  {
  }

  /** An `edit_files` call whose arguments hold a string path is described by that path. */
  lemma EditFilesQueryFromPath(c: Codecs, r: LogRecord, m: map<string, JsonValue>, path: string)
    requires r.toolName == "edit_files"
    requires c.arguments(r.arguments) == Success(JObj(m)) && "path" in m && m["path"] == JStr(path)
    ensures ReconstructUserQuery(c, r) == "Edit file: " + path
  {
  }

  /** An `edit_files` call without a string path is described generically. */
  lemma EditFilesQueryWithoutPath(c: Codecs, r: LogRecord)
    requires r.toolName == "edit_files"
    requires c.arguments(r.arguments).Success? && c.arguments(r.arguments).value.JObj? ==>
      var m := c.arguments(r.arguments).value.fields; !("path" in m && m["path"].JStr?)
    ensures ReconstructUserQuery(c, r) == "Edit a file"
  {
  }

  /** Text ends with `tail`. */
  predicate EndsWith(s: string, tail: string) {
    |tail| <= |s| && s[|s| - |tail|..] == tail
  }

  lemma HeadAndTail(head: string, middle: string, tail: string)
    ensures HasPrefix(head + middle + tail, head) && EndsWith(head + middle + tail, tail)
  {
    assert (head + middle + tail)[..|head|] == head;
    assert (head + middle + tail)[|head + middle|..] == tail;
  }

  /** The opening sentence of every reconstructed assistant reply. */
  function ResponseHeader(r: LogRecord): string {
    "I'll help you with that. Let me use the " + r.toolName + " tool."
  }

  /** The tool call spelled out as JSON, with the name and arguments pasted in verbatim. */
  function ToolCallText(r: LogRecord): string {
    "{\"id\": \"call_1\", \"type\": \"function\", \"function\": {\"name\": \"" + r.toolName + "\", \"arguments\": " + r.arguments + "}}"
  }

  /** `createAssistantResponse` (lines 312-330) with the line separator `nl` as the formats produce it. */
  function AssistantResponse(r: LogRecord, nl: string): (text: string)
    ensures HasPrefix(text, ResponseHeader(r))
    ensures HasToolResult(r) ==> EndsWith(text, nl + nl + "Tool execution completed successfully:" + nl + r.output)
    ensures !HasToolResult(r) && r.status == "error" ==> EndsWith(text, nl + nl + "Tool execution failed: " + r.message)
    ensures !HasToolResult(r) && r.status != "error" ==> EndsWith(text, nl + "</tool_call>")
  {
    var response := ResponseHeader(r) + (nl + nl + "<tool_call>" + nl + ToolCallText(r) + nl + "</tool_call>");
    var tail :=
      if HasToolResult(r) then nl + nl + "Tool execution completed successfully:" + nl + r.output
      else if r.status == "error" then nl + nl + "Tool execution failed: " + r.message
      else "";
    HeadAndTail(ResponseHeader(r), response[|ResponseHeader(r)|..], tail);
    response + tail
  }

  /** As written, the formats are raw strings, so each separator is a backslash and an `n`. */
  function CreateAssistantResponse(r: LogRecord): (text: string)
    ensures HasPrefix(text, ResponseHeader(r))
    ensures HasToolResult(r) ==> EndsWith(text, "\\n" + "\\n" + "Tool execution completed successfully:" + "\\n" + r.output)
    ensures !HasToolResult(r) && r.status == "error" ==> EndsWith(text, "\\n" + "\\n" + "Tool execution failed: " + r.message)
    ensures !HasToolResult(r) && r.status != "error" ==> EndsWith(text, "\\n" + "</tool_call>")
  {
    AssistantResponse(r, "\\n")
  }

  /** With real line breaks, as the surrounding formats evidently intend. */
  function CreateAssistantResponseIntended(r: LogRecord): (text: string)
    ensures HasPrefix(text, ResponseHeader(r))
    ensures HasToolResult(r) ==> EndsWith(text, "\n" + "\n" + "Tool execution completed successfully:" + "\n" + r.output)
    ensures !HasToolResult(r) && r.status == "error" ==> EndsWith(text, "\n" + "\n" + "Tool execution failed: " + r.message)
    ensures !HasToolResult(r) && r.status != "error" ==> EndsWith(text, "\n" + "</tool_call>")
  {
    AssistantResponse(r, "\n")
  }

  /** As written, the header is followed by a backslash and an `n`, not by a line break. */
  lemma AssistantResponseAsWrittenKeepsBackslashes(r: LogRecord)
    ensures var text := CreateAssistantResponse(r); var h := |ResponseHeader(r)|;
      |text| > h + 1 && text[h] == '\\' && text[h + 1] == 'n' && text[h] != '\n'
  {
    var h := ResponseHeader(r);
    var text := CreateAssistantResponse(r);
    HeaderThenSeparator(r, "\\n");
    assert text[|h|] == (h + "\\n")[|h|] && text[|h| + 1] == (h + "\\n")[|h| + 1];
  }

  /** For any separator, the header is followed directly by the separator. */
  lemma HeaderThenSeparator(r: LogRecord, nl: string)
    ensures HasPrefix(AssistantResponse(r, nl), ResponseHeader(r) + nl)
  {
    var h := ResponseHeader(r);
    var rest := nl + nl + "<tool_call>" + nl + ToolCallText(r) + nl + "</tool_call>";
    assert AssistantResponse(r, nl)[..|h| + |nl|] == (h + rest)[..|h| + |nl|];
  }

  /** The intended reply puts the tool call on a line of its own right after the header. */
  lemma AssistantResponseIntendedBreaksLines(r: LogRecord)
    ensures HasPrefix(CreateAssistantResponseIntended(r), ResponseHeader(r) + "\n\n<tool_call>\n")
  {
    var h := ResponseHeader(r);
    var text := CreateAssistantResponseIntended(r);
    var rest := "\n" + "\n" + "<tool_call>" + "\n" + ToolCallText(r) + "\n" + "</tool_call>";
    assert text[..|h| + |"\n\n<tool_call>\n"|] == (h + rest)[..|h| + |"\n\n<tool_call>\n"|];
  }

  /** `reconstructExample` (lines 235-276), with the intended assistant reply. */
  function ReconstructExample(c: Codecs, r: LogRecord): (e: Example)
    ensures 2 <= |e.messages| <= 3
    ensures |e.messages| == 3 <==> HasToolResult(r)
    ensures e.messages[0] == Message("user", ReconstructUserQuery(c, r), [])
    ensures e.messages[1] == Message("assistant", CreateAssistantResponseIntended(r), [ReconstructedCall(r)])
    ensures HasToolResult(r) ==> e.messages[2] == ToolResultMessage(r)
  {
    var pair := [Message("user", ReconstructUserQuery(c, r), []),
                 Message("assistant", CreateAssistantResponseIntended(r), [ReconstructedCall(r)])];
    Example(WithToolResult(r, pair))
  }

  /** What one line of the log contributes. */
  datatype LineOutcome = Blank | Skipped(oldFormat: bool) | Converted(json: string, oldFormat: bool)

  /** The example the loop body writes for a record that passed the filter, with its old-format flag. */
  function ExampleOf(c: Codecs, r: LogRecord): (o: Option<(Example, bool)>)
    ensures r.userQuery == "" ==> o == Some((ReconstructExample(c, r), true))
    ensures r.userQuery != "" && r.modelResponse == "" ==> o == None
    ensures r.userQuery != "" && r.modelResponse != "" ==>
      && (o.Some? <==> CreateFineTuningExample(c, r).Success?)
      && (o.Some? ==> o.value == (CreateFineTuningExample(c, r).value, false))
  {
    match CreateFineTuningExampleIntended(c, r)
    case Failure(_) => None
    case Success(Some(ex)) => Some((ex, false))
    case Success(None) => if r.userQuery == "" then Some((ReconstructExample(c, r), true)) else None
  }

  /** Lines 104-156 for one line, with the intended `createFineTuningExample`. */
  function ProcessLine(c: Codecs, minRating: int, raw: string): (o: LineOutcome)
    ensures o.Blank? <==> TrimSpace(raw) == ""
  {
    var line := TrimSpace(raw);
    if line == "" then Blank
    else match c.record(line)
      case None => Skipped(false)
      case Some(r) =>
        if !PassesRatingFilter(r.rating, minRating) then Skipped(false)
        else match ExampleOf(c, r)
          case None => Skipped(r.userQuery == "" || r.modelResponse == "")
          case Some((ex, legacy)) =>
            match c.example(ex)
            case None => Skipped(legacy)
            case Some(json) => Converted(json, legacy)
  }

  /** Lines 104-156 for one line, with `createFineTuningExample` as written. */
  function ProcessLineAsWritten(c: Codecs, minRating: int, raw: string): (o: LineOutcome)
    ensures o.Blank? <==> TrimSpace(raw) == ""
  {
    var line := TrimSpace(raw);
    if line == "" then Blank
    else match c.record(line)
      case None => Skipped(false)
      case Some(r) =>
        if !PassesRatingFilter(r.rating, minRating) then Skipped(false)
        else match CreateFineTuningExample(c, r)
          case Failure(_) => Skipped(false)
          case Success(ex) =>
            match c.example(ex)
            case None => Skipped(false)
            case Some(json) => Converted(json, false)
  }

  /** As written, no line is ever counted as old format: the error comes before the nil check. */
  lemma AsWrittenNeverReachesOldFormat(c: Codecs, minRating: int, raw: string)
    ensures var o := ProcessLineAsWritten(c, minRating, raw);
      !o.Blank? ==> !o.oldFormat
  {
  }

  /** As written, an entry without `user_query` is skipped; as intended it is reconstructed and written out. */
  lemma OldFormatEntryHandling(c: Codecs, minRating: int, raw: string, r: LogRecord, json: string)
    requires TrimSpace(raw) != "" && c.record(TrimSpace(raw)) == Some(r)
    requires r.userQuery == "" && PassesRatingFilter(r.rating, minRating)
    requires c.example(ReconstructExample(c, r)) == Some(json)
    ensures ProcessLineAsWritten(c, minRating, raw) == Skipped(false)
    ensures ProcessLine(c, minRating, raw) == Converted(json, true)
  {
  }

  /** Lines 118-121: a parsed record rated below the minimum is skipped by both versions. */
  lemma FilteredLineIsSkipped(c: Codecs, minRating: int, raw: string, r: LogRecord)
    requires TrimSpace(raw) != "" && c.record(TrimSpace(raw)) == Some(r)
    requires 0 < r.rating < minRating
    ensures ProcessLine(c, minRating, raw) == Skipped(false)
    ensures ProcessLineAsWritten(c, minRating, raw) == Skipped(false)
  {
  }

  /** Lines 111-116: a non-blank line that does not parse as a record is skipped by both versions. */
  lemma UnparsableLineIsSkipped(c: Codecs, minRating: int, raw: string)
    requires TrimSpace(raw) != "" && c.record(TrimSpace(raw)).None?
    ensures ProcessLine(c, minRating, raw) == Skipped(false)
    ensures ProcessLineAsWritten(c, minRating, raw) == Skipped(false)
  {
  }

  /** A converted line parsed, passed the filter, and its text is the encoding of the record's example. */
  lemma ConvertedLinePassedFilter(c: Codecs, minRating: int, raw: string)
    ensures ProcessLine(c, minRating, raw).Converted? ==>
      && c.record(TrimSpace(raw)).Some?
      && PassesRatingFilter(c.record(TrimSpace(raw)).value.rating, minRating)
      && ExampleOf(c, c.record(TrimSpace(raw)).value).Some?
      && c.example(ExampleOf(c, c.record(TrimSpace(raw)).value).value.0) == Some(ProcessLine(c, minRating, raw).json)
    ensures ProcessLineAsWritten(c, minRating, raw).Converted? ==>
      && c.record(TrimSpace(raw)).Some?
      && PassesRatingFilter(c.record(TrimSpace(raw)).value.rating, minRating)
      && CreateFineTuningExample(c, c.record(TrimSpace(raw)).value).Success?
      && c.example(CreateFineTuningExample(c, c.record(TrimSpace(raw)).value).value) == Some(ProcessLineAsWritten(c, minRating, raw).json)
  {
  }

  /** Records that carry both fields are treated alike by both versions. */
  lemma NewFormatUnchanged(c: Codecs, minRating: int, raw: string, r: LogRecord)
    requires TrimSpace(raw) != "" && c.record(TrimSpace(raw)) == Some(r)
    requires r.userQuery != "" && r.modelResponse != ""
    ensures ProcessLine(c, minRating, raw) == ProcessLineAsWritten(c, minRating, raw)
  {
  }

  /** The totals after some lines: output text, converted, skipped and old-format counts. */
  datatype Tally = Tally(output: string, converted: nat, skipped: nat, oldFormat: nat)

  function Count(t: Tally, o: LineOutcome): Tally {
    match o
    case Blank => t
    case Skipped(legacy) => Tally(t.output, t.converted, t.skipped + 1, t.oldFormat + if legacy then 1 else 0)
    case Converted(json, legacy) => Tally(t.output + json + "\n", t.converted + 1, t.skipped, t.oldFormat + if legacy then 1 else 0)
  }

  /** The reference totals of the main loop over `lines`. */
  function Totals(c: Codecs, minRating: int, lines: seq<string>): Tally {
    if |lines| == 0 then Tally("", 0, 0, 0)
    else Count(Totals(c, minRating, lines[..|lines| - 1]), ProcessLine(c, minRating, lines[|lines| - 1]))
  }

  function NonBlankCount(lines: seq<string>): nat {
    if |lines| == 0 then 0
    else NonBlankCount(lines[..|lines| - 1]) + if TrimSpace(lines[|lines| - 1]) != "" then 1 else 0
  }

  /** Every non-blank line is either converted or skipped, exactly once. */
  lemma {:induction false} TotalsAccount(c: Codecs, minRating: int, lines: seq<string>)
    ensures var t := Totals(c, minRating, lines);
      t.converted + t.skipped == NonBlankCount(lines) && t.oldFormat <= t.converted + t.skipped
  {
    if |lines| > 0 {
      TotalsAccount(c, minRating, lines[..|lines| - 1]);
    }
  }

  /** Lines 104-156: the loop body for one scanned line, its `continue`s as early returns. */
  method ConvertLine(c: Codecs, minRating: int, raw: string) returns (outcome: LineOutcome)
    ensures outcome == ProcessLine(c, minRating, raw)
  {
    var line := TrimSpace(raw);
    if line == "" {
      return Blank;
    }
    var parsed := c.record(line);
    if parsed.None? {
      return Skipped(false);
    }
    var r := parsed.value;
    if r.rating > 0 && r.rating < minRating {
      return Skipped(false);
    }
    var created := CreateFineTuningExampleIntended(c, r);
    if created.Failure? {
      return Skipped(false);
    }
    var example: Example;
    var legacy := false;
    if created.value.None? {
      legacy := true;
      if r.userQuery == "" {
        example := ReconstructExample(c, r);
      } else {
        return Skipped(true);
      }
    } else {
      example := created.value.value;
    }
    assert ExampleOf(c, r) == Some((example, legacy));
    var json := c.example(example);
    if json.None? {
      return Skipped(legacy);
    }
    return Converted(json.value, legacy);
  }

  /** The main loop of the converter over the lines of the log file. */
  method ConvertLog(c: Codecs, minRating: int, lines: seq<string>)
    returns (output: string, converted: nat, skipped: nat, oldFormat: nat)
    ensures Tally(output, converted, skipped, oldFormat) == Totals(c, minRating, lines)
    ensures converted + skipped == NonBlankCount(lines)
  {
    output, converted, skipped, oldFormat := "", 0, 0, 0;
    for i := 0 to |lines|
      invariant Tally(output, converted, skipped, oldFormat) == Totals(c, minRating, lines[..i])
    {
      assert lines[..i + 1][..i] == lines[..i];
      var outcome := ConvertLine(c, minRating, lines[i]);
      match outcome
      case Blank =>
      case Skipped(legacy) =>
        skipped := skipped + 1;
        if legacy {
          oldFormat := oldFormat + 1;
        }
      case Converted(json, legacy) =>
        output := output + json + "\n";
        converted := converted + 1;
        if legacy {
          oldFormat := oldFormat + 1;
        }
    }
    assert lines[..|lines|] == lines;
    TotalsAccount(c, minRating, lines);
  }
}
