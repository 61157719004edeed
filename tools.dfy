/**
 * The two tools the model may call, `run_commands` and `edit_files`: how their JSON arguments
 * are bound and validated, the safety gate in front of any process, the dispatch by tool name,
 * and the error details and rating that go into a log entry.
 */
module Tools {
  import opened Wrappers
  import opened Text
  import opened Json
  import opened Safety
  import opened Chat

  /** The outcome of one tool call: `status` is "success", "error" or "denied". */
  datatype TaskResponse = TaskResponse(status: string, message: string, output: string)

  const DefaultTimeoutSeconds: int := 30

  predicate KnownStatus(r: TaskResponse) {
    r.status == "success" || r.status == "error" || r.status == "denied"
  }

  /** The `run_commands` arguments: `command string` and `timeout *int`. */
  datatype RunParams = RunParams(command: string, timeout: Option<int>)

  /** The `edit_files` arguments: `path string` and `diff string`. */
  datatype EditParams = EditParams(path: string, diff: string)

  /** `json.Unmarshal` of the arguments into the `run_commands` struct. */
  function BindRunParams(decode: Decoder, arguments: string): (r: Result<RunParams, string>)
    ensures decode(arguments).Failure? ==> r == Failure(decode(arguments).error)
    ensures decode(arguments) == Success(JNull) ==> r == Success(RunParams("", None))
    ensures decode(arguments).Success? && decode(arguments).value.JObj? ==>
      var m := decode(arguments).value.fields;
      && (r.Success? <==> BindString(m, "command").Success? && BindIntPointer(m, "timeout").Success?)
      && (r.Success? ==> r.value == RunParams(BindString(m, "command").value, BindIntPointer(m, "timeout").value))
    ensures r.Success? ==> decode(arguments).Success? && (decode(arguments).value.JNull? || decode(arguments).value.JObj?)
  {
    var v :- decode(arguments);
    match v
    case JNull => Success(RunParams("", None))
    case JObj(m) =>
      var command :- BindString(m, "command");
      var timeout :- BindIntPointer(m, "timeout");
      Success(RunParams(command, timeout))
    case _ => Failure(StructTypeError(v))
  }

  /** `json.Unmarshal` of the arguments into the `edit_files` struct. */
  function BindEditParams(decode: Decoder, arguments: string): (r: Result<EditParams, string>)
    ensures decode(arguments).Failure? ==> r == Failure(decode(arguments).error)
    ensures decode(arguments) == Success(JNull) ==> r == Success(EditParams("", ""))
    ensures decode(arguments).Success? && decode(arguments).value.JObj? ==>
      var m := decode(arguments).value.fields;
      && (r.Success? <==> BindString(m, "path").Success? && BindString(m, "diff").Success?)
      && (r.Success? ==> r.value == EditParams(BindString(m, "path").value, BindString(m, "diff").value))
    ensures r.Success? ==> decode(arguments).Success? && (decode(arguments).value.JNull? || decode(arguments).value.JObj?)
  {
    var v :- decode(arguments);
    match v
    case JNull => Success(EditParams("", ""))
    case JObj(m) =>
      var path :- BindString(m, "path");
      var diff :- BindString(m, "diff");
      Success(EditParams(path, diff))
    case _ => Failure(StructTypeError(v))
  }

  /** What `executeRunCommands` does before any process exists: answer at once, or start `bash -c command`. */
  datatype RunDecision = Reply(response: TaskResponse) | Spawn(command: string, timeoutSeconds: int)

  /** Lines 535-564: parse, reject an empty command, apply the safety gate, choose the timeout. */
  function DecideRunCommands(decode: Decoder, arguments: string): (d: RunDecision)
    ensures BindRunParams(decode, arguments).Failure? ==>
      d == Reply(TaskResponse("error", "Failed to parse run_commands arguments: " + BindRunParams(decode, arguments).error, ""))
    ensures BindRunParams(decode, arguments).Success? ==>
      var p := BindRunParams(decode, arguments).value;
      && (p.command == "" ==> d == Reply(TaskResponse("error", "Command is required", "")))
      && (p.command != "" && IsDangerous(p.command) ==>
            d == Reply(TaskResponse("denied", "Command was denied for safety reasons", "")))
      && (p.command != "" && !IsDangerous(p.command) ==>
            d == Spawn(p.command, if p.timeout.Some? then p.timeout.value else DefaultTimeoutSeconds))
  {
    match BindRunParams(decode, arguments)
    case Failure(e) => Reply(TaskResponse("error", "Failed to parse run_commands arguments: " + e, ""))
    case Success(p) =>
      if p.command == "" then Reply(TaskResponse("error", "Command is required", ""))
      else if IsDangerous(p.command) then Reply(TaskResponse("denied", "Command was denied for safety reasons", ""))
      else Spawn(p.command, if p.timeout.Some? then p.timeout.value else DefaultTimeoutSeconds)
  }

  /** How a started command ended: exit status 0, another error, or its deadline passed. */
  datatype ProcessOutcome = Completed(output: string) | Failed(err: string, output: string) | TimedOut

  /** Running `bash -c command` with a deadline in seconds, in the current directory. */
  type Spawner = (string, int) -> ProcessOutcome

  /** Lines 573-593: the response for a finished process. */
  function ProcessResponse(outcome: ProcessOutcome): (r: TaskResponse)
    ensures r.status == "success" <==> outcome.Completed?
    ensures r.status != "success" ==> r.status == "error"
    ensures outcome.Completed? ==> r == TaskResponse("success", "Command executed successfully", outcome.output)
    ensures outcome.Failed? ==> r == TaskResponse("error", "Command failed: " + outcome.err, outcome.output)
    ensures outcome.TimedOut? ==> r == TaskResponse("error", "Command timed out", "")
  {
    match outcome
    case TimedOut => TaskResponse("error", "Command timed out", "")
    case Failed(err, output) => TaskResponse("error", "Command failed: " + err, output)
    case Completed(output) => TaskResponse("success", "Command executed successfully", output)
  }

  /** `executeRunCommands`: the spawner is consulted only for a decision to start the command. */
  function ExecuteRunCommands(decode: Decoder, spawn: Spawner, arguments: string): (r: TaskResponse)
    ensures DecideRunCommands(decode, arguments).Reply? ==> r == DecideRunCommands(decode, arguments).response
    ensures DecideRunCommands(decode, arguments).Spawn? ==>
      var d := DecideRunCommands(decode, arguments);
      r == ProcessResponse(spawn(d.command, d.timeoutSeconds))
  {
    match DecideRunCommands(decode, arguments)
    case Reply(response) => response
    case Spawn(command, timeout) => ProcessResponse(spawn(command, timeout))
  }

  /** `executeEditFiles` (lines 497-527): validation and a report; no file is touched. */
  function ExecuteEditFiles(decode: Decoder, arguments: string): (r: TaskResponse)
    ensures BindEditParams(decode, arguments).Failure? ==>
      r == TaskResponse("error", "Failed to parse edit_files arguments: " + BindEditParams(decode, arguments).error, "")
    ensures BindEditParams(decode, arguments).Success? ==>
      var p := BindEditParams(decode, arguments).value;
      && (p.path == "" || p.diff == "" ==> r == TaskResponse("error", "Both path and diff are required", ""))
      && (p.path != "" && p.diff != "" ==>
            r == TaskResponse("success", "File edit operation would be applied to " + p.path, "Applied diff to " + p.path))
  {
    match BindEditParams(decode, arguments)
    case Failure(e) => TaskResponse("error", "Failed to parse edit_files arguments: " + e, "")
    case Success(p) =>
      if p.path == "" || p.diff == "" then TaskResponse("error", "Both path and diff are required", "")
      else TaskResponse("success", "File edit operation would be applied to " + p.path, "Applied diff to " + p.path)
  }

  /** Lines 367-377: dispatch on the tool name. */
  function ExecuteTool(decode: Decoder, spawn: Spawner, call: ToolCall): (r: TaskResponse)
    ensures call.name == "edit_files" ==> r == ExecuteEditFiles(decode, call.arguments)
    ensures call.name == "run_commands" ==> r == ExecuteRunCommands(decode, spawn, call.arguments)
    ensures call.name != "edit_files" && call.name != "run_commands" ==>
      r == TaskResponse("error", "Unknown tool: " + call.name, "")
  {
    if call.name == "edit_files" then ExecuteEditFiles(decode, call.arguments)
    else if call.name == "run_commands" then ExecuteRunCommands(decode, spawn, call.arguments)
    else TaskResponse("error", "Unknown tool: " + call.name, "")
  }

  /** Lines 401-406: the error details logged with a response. */
  function ErrorDetails(r: TaskResponse): (details: string)
    ensures r.status == "error" ==> details == r.message
    ensures r.status != "error" ==> details == ""
  {
    if r.status == "error" then r.message else ""
  }

  /** Every dispatched call ends with one of the three statuses, and every error carries a message. */
  lemma ToolResponsesAreWellFormed(decode: Decoder, spawn: Spawner, call: ToolCall)
    ensures KnownStatus(ExecuteTool(decode, spawn, call))
    ensures ExecuteTool(decode, spawn, call).status == "error" ==> ExecuteTool(decode, spawn, call).message != ""
    ensures ErrorDetails(ExecuteTool(decode, spawn, call)) != "" <==> ExecuteTool(decode, spawn, call).status == "error"
  {
    var r := ExecuteTool(decode, spawn, call);
    if call.name == "run_commands" {
      match DecideRunCommands(decode, call.arguments)
      case Reply(_) =>
      case Spawn(c, t) =>
        var outcome := spawn(c, t);
        assert r == ProcessResponse(outcome);
        if outcome.Failed? {
          assert r.message[..|"Command failed: "|] == "Command failed: ";
        }
    } else if call.name == "edit_files" {
      if BindEditParams(decode, call.arguments).Success? {
        var p := BindEditParams(decode, call.arguments).value;
        if p.path != "" && p.diff != "" {
          assert r.status == "success";
        }
      }
    }
  }

  /** A dangerous command is answered "denied" whatever the spawner would have done. */
  lemma DangerousIsDeniedAndNotRun(decode: Decoder, spawn: Spawner, arguments: string)
    requires BindRunParams(decode, arguments).Success?
    requires var c := BindRunParams(decode, arguments).value.command; c != "" && IsDangerous(c)
    ensures DecideRunCommands(decode, arguments).Reply?
    ensures ExecuteRunCommands(decode, spawn, arguments) == TaskResponse("denied", "Command was denied for safety reasons", "")
  {
  }

  /** "denied" means exactly: the arguments parsed to a non-empty command that the gate flags. */
  lemma DeniedIffDangerous(decode: Decoder, spawn: Spawner, arguments: string)
    ensures ExecuteRunCommands(decode, spawn, arguments).status == "denied" <==>
      && BindRunParams(decode, arguments).Success?
      && BindRunParams(decode, arguments).value.command != ""
      && IsDangerous(BindRunParams(decode, arguments).value.command)
  {
    var d := DecideRunCommands(decode, arguments);
    if d.Spawn? {
      assert ProcessResponse(spawn(d.command, d.timeoutSeconds)).status != "denied";
    } else if BindRunParams(decode, arguments).Failure? {
      assert d.response.status == "error";
    }
  }

  /** Re-casing a command never gets it past the gate. */
  lemma RecasingStaysDenied(decode: Decoder, spawn: Spawner, a1: string, a2: string)
    requires BindRunParams(decode, a1).Success? && BindRunParams(decode, a2).Success?
    requires SameIgnoringCase(BindRunParams(decode, a1).value.command, BindRunParams(decode, a2).value.command)
    requires ExecuteRunCommands(decode, spawn, a1).status == "denied"
    ensures ExecuteRunCommands(decode, spawn, a2).status == "denied"
  {
    var c1 := BindRunParams(decode, a1).value.command;
    var c2 := BindRunParams(decode, a2).value.command;
    DeniedIffDangerous(decode, spawn, a1);
    CaseNeverMatters(c1, c2);
    DeniedIffDangerous(decode, spawn, a2);
  }

  /** The process is given 30 seconds unless the arguments carry a timeout, which is then used unchanged. */
  lemma TimeoutIsDefaultedOnly(decode: Decoder, arguments: string)
    requires DecideRunCommands(decode, arguments).Spawn?
    ensures var p := BindRunParams(decode, arguments).value;
      DecideRunCommands(decode, arguments).timeoutSeconds == (if p.timeout.None? then DefaultTimeoutSeconds else p.timeout.value)
    ensures var p := BindRunParams(decode, arguments).value;
      DecideRunCommands(decode, arguments).command == p.command && p.command != "" && !IsDangerous(p.command)
  {
    match BindRunParams(decode, arguments)
    case Failure(_) =>
    case Success(p) =>
  }

  /** An edit succeeds exactly when both fields bound to non-empty strings, and then reports the path. */
  lemma EditSucceedsIffBothGiven(decode: Decoder, arguments: string)
    ensures ExecuteEditFiles(decode, arguments).status == "success" <==>
      BindEditParams(decode, arguments).Success?
      && BindEditParams(decode, arguments).value.path != ""
      && BindEditParams(decode, arguments).value.diff != ""
    ensures ExecuteEditFiles(decode, arguments).status != "success" ==> ExecuteEditFiles(decode, arguments).status == "error"
  {
    match BindEditParams(decode, arguments)
    case Failure(_) =>
    case Success(p) =>
  }

  // ----- promptRating -----

  predicate IsDigit(c: char) {
    '0' <= c <= '9'
  }

  predicate AllDigits(s: string) {
    forall i :: 0 <= i < |s| ==> IsDigit(s[i])
  }

  function DigitValue(c: char): nat
    requires IsDigit(c)
  {
    (c as int) - ('0' as int)
  }

  /** The value of a string of decimal digits, most significant first. */
  function DigitsValue(s: string): nat
    requires AllDigits(s)
  {
    if |s| == 0 then 0 else 10 * DigitsValue(s[..|s| - 1]) + DigitValue(s[|s| - 1])
  }

  function DigitChar(d: nat): (c: char)
    requires d < 10
    ensures IsDigit(c) && DigitValue(c) == d
  {
    (('0' as int) + d) as char
  }

  /** The decimal text of a natural number, as `strconv.Itoa` writes it. */
  function DecimalString(n: nat): (s: string)
    ensures |s| > 0 && AllDigits(s)
  {
    if n < 10 then [DigitChar(n)] else DecimalString(n / 10) + [DigitChar(n % 10)]
  }

  /** `strconv.Atoi` on 64-bit Go: an optional sign, then one or more decimal digits, within range. */
  function Atoi(s: string): (r: Option<int>)
    ensures r.Some? ==> MinInt64 <= r.value <= MaxInt64
  {
    var negative := |s| > 0 && s[0] == '-';
    var digits := if |s| > 0 && (s[0] == '-' || s[0] == '+') then s[1..] else s;
    if |digits| == 0 || !AllDigits(digits) then None
    else
      var magnitude: int := DigitsValue(digits);
      var value := if negative then -magnitude else magnitude;
      if MinInt64 <= value <= MaxInt64 then Some(value) else None
  }

  /** The pure part of `promptRating` (lines 153-159): the line read from standard input, trimmed and parsed. */
  function ParseRating(input: string): (rating: int)
    ensures 0 <= rating <= 5
    ensures rating != 0 ==> Atoi(TrimSpace(input)) == Some(rating)
    ensures (Atoi(TrimSpace(input)).Some? && 0 <= Atoi(TrimSpace(input)).value <= 5) ==> rating == Atoi(TrimSpace(input)).value
  {
    match Atoi(TrimSpace(input))
    case None => 0
    case Some(n) => if n < 0 || n > 5 then 0 else n
  }

  /** Decimal text, with or without a sign, reads back as its value while that fits in 64 bits. */
  lemma AtoiReadsDecimal(n: nat)
    requires n <= MaxInt64
    ensures Atoi(DecimalString(n)) == Some(n)
    ensures Atoi("+" + DecimalString(n)) == Some(n)
    ensures Atoi("-" + DecimalString(n)) == Some(-(n as int))
  {
    var d := DecimalString(n);
    DecimalRoundTrip(n);
    assert IsDigit(d[0]);
    assert ("+" + d)[1..] == d;
    assert ("-" + d)[1..] == d;
  }

  /** A number beyond the 64-bit range is rejected. */
  lemma AtoiRejectsOverflow(n: nat)
    requires n > MaxInt64
    ensures Atoi(DecimalString(n)) == None
    ensures Atoi("-" + DecimalString(n + 1)).None?
  {
    var d := DecimalString(n);
    DecimalRoundTrip(n);
    assert IsDigit(d[0]);
    var d1 := DecimalString(n + 1);
    DecimalRoundTrip(n + 1);
    assert ("-" + d1)[1..] == d1;
  }

  /** Text that is empty, a bare sign, or has a non-digit after the optional sign is rejected. */
  lemma AtoiRejectsJunk(s: string, k: int)
    requires 0 <= k < |s| && !IsDigit(s[k])
    requires k > 0 || (s[0] != '+' && s[0] != '-')
    ensures Atoi(s) == None
    ensures Atoi("") == None && Atoi("+") == None && Atoi("-") == None
  {
    if k > 0 && (s[0] == '+' || s[0] == '-') {
      assert s[1..][k - 1] == s[k];
    }
  }

  /** Decimal text reads back as the number it was written from. */
  lemma {:induction false} DecimalRoundTrip(n: nat)
    ensures DigitsValue(DecimalString(n)) == n
  {
    if n >= 10 {
      var s := DecimalString(n);
      assert s[..|s| - 1] == DecimalString(n / 10);
      DecimalRoundTrip(n / 10);
    }
  }

  /** A star count typed on its own line is the rating recorded. */
  lemma RatingRoundTrip(stars: nat)
    requires stars <= 5
    ensures ParseRating(DecimalString(stars) + "\n") == stars
  {
    var s := DecimalString(stars);
    assert s == [DigitChar(stars)];
    TrimSpaceOfLineBreakAfter(s);
    DecimalRoundTrip(stars);
  }

  /** Digits with a sign in front are accepted as `strconv.Atoi` accepts them. */
  lemma SignedRatingAccepted()
    ensures ParseRating("+4\n") == 4
    ensures ParseRating("-0") == 0
    ensures ParseRating("6") == 0
  {
    TrimSpaceOfLineBreakAfter("+4");
    TrimSpaceKeepsTrimmed("-0");
    TrimSpaceKeepsTrimmed("6");
    assert "+4"[1..] == "4";
    assert DigitsValue("4") == 4 by {
      assert "4"[..0] == "";
    }
    assert DigitsValue("6") == 6 by {
      assert "6"[..0] == "";
    }
  }
}
