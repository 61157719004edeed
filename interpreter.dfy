/**
 * The response interpreter of `parseCommandFromResponse`: recovers a shell command from the
 * text content of a model reply that carried no structured tool call, and decides whether the
 * command may run without asking.
 */
module Interpreter {
  import opened Wrappers
  import opened Text
  import opened Json

  /** Informational commands that run on an exact match or when followed by a space and flags. */
  const SafeInfoCommands: seq<string> := [
    "who", "w", "users", "whoami", "id",
    "cat /etc/passwd", "getent passwd", "cut -d: -f1 /etc/passwd",
    "ls", "pwd", "date", "uptime",
    "uname", "hostname", "df", "free",
    "ps", "systemctl list-units", "systemctl status",
    "netstat", "ss", "ip addr", "ip route"
  ]

  /** Read-only verbs that run whatever follows them. */
  const ReadOnlyPrefixes: seq<string> :=
    ["cat ", "less ", "head ", "tail ", "grep ", "find ", "ls ", "getent ", "cut "]

  const Fence: string := "```"

  /** Characters the line scan strips from both ends of a candidate. */
  const CandidateCutset: set<char> := {'"', '\'', '{', '}', '[', ']'}

  predicate MatchesSafeInfo(lowered: string, safe: string) {
    lowered == safe || HasPrefix(lowered, safe + " ")
  }

  predicate InSafeInfoList(lowered: string) {
    exists i :: 0 <= i < |SafeInfoCommands| && MatchesSafeInfo(lowered, SafeInfoCommands[i])
  }

  predicate HasReadOnlyPrefix(lowered: string) {
    exists j :: 0 <= j < |ReadOnlyPrefixes| && HasPrefix(lowered, ReadOnlyPrefixes[j])
  }

  /** The allowlist decision, made on the trimmed and lower-cased command; blank text never qualifies. */
  predicate AutoExecutable(command: string)
    ensures AutoExecutable(command) ==> TrimSpace(command) != ""
  {
    var lowered := ToLower(TrimSpace(command));
    InSafeInfoList(lowered) || HasReadOnlyPrefix(lowered)
  }

  /**
   * Lines 634-652: trims the content and, when it opens with a fence, drops the first line
   * and, if it is a lone fence, the last line.
   */
  function StripFences(content: string): (r: string)
    ensures !HasPrefix(TrimSpace(content), Fence) ==> r == TrimSpace(content)
  {
    var trimmed := TrimSpace(content);
    if !HasPrefix(trimmed, Fence) then trimmed
    else
      var lines := Split(trimmed);
      var body := if HasPrefix(TrimSpace(lines[0]), Fence) then lines[1..] else lines;
      var closed := if |body| > 0 && TrimSpace(body[|body| - 1]) == Fence then body[..|body| - 1] else body;
      TrimSpace(Join(closed))
  }

  /**
   * Lines 655-669: the JSON object behind the content, retried on the text from the first `{`
   * to the last `}`; also the working content, which becomes that text when the retry succeeds.
   */
  function RecoverObject(decode: Decoder, content: string): (r: (Option<map<string, JsonValue>>, string))
    ensures AsObject(decode(content)).Some? ==> r == (AsObject(decode(content)), content)
    ensures r.0.None? ==> r.1 == content
    ensures AsObject(decode(content)).None? && r.0.Some? ==>
      var s := IndexOf(content, '{');
      var e := LastIndexOf(content, '}');
      && 0 <= s < e
      && r.1 == content[s..e + 1]
      && r.0 == AsObject(decode(r.1))
    ensures
      (&& AsObject(decode(content)).None?
       && 0 <= IndexOf(content, '{') < LastIndexOf(content, '}')
       && AsObject(decode(content[IndexOf(content, '{')..LastIndexOf(content, '}') + 1])).Some?)
      ==> r.0.Some?
  {
    var first := AsObject(decode(content));
    if first.Some? then (first, content)
    else
      var s := IndexOf(content, '{');
      var e := LastIndexOf(content, '}');
      if s >= 0 && e > s then
        var sub := content[s..e + 1];
        var second := AsObject(decode(sub));
        if second.Some? then (second, sub) else (None, content)
      else (None, content)
  }

  /** Shape 1, `{"command": "..."}`: a non-empty string member `command`, or "". */
  function CommandMember(m: map<string, JsonValue>): (c: string)
    ensures c != "" <==> StringMember(m, "command").Some? && StringMember(m, "command").value != ""
    ensures c != "" ==> c == m["command"].s
  {
    match StringMember(m, "command")
    case Some(c) => c
    case None => ""
  }

  /** Shape 2, `{"arguments": {"command": "..."}}`. */
  function NestedCommand(m: map<string, JsonValue>): string {
    if "arguments" in m && m["arguments"].JObj? then CommandMember(m["arguments"].fields) else ""
  }

  /** Shape 3, `{"arguments": "{\"command\": \"...\"}"}`: the arguments string parsed again. */
  function StringifiedCommand(decode: Decoder, m: map<string, JsonValue>): string {
    if "arguments" in m && m["arguments"].JStr? then
      match AsObject(decode(m["arguments"].s))
      case Some(inner) => CommandMember(inner)
      case None => ""
    else ""
  }

  /** Lines 673-700: the three shapes in priority order; the first non-empty one wins. */
  function ExtractCommand(decode: Decoder, m: map<string, JsonValue>): (c: string)
    ensures CommandMember(m) != "" ==> c == CommandMember(m)
    ensures CommandMember(m) == "" && NestedCommand(m) != "" ==> c == NestedCommand(m)
    ensures CommandMember(m) == "" && NestedCommand(m) == "" ==> c == StringifiedCommand(decode, m)
  {
    var shape1 := CommandMember(m);
    if shape1 != "" then shape1
    else
      var shape2 := NestedCommand(m);
      if shape2 != "" then shape2 else StringifiedCommand(decode, m)
  }

  /** The command the JSON path yields for the content (after fence stripping), or "". */
  function JsonCommand(decode: Decoder, content: string): string {
    var recovered := RecoverObject(decode, StripFences(content));
    if recovered.0.Some? then ExtractCommand(decode, recovered.0.value) else ""
  }

  /** The text the line scan runs over: the fence-stripped content, or the recovered `{...}` text. */
  function WorkingContent(decode: Decoder, content: string): string {
    RecoverObject(decode, StripFences(content)).1
  }

  /** Lines 748-762: what one line offers, if anything. */
  function ScanLine(line: string): (r: Option<string>)
    ensures r.Some? ==> r.value != "" && '{' !in r.value
  {
    var l := TrimSpace(line);
    if l == "" then None
    else if !(Contains(l, "\"command\"") || Contains(l, "'command'")) then None
    else
      var idx := IndexOf(l, ':');
      if idx <= 0 then None
      else
        var candidate := Trim(TrimSpace(l[idx + 1..]), CandidateCutset);
        if candidate != "" && '{' !in candidate then Some(candidate) else None
  }

  /** The first line's offer, or "" when no line offers anything. */
  function ScanLines(lines: seq<string>): (r: string)
    ensures r == "" || '{' !in r
  {
    if |lines| == 0 then ""
    else match ScanLine(lines[0])
      case Some(c) => c
      case None => ScanLines(lines[1..])
  }

  /** A non-empty scan result is the offer of one of the lines. */
  lemma {:induction false} ScanLinesFindsLine(lines: seq<string>)
    requires ScanLines(lines) != ""
    ensures exists i :: 0 <= i < |lines| && ScanLine(lines[i]) == Some(ScanLines(lines))
  {
    if ScanLine(lines[0]).None? {
      ScanLinesFindsLine(lines[1..]);
      var i :| 0 <= i < |lines[1..]| && ScanLine(lines[1..][i]) == Some(ScanLines(lines[1..]));
      assert lines[1..][i] == lines[i + 1];
    }
  }

  /** When a line offers something, the scan returns the offer of the first such line. */
  lemma {:induction false} ScanLinesFirstOffer(lines: seq<string>, j: int)
    requires 0 <= j < |lines| && ScanLine(lines[j]).Some?
    requires forall i :: 0 <= i < j ==> ScanLine(lines[i]).None?
    ensures ScanLines(lines) == ScanLine(lines[j]).value
  {
    if j > 0 {
      assert ScanLine(lines[0]).None?;
      forall i | 0 <= i < j - 1
        ensures ScanLine(lines[1..][i]).None?
      {
        assert lines[1..][i] == lines[i + 1];
      }
      ScanLinesFirstOffer(lines[1..], j - 1);
    }
  }

  /** When no line offers anything, the scan returns empty text. */
  lemma {:induction false} ScanLinesNoOffer(lines: seq<string>)
    requires forall i :: 0 <= i < |lines| ==> ScanLine(lines[i]).None?
    ensures ScanLines(lines) == ""
  {
    if |lines| > 0 {
      assert ScanLine(lines[0]).None?;
      forall i | 0 <= i < |lines| - 1
        ensures ScanLine(lines[1..][i]).None?
      {
        assert lines[1..][i] == lines[i + 1];
      }
      ScanLinesNoOffer(lines[1..]);
    }
  }

  /** The reference definition of `parseCommandFromResponse`: `(command, autoExecute)`. */
  function ParseCommand(decode: Decoder, content: string): (string, bool) {
    if content == "" then ("", false)
    else
      var cmd := JsonCommand(decode, content);
      if cmd != "" then (cmd, AutoExecutable(cmd))
      else (ScanLines(Split(WorkingContent(decode, content))), false)
  }

  /** Lines 704-740: the allowlist loop with its early return, then the read-only verbs. */
  method ClassifyCommand(lowered: string) returns (safe: bool)
    ensures safe <==> InSafeInfoList(lowered) || HasReadOnlyPrefix(lowered)
  {
    for i := 0 to |SafeInfoCommands|
      invariant forall k :: 0 <= k < i ==> !MatchesSafeInfo(lowered, SafeInfoCommands[k])
    {
      if lowered == SafeInfoCommands[i] || HasPrefix(lowered, SafeInfoCommands[i] + " ") {
        return true;
      }
    }
    return HasReadOnlyPrefix(lowered);
  }

  /** Lines 746-766: the line loop with its early return. */
  method ScanForCommand(lines: seq<string>) returns (command: string)
    ensures command == ScanLines(lines)
    ensures command == "" || '{' !in command
  {
    var i := 0;
    while i < |lines|
      invariant 0 <= i <= |lines|
      invariant ScanLines(lines[i..]) == ScanLines(lines)
    {
      assert lines[i..][1..] == lines[i + 1..];
      var offer := ScanLine(lines[i]);
      if offer.Some? {
        return offer.value;
      }
      i := i + 1;
    }
    return "";
  }

  /** `parseCommandFromResponse`. */
  method ParseCommandFromResponse(decode: Decoder, content: string) returns (command: string, autoExecute: bool)
    ensures (command, autoExecute) == ParseCommand(decode, content)
    ensures autoExecute ==> command != "" && AutoExecutable(command)
  {
    if content == "" {
      return "", false;
    }
    var working := StripFences(content);
    var recovered := RecoverObject(decode, working);
    working := recovered.1;
    if recovered.0.Some? {
      var cmd := ExtractCommand(decode, recovered.0.value);
      if cmd != "" {
        autoExecute := ClassifyCommand(ToLower(TrimSpace(cmd)));
        return cmd, autoExecute;
      }
    }
    command := ScanForCommand(Split(working));
    return command, false;
  }

  /** Empty content yields no command. */
  lemma EmptyContentYieldsNothing(decode: Decoder)
    ensures ParseCommand(decode, "") == ("", false)
  {
  }

  /**
   * A command recovered from JSON is auto-executed exactly when it is allowlisted, and it is
   * returned as extracted, not lower-cased or trimmed.
   */
  lemma JsonCommandClassified(decode: Decoder, content: string)
    requires content != "" && JsonCommand(decode, content) != ""
    ensures ParseCommand(decode, content).0 == JsonCommand(decode, content)
    ensures ParseCommand(decode, content).1 <==> AutoExecutable(JsonCommand(decode, content))
  {
  }

  /** Auto-execution implies the command came from the JSON path and is allowlisted. */
  lemma AutoExecuteOnlyWhenAllowlisted(decode: Decoder, content: string)
    ensures var (command, auto) := ParseCommand(decode, content);
      auto ==> command != "" && command == JsonCommand(decode, content) && AutoExecutable(command)
  {
  }

  /**
   * Without a JSON command the line scan decides: it never auto-executes, and what it returns
   * is empty or a non-empty text without `{` found on a line mentioning a quoted `command`.
   */
  lemma LineScanFallback(decode: Decoder, content: string)
    requires content != "" && JsonCommand(decode, content) == ""
    ensures var (command, auto) := ParseCommand(decode, content);
      && !auto
      && (command == "" || '{' !in command)
      && (command != "" ==> exists line :: line in Split(WorkingContent(decode, content)) && ScanLine(line) == Some(command))
  {
    var lines := Split(WorkingContent(decode, content));
    var command := ScanLines(lines);
    if command != "" {
      ScanLinesFindsLine(lines);
      var i :| 0 <= i < |lines| && ScanLine(lines[i]) == Some(command);
      assert lines[i] in lines;
    }
  }

  /** Everything but auto-execution of an allowlisted JSON command is suggest-only. */
  lemma SuggestOnlyOtherwise(decode: Decoder, content: string)
    requires !AutoExecutable(ParseCommand(decode, content).0)
    ensures !ParseCommand(decode, content).1
  {
  }

  /**
   * A fenced reply loses its opening line always, and its closing line exactly when that
   * line is a lone fence; nothing else is removed.
   */
  lemma StripFencesDropsOpeningLine(content: string)
    requires HasPrefix(TrimSpace(content), Fence)
    ensures var lines := Split(TrimSpace(content));
      || (&& |lines| >= 2 && TrimSpace(lines[|lines| - 1]) == Fence
          && StripFences(content) == TrimSpace(Join(lines[1..|lines| - 1])))
      || (&& (|lines| == 1 || TrimSpace(lines[|lines| - 1]) != Fence)
          && StripFences(content) == TrimSpace(Join(lines[1..])))
  {
    var trimmed := TrimSpace(content);
    var lines := Split(trimmed);
    SplitFirstHasPrefix(trimmed, Fence);
    TrimSpaceKeepsPrefix(lines[0], Fence);
    assert HasPrefix(TrimSpace(lines[0]), Fence);
    var body := lines[1..];
    if |body| > 0 && TrimSpace(body[|body| - 1]) == Fence {
      assert body[|body| - 1] == lines[|lines| - 1];
      assert body[..|body| - 1] == lines[1..|lines| - 1];
      assert StripFences(content) == TrimSpace(Join(body[..|body| - 1]));
    } else {
      assert StripFences(content) == TrimSpace(Join(body));
    }
  }

  /** A reply that is exactly `{"command": "who"}` runs `who` without asking. */
  lemma WhoIsAutoExecuted(decode: Decoder)
    requires decode("{\"command\": \"who\"}") == Success(JObj(map["command" := JStr("who")]))
    ensures ParseCommand(decode, "{\"command\": \"who\"}") == ("who", true)
  {
    var content := "{\"command\": \"who\"}";
    TrimSpaceKeepsTrimmed(content);
    assert content[0] == '{';
    assert !HasPrefix(content, Fence);
    assert StripFences(content) == content;
    TrimSpaceKeepsTrimmed("who");
    assert ToLower("who") == "who";
    assert MatchesSafeInfo("who", SafeInfoCommands[0]);
  }

  /** Any `cat` invocation is auto-executed, `cat /etc/shadow` included. */
  lemma CatShadowIsAutoExecutable()
    ensures AutoExecutable("cat /etc/shadow")
  {
    TrimSpaceKeepsTrimmed("cat /etc/shadow");
    assert ToLower("cat /etc/shadow") == "cat /etc/shadow";
    assert HasPrefix("cat /etc/shadow", ReadOnlyPrefixes[0]);
  }

  /** `rm -rf /` is on neither list, so it is at most suggested. */
  lemma RemoveRootIsNotAutoExecutable()
    ensures !AutoExecutable("rm -rf /")
  {
    var lowered := "rm -rf /";
    TrimSpaceKeepsTrimmed(lowered);
    assert ToLower(lowered) == lowered;
    forall i | 0 <= i < |SafeInfoCommands|
      ensures !MatchesSafeInfo(lowered, SafeInfoCommands[i])
    {
      assert SafeInfoCommands[i][0] != 'r';
    }
    forall j | 0 <= j < |ReadOnlyPrefixes|
      ensures !HasPrefix(lowered, ReadOnlyPrefixes[j])
    {
      assert ReadOnlyPrefixes[j][0] != 'r';
    }
  }

  /** A content whose unwrapped text decodes to `{"command": cmd}` yields `cmd` on the JSON path. */
  lemma PlainObjectYieldsCommand(decode: Decoder, content: string, cmd: string)
    requires decode(StripFences(content)) == Success(JObj(map["command" := JStr(cmd)]))
    ensures JsonCommand(decode, content) == cmd
  {
  }

  /**
   * Content that does not decode, but whose text from the first `{` to the last `}` decodes
   * to `{"command": cmd}`, yields `cmd` from that text.
   */
  lemma BraceTextYieldsCommand(decode: Decoder, content: string, cmd: string)
    requires AsObject(decode(StripFences(content))).None?
    requires var w := StripFences(content); var s := IndexOf(w, '{'); var e := LastIndexOf(w, '}');
      0 <= s < e && decode(w[s..e + 1]) == Success(JObj(map["command" := JStr(cmd)]))
    ensures JsonCommand(decode, content) == cmd
    ensures content != "" && cmd != "" ==> ParseCommand(decode, content) == (cmd, AutoExecutable(cmd))
  {
    BraceTextRecovered(decode, StripFences(content), cmd);
    CommandObjectExtracted(decode, cmd);
    if content != "" && cmd != "" {
      JsonCommandClassified(decode, content);
    }
  }

  lemma BraceTextRecovered(decode: Decoder, w: string, cmd: string)
    requires AsObject(decode(w)).None?
    requires var s := IndexOf(w, '{'); var e := LastIndexOf(w, '}');
      0 <= s < e && decode(w[s..e + 1]) == Success(JObj(map["command" := JStr(cmd)]))
    ensures RecoverObject(decode, w).0 == Some(map["command" := JStr(cmd)])
  {
  }

  lemma CommandObjectExtracted(decode: Decoder, cmd: string)
    ensures ExtractCommand(decode, map["command" := JStr(cmd)]) == cmd
  {
    var m := map["command" := JStr(cmd)];
    assert "arguments" !in m by {
      assert "arguments"[0] != "command"[0];
    }
  }

  /** An opening fence line and a closing fence line around one line of text are both dropped. */
  lemma FencedLineIsUnwrapped(opening: string, inner: string)
    requires HasPrefix(opening, Fence) && '\n' !in opening && !IsSpace(opening[|opening| - 1])
    requires inner != "" && '\n' !in inner && !IsSpace(inner[0]) && !IsSpace(inner[|inner| - 1])
    ensures StripFences(opening + "\n" + inner + "\n" + Fence) == inner
  {
    var lines := [opening, inner, Fence];
    var content := opening + "\n" + inner + "\n" + Fence;
    assert Join(lines[2..]) == Fence;
    assert Join(lines) == content;
    SplitJoin(lines);
    assert content[0] == opening[0];
    assert content[|content| - 1] == '`';
    TrimSpaceKeepsTrimmed(content);
    TrimSpaceKeepsTrimmed(opening);
    TrimSpaceKeepsTrimmed(Fence);
    TrimSpaceKeepsTrimmed(inner);
    assert content[..3] == opening[..3];
    assert lines[1..][..1] == [inner];
  }

  lemma FencedRemoveRootShape(content: string, inner: string)
    requires content == "```json\n{\"command\": \"rm -rf /\"}\n```"
    requires inner == "{\"command\": \"rm -rf /\"}"
    ensures content == "```json" + "\n" + inner + "\n" + Fence
    ensures HasPrefix("```json", Fence) && inner[0] == '{' && inner[|inner| - 1] == '}' && '\n' !in inner
  {
  }

  /** A fenced `{"command": "rm -rf /"}` is unwrapped and recovered, and only suggested. */
  lemma FencedRemoveRootIsSuggested(decode: Decoder)
    requires decode("{\"command\": \"rm -rf /\"}") == Success(JObj(map["command" := JStr("rm -rf /")]))
    ensures ParseCommand(decode, "```json\n{\"command\": \"rm -rf /\"}\n```") == ("rm -rf /", false)
  {
    var content := "```json\n{\"command\": \"rm -rf /\"}\n```";
    var inner := "{\"command\": \"rm -rf /\"}";
    FencedRemoveRootShape(content, inner);
    FencedLineIsUnwrapped("```json", inner);
    PlainObjectYieldsCommand(decode, content, "rm -rf /");
    RemoveRootIsNotAutoExecutable();
  }

  /** The candidate `"ls -la"` loses its quotes and nothing else. */
  lemma QuotedCandidateIsUnquoted()
    ensures Trim("\"ls -la\"", CandidateCutset) == "ls -la"
  {
    var s := "\"ls -la\"";
    assert TrimLeftWhere(s, c => c in CandidateCutset) == s[1..];
    assert s[1..] == "ls -la\"";
    assert TrimRightWhere("ls -la\"", c => c in CandidateCutset) == "ls -la";
  }

  /** The text after the colon, with its leading space trimmed. */
  lemma ValueAfterColonIsTrimmed()
    ensures TrimSpace(" \"ls -la\"") == "\"ls -la\""
  {
    var rest := " \"ls -la\"";
    assert TrimLeftWhere(rest, IsSpace) == rest[1..];
    TrimSpaceKeepsTrimmed(rest[1..]);
  }

  /** A trimmed line naming `"command"` offers the brace-free text after its first colon. */
  lemma ScanLineOffers(line: string, idx: int, candidate: string)
    requires line != "" && TrimSpace(line) == line && Contains(line, "\"command\"")
    requires IndexOf(line, ':') == idx && idx > 0
    requires Trim(TrimSpace(line[idx + 1..]), CandidateCutset) == candidate
    requires candidate != "" && '{' !in candidate
    ensures ScanLine(line) == Some(candidate)
  {
  }

  /** How the line `"command": "ls -la"` falls apart at its first colon. */
  lemma CommandLineParts(line: string)
    requires line == "\"command\": \"ls -la\""
    ensures TrimSpace(line) == line && Contains(line, "\"command\"") && IndexOf(line, ':') == 9
    ensures Trim(TrimSpace(line[10..]), CandidateCutset) == "ls -la"
  {
    TrimSpaceKeepsTrimmed(line);
    assert OccursAt(line, "\"command\"", 0);
    assert line[9] == ':';
    assert line[..9] == "\"command\"";
    IndexOfIsFirst(line, ':', 9);
    assert line[10..] == " \"ls -la\"";
    ValueAfterColonIsTrimmed();
    QuotedCandidateIsUnquoted();
  }

  lemma LsHasNoBrace()
    ensures '{' !in "ls -la"
  {
  }

  /** The line `"command": "ls -la"` offers `ls -la`. */
  lemma CommandLineOffersItsValue(line: string)
    requires line == "\"command\": \"ls -la\""
    ensures ScanLine(line) == Some("ls -la")
  {
    CommandLineParts(line);
    LsHasNoBrace();
    ScanLineOffers(line, 9, "ls -la");
  }

  /** Content with no `{` that does not decode is scanned as it stands. */
  lemma BracelessContentIsScanned(decode: Decoder, content: string)
    requires content != "" && !IsSpace(content[0]) && !IsSpace(content[|content| - 1])
    requires !HasPrefix(content, Fence) && '{' !in content && decode(content).Failure?
    ensures JsonCommand(decode, content) == "" && WorkingContent(decode, content) == content
  {
    TrimSpaceKeepsTrimmed(content);
  }

  /** A single line that yields nothing on the JSON path is given to the line scan. */
  lemma SingleLineFallsBackToScan(decode: Decoder, content: string, command: string)
    requires content != "" && '\n' !in content
    requires JsonCommand(decode, content) == "" && WorkingContent(decode, content) == content
    requires ScanLine(content) == Some(command)
    ensures ParseCommand(decode, content) == (command, false)
  {
    assert Join([content]) == content;
    SplitJoin([content]);
  }

  lemma CommandLineShape(line: string)
    requires line == "\"command\": \"ls -la\""
    ensures line[0] == '"' && line[|line| - 1] == '"' && !HasPrefix(line, Fence)
    ensures '{' !in line && '\n' !in line
  {
  }

  /** A line `"command": "ls -la"` that is not JSON is recovered by the line scan, and is never auto-executed although `ls` is allowlisted. */
  lemma LineScanNeverAutoExecutes(decode: Decoder, content: string)
    requires content == "\"command\": \"ls -la\""
    requires decode(content).Failure?
    ensures ParseCommand(decode, content) == ("ls -la", false)
  {
    CommandLineShape(content);
    BracelessContentIsScanned(decode, content);
    CommandLineOffersItsValue(content);
    SingleLineFallsBackToScan(decode, content, "ls -la");
  }
}
