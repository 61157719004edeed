/**
 * The tool-call log behind `logToolCall`: one JSON entry per line, read back leniently,
 * extended with the new entry and cut down to the most recent 1000 before it is written out.
 */
module Logger {
  import opened Wrappers
  import opened Text

  const MaxEntries: nat := 1000

  /** A `ToolCallLog` entry; the timestamp is kept as the text it is written as. */
  datatype LogEntry = LogEntry(
    timestamp: string,
    model: string,
    toolName: string,
    arguments: string,
    status: string,
    message: string,
    output: string,
    errorDetails: string,
    toolsEnabled: bool,
    rating: int)

  /** `json.Unmarshal` of one line into a `ToolCallLog`: the entry, or nothing on any error. */
  type EntryDecoder = string -> Option<LogEntry>

  /** `json.Marshal` of a `ToolCallLog`: its text, or nothing on an error. */
  type EntryEncoder = LogEntry -> Option<string>

  /** Lines 121-123: at most the last `MaxEntries` entries, in their order. */
  function Rotate(entries: seq<LogEntry>): (kept: seq<LogEntry>)
    ensures |kept| == if |entries| > MaxEntries then MaxEntries else |entries|
    ensures kept == entries[|entries| - |kept|..]
  {
    if |entries| > MaxEntries then entries[|entries| - MaxEntries..] else entries
  }

  /** Lines 107-114: the entries of the non-blank lines that decode, in file order. */
  function ParseLines(decode: EntryDecoder, lines: seq<string>): (entries: seq<LogEntry>)
    ensures |entries| <= |lines|
  {
    if |lines| == 0 then []
    else
      var line := lines[|lines| - 1];
      var last := if TrimSpace(line) != "" && decode(line).Some? then [decode(line).value] else [];
      ParseLines(decode, lines[..|lines| - 1]) + last
  }

  /** Lines 102-115: the existing entries; a file that cannot be read contributes none. */
  function ReadLog(decode: EntryDecoder, data: Option<string>): seq<LogEntry> {
    match data
    case None => []
    case Some(text) => ParseLines(decode, Split(TrimSpace(text)))
  }

  /** Lines 126-131: the encodings of the entries that marshal, in order. */
  function EncodeAll(encode: EntryEncoder, entries: seq<LogEntry>): (lines: seq<string>)
    ensures |lines| <= |entries|
  {
    if |entries| == 0 then []
    else
      var e := entries[|entries| - 1];
      EncodeAll(encode, entries[..|entries| - 1]) + (if encode(e).Some? then [encode(e).value] else [])
  }

  /** Line 133: the lines joined by line breaks, with one more at the end. */
  function Render(encode: EntryEncoder, entries: seq<LogEntry>): string {
    Join(EncodeAll(encode, entries)) + "\n"
  }

  /** Lines 102-115: the read loop over the lines of the existing file. */
  method ReadExisting(decode: EntryDecoder, data: Option<string>) returns (existing: seq<LogEntry>)
    ensures existing == ReadLog(decode, data)
  {
    existing := [];
    if data.Some? {
      var lines := Split(TrimSpace(data.value));
      var i := 0;
      while i < |lines|
        invariant 0 <= i <= |lines|
        invariant existing == ParseLines(decode, lines[..i])
      {
        assert lines[..i + 1][..i] == lines[..i];
        var line := lines[i];
        if TrimSpace(line) != "" {
          var parsed := decode(line);
          if parsed.Some? {
            existing := existing + [parsed.value];
          }
        }
        i := i + 1;
      }
      assert lines[..|lines|] == lines;
    }
  }

  /** Lines 126-131: the marshal loop; entries that fail to marshal are left out. */
  method EncodeEntries(encode: EntryEncoder, entries: seq<LogEntry>) returns (logLines: seq<string>)
    ensures logLines == EncodeAll(encode, entries)
  {
    logLines := [];
    for j := 0 to |entries|
      invariant logLines == EncodeAll(encode, entries[..j])
    {
      assert entries[..j + 1][..j] == entries[..j];
      var encoded := encode(entries[j]);
      if encoded.Some? {
        logLines := logLines + [encoded.value];
      }
    }
    assert entries[..|entries|] == entries;
  }

  /**
   * `logToolCall` without the file system: `data` is what `os.ReadFile` returned, `content` is
   * what is written back, and `kept` the entries it holds.
   */
  method LogToolCall(decode: EntryDecoder, encode: EntryEncoder, data: Option<string>, entry: LogEntry)
    returns (content: string, kept: seq<LogEntry>)
    ensures kept == Rotate(ReadLog(decode, data) + [entry])
    ensures content == Render(encode, kept)
    ensures 1 <= |kept| <= MaxEntries && kept[|kept| - 1] == entry
    ensures |kept| == if |ReadLog(decode, data)| < MaxEntries then |ReadLog(decode, data)| + 1 else MaxEntries
  {
    var existing := ReadExisting(decode, data);
    existing := existing + [entry];
    if |existing| > MaxEntries {
      existing := existing[|existing| - MaxEntries..];
    }
    var logLines := EncodeEntries(encode, existing);
    content := Join(logLines) + "\n";
    kept := existing;
  }

  /** Rotating twice loses nothing that rotating once would keep: the log is the tail of its whole history. */
  lemma RotateAbsorbs(s: seq<LogEntry>, t: seq<LogEntry>)
    ensures Rotate(Rotate(s) + t) == Rotate(s + t)
  {
    if |s| > MaxEntries {
      var r := Rotate(s);
      var p := s[..|s| - MaxEntries];
      assert s == p + r;
      assert s + t == p + (r + t);
      TailOfConcat(p, r + t, |r + t| - MaxEntries);
    }
  }

  lemma TailOfConcat(p: seq<LogEntry>, v: seq<LogEntry>, x: int)
    requires 0 <= x <= |v|
    ensures (p + v)[|p| + x..] == v[x..]
  {
  }

  /** Appending entries one call at a time keeps the last `MaxEntries` of everything ever logged. */
  lemma {:induction false} LoggingKeepsTail(initial: seq<LogEntry>, later: seq<LogEntry>)
    ensures AppendEach(Rotate(initial), later) == Rotate(initial + later)
    decreases |later|
  {
    if |later| == 0 {
      assert initial + later == initial;
      RotateIdempotent(initial);
    } else {
      var l := later[..|later| - 1];
      var e := later[|later| - 1];
      LoggingKeepsTail(initial, l);
      assert AppendEach(Rotate(initial), later) == Rotate(AppendEach(Rotate(initial), l) + [e]);
      RotateAbsorbs(initial + l, [e]);
      assert initial + l + [e] == initial + later;
    }
  }

  lemma RotateIdempotent(s: seq<LogEntry>)
    ensures Rotate(Rotate(s)) == Rotate(s)
  {
  }

  /** The entries held after logging each of `entries` in turn, starting from `log`. */
  function AppendEach(log: seq<LogEntry>, entries: seq<LogEntry>): seq<LogEntry>
    decreases |entries|
  {
    if |entries| == 0 then log
    else Rotate(AppendEach(log, entries[..|entries| - 1]) + [entries[|entries| - 1]])
  }

  /** Each parsed entry is the decoding of a non-blank line. */
  lemma {:induction false} ParsedEntriesComeFromLines(decode: EntryDecoder, lines: seq<string>, k: int)
    requires 0 <= k < |ParseLines(decode, lines)|
    ensures exists i :: 0 <= i < |lines| && TrimSpace(lines[i]) != "" && decode(lines[i]) == Some(ParseLines(decode, lines)[k])
  {
    var init := lines[..|lines| - 1];
    var line := lines[|lines| - 1];
    if k < |ParseLines(decode, init)| {
      ParsedEntriesComeFromLines(decode, init, k);
      var i :| 0 <= i < |init| && TrimSpace(init[i]) != "" && decode(init[i]) == Some(ParseLines(decode, init)[k]);
      assert lines[i] == init[i];
    } else {
      assert TrimSpace(line) != "" && decode(line).Some?;
      assert ParseLines(decode, lines)[k] == decode(line).value;
    }
  }

  /** When every line is a well-formed entry, none is dropped. */
  lemma {:induction false} GoodLinesAllParsed(decode: EntryDecoder, lines: seq<string>)
    requires forall i :: 0 <= i < |lines| ==> TrimSpace(lines[i]) != "" && decode(lines[i]).Some?
    ensures |ParseLines(decode, lines)| == |lines|
    ensures forall i :: 0 <= i < |lines| ==> ParseLines(decode, lines)[i] == decode(lines[i]).value
  {
    if |lines| > 0 {
      GoodLinesAllParsed(decode, lines[..|lines| - 1]);
    }
  }

  /** Blank and malformed lines are passed over. */
  lemma BadLineIsDropped(decode: EntryDecoder, before: seq<string>, line: string, after: seq<string>)
    requires TrimSpace(line) == "" || decode(line).None?
    ensures ParseLines(decode, before + [line] + after) == ParseLines(decode, before + after)
    decreases |after|
  {
    if |after| == 0 {
      assert before + [line] + after == before + [line];
      assert (before + [line])[..|before|] == before;
      assert before + after == before;
    } else {
      var a := after[..|after| - 1];
      BadLineIsDropped(decode, before, line, a);
      assert (before + [line] + after)[..|before + [line] + after| - 1] == before + [line] + a;
      assert (before + after)[..|before + after| - 1] == before + a;
    }
  }

  /** A line a codec may produce: non-empty, one line, and no white space at either end. */
  predicate WellFormedLine(l: string) {
    |l| > 0 && '\n' !in l && !IsSpace(l[0]) && !IsSpace(l[|l| - 1])
  }

  /** `json.Marshal` output is a single compact line that `json.Unmarshal` reads back unchanged. */
  ghost predicate Lossless(decode: EntryDecoder, encode: EntryEncoder) {
    forall e :: encode(e).Some? && WellFormedLine(encode(e).value) && decode(encode(e).value) == Some(e)
  }

  lemma {:induction false} EncodeAllLossless(decode: EntryDecoder, encode: EntryEncoder, entries: seq<LogEntry>)
    requires Lossless(decode, encode)
    ensures |EncodeAll(encode, entries)| == |entries|
    ensures forall i :: 0 <= i < |entries| ==> EncodeAll(encode, entries)[i] == encode(entries[i]).value
  {
    if |entries| > 0 {
      EncodeAllLossless(decode, encode, entries[..|entries| - 1]);
      assert encode(entries[|entries| - 1]).Some?;
    }
  }

  /** With a lossless codec, every encoded line is well formed and decodes to its entry. */
  lemma EncodedLinesReadBack(decode: EntryDecoder, encode: EntryEncoder, kept: seq<LogEntry>)
    requires Lossless(decode, encode)
    ensures |EncodeAll(encode, kept)| == |kept|
    ensures forall i :: 0 <= i < |kept| ==>
      WellFormedLine(EncodeAll(encode, kept)[i]) && decode(EncodeAll(encode, kept)[i]) == Some(kept[i])
  {
    EncodeAllLossless(decode, encode, kept);
    forall i | 0 <= i < |kept|
      ensures WellFormedLine(EncodeAll(encode, kept)[i]) && decode(EncodeAll(encode, kept)[i]) == Some(kept[i])
    {
      assert encode(kept[i]).Some? && WellFormedLine(encode(kept[i]).value) && decode(encode(kept[i]).value) == Some(kept[i]);
    }
  }

  /** Well-formed lines, joined and followed by a line break, split back into the same lines. */
  lemma RenderedLinesSplitBack(lines: seq<string>)
    requires |lines| > 0 && forall i :: 0 <= i < |lines| ==> WellFormedLine(lines[i])
    ensures Split(TrimSpace(Join(lines) + "\n")) == lines
  {
    JoinFirst(lines);
    JoinLast(lines);
    TrimSpaceOfLineBreakAfter(Join(lines));
    SplitJoin(lines);
  }

  /** With a lossless codec, the file written by one call reads back as exactly the entries it kept. */
  lemma ReadBackAfterWrite(decode: EntryDecoder, encode: EntryEncoder, kept: seq<LogEntry>)
    requires Lossless(decode, encode) && |kept| > 0
    ensures ReadLog(decode, Some(Render(encode, kept))) == kept
  {
    var lines := EncodeAll(encode, kept);
    EncodedLinesReadBack(decode, encode, kept);
    RenderedLinesSplitBack(lines);
    forall i | 0 <= i < |lines|
      ensures TrimSpace(lines[i]) != "" && decode(lines[i]).Some?
    {
      TrimSpaceKeepsTrimmed(lines[i]);
    }
    GoodLinesAllParsed(decode, lines);
  }

  /** A full log loses its oldest entry when the next one is logged. */
  lemma FullLogDropsOldest(previous: seq<LogEntry>, entry: LogEntry)
    requires |previous| == MaxEntries
    ensures Rotate(previous + [entry]) == previous[1..] + [entry]
  {
  }
}
