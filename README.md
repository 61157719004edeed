# tinypenguin-cli: the tool-call gate, the reply interpreter and the log converter, in Dafny

tinypenguin-cli sends a task to a local chat model. The model may answer with structured tool
calls (`run_commands` runs a shell command, `edit_files` reports a diff), or with text that
merely hints at a command. This project models the decision logic around that exchange and
proves what it guarantees:

- **Safety** — `isDangerousCommand`, the case-insensitive substring denylist in front of every
  process the CLI starts.
- **Interpreter** — `parseCommandFromResponse`. It recovers a command from reply text by
  stripping code fences, parsing JSON, retrying on the `{...}` substring, trying three
  extraction shapes in order, and falling back to a line scan. It then decides whether the
  command runs without asking, by an allowlist of informational commands and read-only verbs.
- **Tools** — argument binding and validation of `executeRunCommands` and `executeEditFiles`,
  the dispatch by tool name, the error details of a log entry, and the parse of the rating
  typed after each call (`promptRating`).
- **Logger** — `logToolCall`: existing log lines are read leniently, the new entry is appended,
  the list is cut to the newest 1000 entries, and the log is written back one JSON line per
  entry.
- **Task** — `ExecuteTask` after the model answered: each requested call is executed and logged
  in turn; otherwise the reply text is interpreted and at most one allowlisted command is
  auto-executed through `run_commands`.
- **FineTune** — `convert_logs_for_finetuning.go`. It applies the rating filter and builds a
  fine-tuning example (chat messages) from each log record that carries the recorded user query
  and model reply, and it keeps the main loop's counters. The loop means to reconstruct an
  example from the tool call alone for a record without a user query. As written it never
  does: such a record, like one with a query but no reply, is skipped (see "## Findings"). The
  corrected version reconstructs the record without a query and still skips the one with a
  query but no reply.

The supporting modules are `Text` (Go's `strings` functions the core uses), `Json` (decoded
JSON values and how Go binds them to the two argument structs), `Chat` (messages and tool
calls) and `Wrappers` (`Option`, `Result`).

The outside world enters as parameters:

- JSON text is parsed and printed by decoder and encoder functions.
- A started process is a `Spawner` that reports how the process ended.
- The log file is its contents (`Option<string>`, `None` when it cannot be read) before and
  after a call.
- The clock and standard input are functions of the call's position in the turn.

Imperative source stays imperative. These are methods with loops, proved equal to reference
functions: the log's read and write loops, the allowlist loop, the line-scan loop, the tool
loop of `ExecuteTask`, and the converter's main loop. Straight-line construction and branching
code is functions.

Some behaviours of the code that a reader might not expect, modelled as the code has them:

- The gate does not deny `chmod 777`, although one might expect it to. The code has no such pattern, and
  `Safety.Chmod777IsNotDenied` shows that `chmod 777 /` passes. `sudo rm -rf /` is caught
  only because it contains `rm -rf /` (`Safety.SudoRemoveRootIsDenied`).
- The line scan is not only a fallback for text that is not JSON. The code runs it whenever
  no command was extracted, including after a successful parse (`Interpreter.ParseCommand`).
- A fenced `{"command": "rm -rf /"}` in the reply text is never denied. The JSON path
  recovers the command, `rm -rf /` is not allowlisted, and the command is only suggested.
  Nothing reaches the gate (`Interpreter.FencedRemoveRootIsSuggested`).
- Not every allowlisted command in the reply text is auto-executed. Only a command recovered
  from JSON can be: a line-scan result is never auto-executed, even `ls -la`
  (`Interpreter.LineScanNeverAutoExecutes`).

The CLI's own `ToolCallLog` has no `user_query` or `model_response` fields. So every line the
CLI writes is an old-format record for the converter.

## Model

| member | source | states |
|---|---|---|
| Safety.IsDangerousCommand | cli/pkg/cli/task.go:596-616 | the verdict is true exactly when one of the eight patterns occurs in the lower-cased command |
| Safety.CaseNeverMatters | cli/pkg/cli/task.go:608-614 | two commands that differ only in letter case get the same verdict, so re-casing never gets a command past the gate |
| Safety.SixPatternsDecide | cli/pkg/cli/task.go:597-606 | the verdict is decided by six patterns alone: `rm -rf /usr` and `rm -rf /bin` never match where `rm -rf /` does not |
| Safety.EmptyIsNotDangerous | cli/pkg/cli/task.go:608-615 | the empty command is not denied |
| Safety.SudoRemoveRootIsDenied | cli/pkg/cli/task.go:596-616 | `sudo rm -rf /` is denied: the pattern occurs inside it |
| Safety.Chmod777IsNotDenied | cli/pkg/cli/task.go:596-616 | `chmod 777 /` is not denied: no pattern occurs in it |
| Interpreter.StripFences | cli/pkg/cli/task.go:634-652 | content that does not open with a fence is only trimmed |
| Interpreter.StripFencesDropsOpeningLine | cli/pkg/cli/task.go:635-652 | a fenced reply loses its first line; it loses its last line exactly when that line is a lone fence; the remaining lines are joined and trimmed |
| Interpreter.FencedLineIsUnwrapped | cli/pkg/cli/task.go:635-652 | one line between an opening fence line and a closing fence line comes out unchanged |
| Interpreter.RecoverObject | cli/pkg/cli/task.go:655-669 | the whole content is used when it decodes to an object or `null`; otherwise the text from the first `{` to the last `}` is used; it becomes the working content only when it decodes, and it always does when it decodes |
| Interpreter.BraceTextYieldsCommand | cli/pkg/cli/task.go:655-680 | content that does not decode, but whose `{...}` text decodes to `{"command": cmd}`, yields `cmd` on the JSON path, and `ParseCommand` returns it with the allowlist's verdict |
| Interpreter.AutoExecutable | cli/pkg/cli/task.go:704-737 | the allowlist decision on the trimmed, lower-cased command; blank text never qualifies |
| Interpreter.CommandMember | cli/pkg/cli/task.go:677-680 | the first shape yields a value exactly when `command` is a non-empty JSON string, and then yields that string |
| Interpreter.ExtractCommand | cli/pkg/cli/task.go:673-700 | the top-level `command`, else `arguments.command` of an object, else `command` of the arguments string decoded again: the first non-empty one wins |
| Interpreter.ScanLine | cli/pkg/cli/task.go:748-762 | a line offers only a non-empty candidate without `{` |
| Interpreter.ScanLines | cli/pkg/cli/task.go:746-766 | the scan result is empty or contains no `{` |
| Interpreter.ScanLinesFindsLine | cli/pkg/cli/task.go:746-766 | a non-empty scan result is what one of the lines offers |
| Interpreter.ScanLinesFirstOffer | cli/pkg/cli/task.go:746-766 | the scan result is the offer of the first line that offers anything |
| Interpreter.ScanLinesNoOffer | cli/pkg/cli/task.go:746-766 | when no line offers anything, the scan result is empty |
| Interpreter.ClassifyCommand | cli/pkg/cli/task.go:716-737 | the allowlist loop with its early return says yes exactly when the lowered command equals an entry, starts with an entry and a space, or starts with one of the nine read-only verbs |
| Interpreter.ScanForCommand | cli/pkg/cli/task.go:746-766 | the line loop with its early return gives the first line's offer, or empty text |
| Interpreter.ParseCommandFromResponse | cli/pkg/cli/task.go:628-767 | the method's `(command, autoExecute)` equals the reference `ParseCommand`; auto-execution implies a non-empty, allowlisted command |
| Interpreter.EmptyContentYieldsNothing | cli/pkg/cli/task.go:629-631 | empty content yields no command and no auto-execution |
| Interpreter.JsonCommandClassified | cli/pkg/cli/task.go:702-741 | a command found on the JSON path is returned as extracted, not lowered or trimmed, and is auto-executed exactly when it is allowlisted |
| Interpreter.AutoExecuteOnlyWhenAllowlisted | cli/pkg/cli/task.go:702-741 | auto-execution implies a non-empty command that came from the JSON path and is allowlisted |
| Interpreter.LineScanFallback | cli/pkg/cli/task.go:744-766 | without a JSON command, the result never auto-executes; it is empty, or a text without `{` that a line of the working content offers |
| Interpreter.SuggestOnlyOtherwise | cli/pkg/cli/task.go:739-741 | a command that is not allowlisted is only suggested |
| Interpreter.WhoIsAutoExecuted | cli/pkg/cli/task.go:628-722 | `{"command": "who"}` yields `("who", true)` |
| Interpreter.CatShadowIsAutoExecutable | cli/pkg/cli/task.go:726-737 | `cat /etc/shadow` is auto-executable through the `cat ` verb |
| Interpreter.RemoveRootIsNotAutoExecutable | cli/pkg/cli/task.go:708-737 | `rm -rf /` is on neither list |
| Interpreter.PlainObjectYieldsCommand | cli/pkg/cli/task.go:655-680 | content whose unwrapped text decodes to `{"command": cmd}` yields `cmd` on the JSON path |
| Interpreter.FencedRemoveRootIsSuggested | cli/pkg/cli/task.go:634-741 | a fenced `{"command": "rm -rf /"}` yields `("rm -rf /", false)` |
| Interpreter.CommandLineOffersItsValue | cli/pkg/cli/task.go:748-762 | the line `"command": "ls -la"` offers `ls -la` |
| Interpreter.LineScanNeverAutoExecutes | cli/pkg/cli/task.go:744-766 | the text `"command": "ls -la"` that is not JSON yields `("ls -la", false)`, although `ls` is allowlisted |
| Tools.BindRunParams | cli/pkg/cli/task.go:530-540 | a decode error is passed on; `null` binds to empty fields; an object binds exactly when `command` is a string or absent and `timeout` an in-range integer or absent, and then to those two field values; any other value is an error |
| Tools.BindEditParams | cli/pkg/cli/task.go:498-508 | the same for `path` and `diff`, both strings, binding to those two field values |
| Tools.DecideRunCommands | cli/pkg/cli/task.go:535-564 | parse errors are reported with the decoder's text; an empty command is "Command is required" before the gate; a dangerous one is denied; otherwise the command is started with the given timeout or 30 seconds |
| Tools.ProcessResponse | cli/pkg/cli/task.go:573-593 | success with the output for exit status 0; "Command timed out" with no output; "Command failed: " and the error, with the output, otherwise |
| Tools.ExecuteRunCommands | cli/pkg/cli/task.go:529-594 | the spawner is consulted only when the decision is to start the command |
| Tools.ExecuteEditFiles | cli/pkg/cli/task.go:497-527 | parse error, "Both path and diff are required", or success naming the path; no file is touched |
| Tools.ExecuteTool | cli/pkg/cli/task.go:366-377 | `edit_files` and `run_commands` go to their handlers; any other name is "Unknown tool: " and the name |
| Tools.ErrorDetails | cli/pkg/cli/task.go:401-406 | the details are the message of an error response and empty otherwise |
| Tools.ToolResponsesAreWellFormed | cli/pkg/cli/task.go:366-377 | every dispatched call ends "success", "error" or "denied"; every error carries a message; error details are non-empty exactly for errors |
| Tools.DangerousIsDeniedAndNotRun | cli/pkg/cli/task.go:555-560 | a non-empty dangerous command is denied whatever the spawner would do |
| Tools.DeniedIffDangerous | cli/pkg/cli/task.go:535-560 | "denied" holds exactly when the arguments bind to a non-empty command that the gate flags |
| Tools.RecasingStaysDenied | cli/pkg/cli/task.go:555-560 | if one command is denied, every re-cased variant of it is denied too |
| Tools.TimeoutIsDefaultedOnly | cli/pkg/cli/task.go:561-564 | a started command gets 30 seconds unless the arguments carry a timeout, which is used unchanged; it is non-empty and passed the gate |
| Tools.EditSucceedsIffBothGiven | cli/pkg/cli/task.go:513-526 | an edit succeeds exactly when both fields bound to non-empty strings; otherwise it is an error |
| Tools.Atoi | cli/pkg/cli/task.go:155 | an accepted number lies in the 64-bit range |
| Tools.AtoiReadsDecimal | cli/pkg/cli/task.go:155 | decimal text, bare or with `+` or `-`, reads back as its value while that fits in 64 bits |
| Tools.AtoiRejectsOverflow | cli/pkg/cli/task.go:155 | a number beyond the 64-bit range is rejected, positive or negative |
| Tools.AtoiRejectsJunk | cli/pkg/cli/task.go:155 | empty text, a bare sign, and text with a non-digit after the optional sign are rejected |
| Tools.ParseRating | cli/pkg/cli/task.go:149-160 | the rating lies in 0..5; a non-zero rating is the trimmed input's value; a parsed value in 0..5 is taken as is |
| Tools.RatingRoundTrip | cli/pkg/cli/task.go:153-159 | a star count 0..5 typed on its own line is the rating recorded |
| Tools.SignedRatingAccepted | cli/pkg/cli/task.go:155-159 | `+4` is accepted as 4, `-0` as 0, and `6` is out of range and gives 0 |
| Logger.Rotate | cli/pkg/cli/task.go:121-123 | at most the newest 1000 entries are kept, as a suffix of the list in its order |
| Logger.ParseLines | cli/pkg/cli/task.go:107-114 | no more entries than lines |
| Logger.ParsedEntriesComeFromLines | cli/pkg/cli/task.go:107-114 | each parsed entry is the decoding of a non-blank line |
| Logger.GoodLinesAllParsed | cli/pkg/cli/task.go:107-114 | when every line is non-blank and decodes, the entries are the lines' decodings, one for one and in order |
| Logger.BadLineIsDropped | cli/pkg/cli/task.go:108-110 | a blank or malformed line contributes nothing wherever it stands |
| Logger.EncodeAll | cli/pkg/cli/task.go:126-131 | no more lines than entries |
| Logger.ReadExisting | cli/pkg/cli/task.go:102-115 | the read loop yields the reference `ReadLog` of the file contents |
| Logger.EncodeEntries | cli/pkg/cli/task.go:125-131 | the marshal loop yields the reference `EncodeAll` |
| Logger.LogToolCall | cli/pkg/cli/task.go:98-135 | the kept list is the rotation of the existing entries plus the new one; it holds 1 to 1000 entries, min(n+1, 1000) of them, with the new entry last; the written text is the encoded lines joined by line breaks plus a final one |
| Logger.RotateIdempotent | cli/pkg/cli/task.go:121-123 | rotating a rotated list changes nothing |
| Logger.RotateAbsorbs | cli/pkg/cli/task.go:118-123 | appending to a rotated list and rotating equals rotating the whole history |
| Logger.LoggingKeepsTail | cli/pkg/cli/task.go:118-123 | logging entries one call at a time keeps the newest 1000 of everything ever logged |
| Logger.EncodedLinesReadBack | cli/pkg/cli/task.go:126-131 | with a lossless codec, each encoded line is one trimmed line that decodes to its entry |
| Logger.RenderedLinesSplitBack | cli/pkg/cli/task.go:105-133 | well-formed lines, joined and followed by a line break, split back into the same lines on reading |
| Logger.ReadBackAfterWrite | cli/pkg/cli/task.go:105-133 | with a lossless codec, the file one call writes reads back as exactly the entries it kept |
| Logger.FullLogDropsOldest | cli/pkg/cli/task.go:118-123 | logging into a full log of 1000 drops its oldest entry and appends the new one |
| Task.ToolResults | cli/pkg/cli/task.go:359-378 | one response per requested call |
| Task.ToolEntries | cli/pkg/cli/task.go:359-409 | one log entry per requested call |
| Task.ToolLoopPointwise | cli/pkg/cli/task.go:362-408 | the i-th response is the dispatch of the i-th call, and the i-th entry records that call |
| Task.LoggedEntriesAreConsistent | cli/pkg/cli/task.go:385-407 | every logged entry names its call and arguments, has a rating in 0..5 and a known status, and carries error details exactly when its status is "error" |
| Task.NewLogEntry | cli/pkg/cli/task.go:391-407 | the entry records the time, model, call name and arguments, the response's status, message and output, the tools flag and the rating; its error details are the message of an error response and empty otherwise |
| Task.CommandArguments | cli/pkg/cli/task.go:430-431 | the arguments built for an auto-executed command bind to that command and no timeout, given codecs that read back the command objects they print |
| Task.ContentOutcome | cli/pkg/cli/task.go:415-491 | a reply without tool calls auto-executes exactly when the interpreter says so for a non-empty command, through `run_commands` with `{"command": command}`; it suggests exactly a non-empty command that is not auto-executed, and suggests the interpreter's command; it ends without tool usage exactly when the content is empty |
| Task.LogOne | cli/pkg/cli/task.go:408 | after one `logToolCall`, the log reads back as the rotation of its old entries plus the new one (lossless codec) |
| Task.ExecuteToolCalls | cli/pkg/cli/task.go:359-409 | the results are the dispatch of each call, in order; with a lossless codec the log afterwards reads back as the rotation of its old entries plus one entry per call |
| Task.ExecuteTask | cli/pkg/cli/task.go:333-494 | a model error or an empty choice list ends the task with its message and no log change; tool calls are executed and logged; otherwise the content decides, and only an auto-executed command is logged |
| Task.AutoExecutionStillGated | cli/pkg/cli/task.go:424-431 | an auto-executed dangerous command is still denied and not run |
| Task.AutoExecutionUsesDefaultTimeout | cli/pkg/cli/task.go:430-431 | an auto-executed command that passes the gate is started with the 30-second default |
| Task.ChainedRemoveAfterCatIsDenied | cli/pkg/cli/task.go:726-737 | `cat /etc/passwd; rm -rf /` is auto-executable through `cat ` and yet denied by the gate |
| FineTune.PassesRatingFilter | convert_logs_for_finetuning.go:117-121 | an entry passes exactly when it is unrated (0 or less) or rated at least the minimum |
| FineTune.RatingFilterMonotone | convert_logs_for_finetuning.go:118-121 | unrated entries pass every filter, and raising the minimum never lets more entries through |
| FineTune.DefaultFilterKeeps | convert_logs_for_finetuning.go:66-121 | with the default minimum 3, ratings 1 and 2 are dropped and 0, 3, 4 and 5 kept |
| FineTune.WithToolResult | convert_logs_for_finetuning.go:221-228 | the tool message is appended exactly when the status is "success" and the output is non-empty |
| FineTune.ParseModelResponse | convert_logs_for_finetuning.go:178-189 | the parse fails exactly when the decoder fails, with "failed to parse model_response: " and the first error |
| FineTune.ExampleFromResponse | convert_logs_for_finetuning.go:191-232 | two or three messages: the user query, the assistant content with the model's tool calls or the one rebuilt `call_1` call, and the tool result exactly for a successful call with output |
| FineTune.CreateFineTuningExample | convert_logs_for_finetuning.go:172-233 | as written: an error exactly when a field is missing or the response does not parse; never an absent example without an error |
| FineTune.CreateFineTuningExampleIntended | convert_logs_for_finetuning.go:131-145 | as the caller expects it: no example and no error exactly when a field is missing; otherwise the same as written |
| FineTune.ReconstructUserQuery | convert_logs_for_finetuning.go:278-310 | never empty; a tool other than the two is "Use tool: " and its name |
| FineTune.CommandQueryQuotesOnlyUnknown | convert_logs_for_finetuning.go:287-299 | a command is quoted back exactly when none of `who`, `w `, `pwd`, `ls`, `ps` prefixes it; each prefix gives its own phrase (`who` and `w ` the users check, `pwd` the directory, `ls` the file list, `ps` the processes) |
| FineTune.CommandQueryQuirks | convert_logs_for_finetuning.go:287-298 | prefixes are literal: `whoami` counts as `who`, `lsblk` as `ls`, `psql -l` as `ps`, and a bare `w` as nothing |
| FineTune.RunCommandsQueryFromCommand | convert_logs_for_finetuning.go:280-300 | a `run_commands` record whose arguments are an object holding a string `command`, among any other members, is described by that command alone |
| FineTune.RunCommandsQueryWithoutCommand | convert_logs_for_finetuning.go:280-301 | a `run_commands` record whose arguments do not parse, are not an object, or hold no string `command` is "Execute a command" |
| FineTune.EditFilesQueryFromPath | convert_logs_for_finetuning.go:280-304 | an `edit_files` record whose arguments hold a string `path` is "Edit file: " and that path |
| FineTune.EditFilesQueryWithoutPath | convert_logs_for_finetuning.go:280-306 | an `edit_files` record without a string `path` in its arguments is "Edit a file" |
| FineTune.AssistantResponse | convert_logs_for_finetuning.go:312-330 | the reply opens with the header naming the tool; it closes with the output report for success with output, with the failure message for "error", and with the tool call otherwise |
| FineTune.CreateAssistantResponse | convert_logs_for_finetuning.go:312-330 | as written: the reply opens with the header and closes with the result report for success with output, with the failure report for "error", and with the tool call otherwise, every separator being a backslash and an `n` |
| FineTune.CreateAssistantResponseIntended | convert_logs_for_finetuning.go:312-330 | the same with real line breaks |
| FineTune.AssistantResponseAsWrittenKeepsBackslashes | convert_logs_for_finetuning.go:320 | as written, the header is followed by a backslash and an `n`, not a line break |
| FineTune.AssistantResponseIntendedBreaksLines | convert_logs_for_finetuning.go:320 | as intended, the tool call starts on its own line after a blank line |
| FineTune.ReconstructExample | convert_logs_for_finetuning.go:235-276 | two or three messages: the reconstructed query, the assistant reply with the rebuilt `call_1` call, and the tool result exactly for a successful call with output; the reply is the corrected one, with real line breaks |
| FineTune.ExampleOf | convert_logs_for_finetuning.go:124-145 | corrected: a record without a user query gets the reconstructed example, marked old format; one with a query but no reply gets none; otherwise the example as written, exactly when that succeeds, not marked old format |
| FineTune.ProcessLine | convert_logs_for_finetuning.go:104-156 | a line is blank exactly when it trims to nothing (the corrected version) |
| FineTune.ProcessLineAsWritten | convert_logs_for_finetuning.go:104-156 | the same, with `createFineTuningExample` as written |
| FineTune.FilteredLineIsSkipped | convert_logs_for_finetuning.go:117-121 | a record rated above 0 and below the minimum is skipped, not as old format, by both versions |
| FineTune.UnparsableLineIsSkipped | convert_logs_for_finetuning.go:110-115 | a non-blank line that does not parse as a record is skipped, not as old format, by both versions |
| FineTune.ConvertedLinePassedFilter | convert_logs_for_finetuning.go:110-156 | a converted line parsed, passed the filter, and its output is the encoding of the record's example, in both versions |
| FineTune.AsWrittenNeverReachesOldFormat | convert_logs_for_finetuning.go:124-145 | as written, no line is ever counted as old format |
| FineTune.OldFormatEntryHandling | convert_logs_for_finetuning.go:124-145 | a passing record without `user_query` is skipped as written, and reconstructed and written out as intended |
| FineTune.NewFormatUnchanged | convert_logs_for_finetuning.go:124-156 | records that carry both fields are treated alike by both versions |
| FineTune.ConvertLine | convert_logs_for_finetuning.go:104-156 | the loop body, with its `continue`s and the corrected `createFineTuningExample`, yields the reference `ProcessLine` |
| FineTune.TotalsAccount | convert_logs_for_finetuning.go:103-157 | every non-blank line adds one to `converted` or to `skipped`, and old-format lines are among them |
| FineTune.ConvertLog | convert_logs_for_finetuning.go:97-157 | the corrected loop's output and counters equal the reference `Totals`; converted plus skipped is the number of non-blank lines |

## Left out

- Process spawning, `bash -c`, the working directory and context deadlines (task.go 561-593)
  are the `Spawner` parameter. Only its three outcomes are modelled.
- Tools.DecideRunCommands: a non-positive timeout, or one whose `time.Duration` overflows, is
  passed to the spawner unchanged. What the deadline then does is not modelled.
- File system access is not modelled: `getLogPath`'s directory walk, `os.ReadFile` and
  `os.WriteFile`, and the converter's file handling and output buffering. The log file is its
  contents before and after.
- Task.LogOne: the file is taken as always rewritten. The code ignores `os.WriteFile`'s error,
  and a failed write, which would leave the old file, is not modelled.
- The inner workings of `encoding/json` are decoder and encoder parameters. This covers the
  log entries, the converter's records and examples, and the command object of the fallback
  path.
- The `Lossless` and `CommandObjectsRoundTrip` conditions state what the lemmas take from the
  codecs; they are not proved of Go's codec.
- Tools.BindRunParams: keys match exactly. Go's case-insensitive matching of struct field
  names is not modelled.
- Tools.BindRunParams: error texts for type mismatches approximate those of `encoding/json`.
  When several fields mismatch, the model reports the first field in declaration order, while
  Go reports the first one in the document. The same holds for Tools.BindEditParams.
- `time.Now` is the `clock` parameter. Reading standard input is the `keyboard` parameter, so
  only the pure part of `promptRating` is modelled.
- All printing is left out: progress, debug output, warnings, and the converter's summary.
  So is the line counter `lineNum`, which is used only in warnings.
- Not modelled: the chat request itself, the system prompt, the tool definitions, the debug
  mode, `RunTask`'s defaults, `NewTaskManager`, `getCurrentDirectory`, and the
  `CancelTask`/`ListTasks` stubs. The request and its transport are the `reply` parameter.
- The converter's argument loop (`--min-rating` through `fmt.Sscanf`, the output file name) is
  command-line handling and is left out. The minimum rating is a parameter.
- FineTune.ConvertLog: the converter's lines are given as a list. `bufio.Scanner`'s 64 KiB token
  limit, and its stripping of a final carriage return, are not modelled.
- Text.ToLower lower-cases ASCII letters only. Go's `strings.ToLower` also maps other Unicode
  letters, so neither the gate's verdict nor the allowlist decision on non-ASCII commands is
  covered. For example, Go lower-cases `İD` (capital I with a dot above, U+0130) to `id`, so
  the code auto-executes it, while the model keeps `İ` and does not.
- FineTune.ReconstructExample: the assistant reply is the corrected one with real line breaks
  (`CreateAssistantResponseIntended`). The reply as written, with backslash-`n` separators, is
  `CreateAssistantResponse`, and the two differ only in the separator.
- FineTune.ConvertLine, FineTune.ConvertLog: the loop is modelled with the corrected
  `createFineTuningExample`. The loop as written is `ProcessLineAsWritten` per line.
- FineTune.ParseModelResponse: `ModelResponse` and `Message` have the same JSON fields. The
  second parse therefore fails whenever the first does, and it is modelled with the same
  decoder.

## Findings

| source | as written | input that shows it | evidently intended | confidence | as-written member | corrected member |
|---|---|---|---|---|---|---|
| convert_logs_for_finetuning.go:174-176 | `createFineTuningExample` returns an error when `user_query` or `model_response` is empty, so the caller's old-format branch at lines 131-145 is never reached | a record with a passing rating and an empty `user_query`, which is any line the CLI writes | such a record counts as old format and is reconstructed from its tool call and written out | not executed | FineTune.OldFormatEntryHandling | FineTune.CreateFineTuningExampleIntended |
| convert_logs_for_finetuning.go:320-326 | the formats are raw strings, so each `\n` puts a backslash and an `n` into the reply | any record: the header is followed by the two characters `\` and `n` (FineTune.AssistantResponseAsWrittenKeepsBackslashes) | real line breaks around the tool call and the result, as in the tool message at line 225; the tool call then starts on its own line (FineTune.AssistantResponseIntendedBreaksLines) | not executed | FineTune.CreateAssistantResponse | FineTune.CreateAssistantResponseIntended |
