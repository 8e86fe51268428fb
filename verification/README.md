# action_command, modelled in Dafny

This project models the core of the Ruby gem `action_command`: command
objects whose declared inputs and outputs are checked in the test context,
the result object that commands write into and log through, the reader
that parses the gem's log lines back, and the action that pretty-prints a
log grouped by execution sequence.

Modules, one per concept, in dependency order:

- `Wrappers`: `Option` and `Result` (a `Failure` is an exception the
  source raises).
- `Values`: the Ruby values the gem passes around (nil, booleans,
  integers, strings, symbols, classes, arrays, insertion-ordered hashes and
  command objects), with hash lookup and store, `==`, `to_s`, `inspect`
  and `rjust`.
- `Constants`: log kinds, result codes and context symbols.
- `Results` (`result.rb`): the frame stack of values and `push`, `pop`,
  `[]=`, `[]` and `key?`; failure codes; and log entries as `build_log` and
  `format_log` make them. A logger is a sink of emitted lines.
- `ResultScopes` and `ResultTracing`: how nested child commands use the
  frame stack and the execution stack of a result.
- `LogParser` (`log_parser.rb`): `LogMessage` and its comparisons; the
  line pattern `--\s+:\s+({.*})`, modelled character by character; the
  `next` loop. JSON decoding is a parameter.
- `LogRoundTrip`: what the reader makes of an entry the result wrote.
- `PrettyPrint` (`pretty_print_log_action.rb`): grouping messages into
  per-sequence buffers, flushing a buffer on its root output, and the
  printed lines.
- `Contexts` (`executable.rb` lines 15-41): the root context found by
  following `parent` links.
- `InputOutput` (`input_output.rb`): parameter declarations, input
  validation and assignment, output checks, the rake argument copy, help
  text.
- `Executable` (`executable.rb`): creating and executing a command.

Where a public Ruby method would raise (`NoMethodError` on nil,
`LocalJumpError` from `yield` without a block, `ArgumentError`,
`JSON::ParserError`), the model returns a `Failure`. It keeps a
precondition instead only for the members named under "## Left out".

`should_validate` (input_output.rb:24-28) is documented as "true if the
executable is not in a testing context", but it returns `test_context?`.
The model follows the code and validates in the test context only.
`print_cmd_input` (pretty_print_log_action.rb:87-93) prints a heading as
the command, plus ` (sequence)` at the root, with no trailing colon.

## Model

| member | source | states |
|---|---|---|
| Results.New | lib/action_command/result.rb:8-13 | A new result is ok, has no last error and no logger, and its only frame is an empty hash, which is the current frame. |
| Results.ConfigureLogger | lib/action_command/result.rb:16-22 | A nil logger changes nothing. Otherwise logging starts with the given sequence id and format and an empty execution stack. The values and the result code are kept. |
| Results.RootCommand | lib/action_command/result.rb:147-149 | Without a logger nothing changes. With one, a frame with no slot key for the root command goes on top of the execution stack. The values are untouched. |
| Results.Push | lib/action_command/result.rb:86-96 | A nil key changes nothing. Otherwise the path grows by the key. A hash already stored under the key becomes the current frame; if there is none, an empty hash is stored under the key (its position kept or appended) and becomes current. With a logger the execution stack gains `{key, cmd}`. |
| Results.Pop | lib/action_command/result.rb:99-103 | A nil key changes nothing. Any other key drops exactly one value frame, whatever the key, plus one execution frame when logging. No frame's contents change. |
| Results.Set | lib/action_command/result.rb:111-113 | `[]=` writes into the current frame only. The key then reads back the value, every other key reads as before, and the key set grows by that key alone. |
| Results.SetThenGet | lib/action_command/result.rb:111-128 | `[]` after `[]=` returns the stored value and `key?` answers true for it. Other keys answer `[]` and `key?` as before the write. |
| Results.WriteAt | lib/action_command/result.rb:111-113 | A write through the path of pushed keys changes the frame at the end of the path by a hash store. Below the top frame, the top frame keeps its keys in order and changes only the entry on the path. |
| Results.WriteAtOnlyTouchesPath | lib/action_command/result.rb:88-113 | A write changes each ancestor frame only in the entry that leads towards the current frame. Since a pushed frame is the same object as its parent's entry, a child's writes are seen through the parent. |
| Results.BuildLog | lib/action_command/result.rb:164-175 | Given an execution frame, an entry carries the result's sequence, the top execution frame's command, and depth = stack size − 1. The slot key is present exactly when the frame's key is truthy, and the message exactly when it is truthy. |
| Results.Emit | lib/action_command/result.rb:158-162 | Without a logger nothing changes. With one, exactly one formatted line is appended at the given level. Earlier lines, the stacks and the values are untouched. |
| Results.LogInfo | lib/action_command/result.rb:40-45 | Without a logger `info` does nothing, even without a message or block. With one, it raises exactly when the message is falsy and no block is given, when no execution frame was recorded, or when the human format meets a non-string message. Otherwise it hands exactly one line to the logger's `info` and changes nothing else. |
| Results.LogDebug | lib/action_command/result.rb:31-36 | `debug` raises in the same cases as `info`. Otherwise it also goes through the logger's `info`, not a debug level. |
| Results.LogError | lib/action_command/result.rb:48-53 | `error` raises exactly when a logger is set and the entry cannot be built or formatted. Otherwise it hands exactly one line to the logger's `error` and changes nothing else. |
| Results.LogKinds | lib/action_command/result.rb:31-53 | The entry of `info`, `debug` and `error` carries its own kind. Its message is `msg` when truthy, otherwise the block's value. With neither, `info` and `debug` raise. |
| Results.Failed | lib/action_command/result.rb:58-62 | `failed` raises exactly when `error` would. Otherwise, after it the result is not ok, its code is the failure code and its last error is the message. The values are untouched, and when logging one error-level line is written. |
| Results.FailedWithCode | lib/action_command/result.rb:68-72 | It raises exactly when `error` would. Otherwise the result takes the given code and error. It stays ok exactly when the code is the OK code. One error-level line is written when logging. |
| Results.DropInternal | lib/action_command/result.rb:131-135 | The logged input holds exactly the parameters whose key is not `:logger`, `:test` or `:parent`, in their insertion order. |
| Results.FirstLevel | lib/action_command/result.rb:138-144 | The logged output holds exactly the current frame's entries that are not hashes and whose key is not reserved, in their insertion order. |
| Results.LogInput | lib/action_command/result.rb:131-135 | Without a logger nothing happens. With one, it raises exactly when no execution frame was recorded. Otherwise one info line of kind command_input is written, and its message holds exactly the non-reserved parameters, in order. |
| Results.LogOutput | lib/action_command/result.rb:138-144 | Without a logger nothing happens. With one, it raises exactly when no execution frame was recorded. Otherwise one info line of kind command_output is written, and its message holds exactly the current frame's non-hash, non-reserved entries, in order. Sub-command frames are left to their own output lines. |
| ResultScopes.WriteAtKeepsAncestors | lib/action_command/result.rb:111-113 | A write keeps every frame above the current one apart from the entry on the path. |
| ResultScopes.PushKeepsAncestors | lib/action_command/result.rb:86-96 | `push` changes no frame above the current one except by installing the new slot. |
| ResultScopes.RunStep | lib/action_command/result.rb:86-113 | A well-nested run of writes and child calls returns to the same path, execution stack, code and error. It keeps every ancestor frame apart from the entries on the path. |
| ResultScopes.CallChangesOnlyItsSlot | lib/action_command/result.rb:86-103 | A child run under a non-nil slot returns to the frame current before its push, with the same execution frames. That frame now holds a hash under the slot; every other entry and key is untouched. |
| ResultScopes.SiblingSlotsExample | lib/action_command/result.rb:86-96 | Children under different slots keep separate sub-frames: `{0 => {a => 1}, 1 => {a => 2}}`. |
| ResultScopes.SameSlotAccumulatesExample | lib/action_command/result.rb:89-90 | A second push of the same slot reuses its hash, so writes accumulate: `{0 => {a => 1, b => 2}}`. |
| ResultTracing.StartTracing | lib/action_command/result.rb:147-149 | Once the root command is recorded, entries have depth 0, the root command's name, no slot key, and the configured sequence. |
| ResultTracing.PushOpensLevel | lib/action_command/result.rb:86-96 | Entries inside a pushed non-nil slot carry the child's command and key, at one level deeper than the parent's. |
| ResultTracing.NilSlotLogsAsParent | lib/action_command/result.rb:86-87 | Under a nil slot, entries are stamped exactly as the parent's. |
| ResultTracing.PopClosesLevel | lib/action_command/result.rb:99-103 | `pop` closes the level the matching `push` opened, keeping the two stacks in step. |
| ResultTracing.EntryDepthIsNesting | lib/action_command/result.rb:164-170 | The depth of an entry is the number of pushed scopes, so it is 0 exactly for the root command. |
| ResultTracing.HumanLogIndentation | lib/action_command/result.rb:187-199 | The human format indents an input line by two spaces per level, and every other line one level more. Removing the indent gives back the text. A falsy message of another kind gives no line. |
| ResultTracing.HumanLineIndentsByNesting | lib/action_command/result.rb:177-199 | End to end, the human line for an entry is indented by two spaces per pushed scope, plus one level for anything but the input line. |
| Values.Store | lib/action_command/result.rb:111-113 | Hash assignment: the key reads back the value and other keys are unchanged. An existing key keeps its position; a new key goes last. |
| Values.RJustPadding | lib/action_command/result.rb:192-197 | `s.rjust(width)` is `s` with `width - |s|` spaces in front, or `s` itself when it is already as wide. |
| LogParser.Populate | lib/action_command/log_parser.rb:11-19 | Each field of the message is the payload's value under the field's string name, nil when absent. The line is kept. |
| LogParser.MatchesMessage | lib/action_command/log_parser.rb:53-61 | `match_message?` raises exactly when a non-empty hash is matched against a stored message that is not a hash. A non-hash argument is compared with `==`, and an empty hash matches anything. |
| LogParser.MatchesMessageHash | lib/action_command/log_parser.rb:53-61 | `match_message?` with a hash holds exactly when every entry of the argument, with symbol keys turned into strings, is stored with an equal value. The stored message may hold more. |
| LogParser.MatchEntriesIsSubset | lib/action_command/log_parser.rb:55-60 | The loop over the argument's entries is the subset test, from any starting entry on. |
| LogParser.KindSymbolOrString | lib/action_command/log_parser.rb:41-44 | `kind?` answers the same for a symbol and for the string of the same name. |
| LogParser.CaptureShape | lib/action_command/log_parser.rb:97 | A match starts with `--`. The capture is a brace block without a newline, and no `}` follows it on the line. |
| LogParser.FirstMatch | lib/action_command/log_parser.rb:97 | `scan` finds the leftmost position where the pattern matches, or none at all. |
| LogParser.Scan | lib/action_command/log_parser.rb:97 | The capture is a `{...}` block on one line. There is none exactly when the pattern matches nowhere. |
| LogParser.HeaderDoesNotMatch | lib/action_command/log_parser.rb:97 | A logger header without `--` holds no match. |
| LogParser.SeparatorCaptures | lib/action_command/log_parser.rb:97 | At the logger's `-- : ` separator the pattern captures the brace block that runs to the end of the line. |
| LogParser.LoggerLineRoundTrip | lib/action_command/log_parser.rb:97 | A line written as `<header>-- : <payload>`, with or without its newline, gives back exactly the payload. |
| LogParser.NoSecondMatch | lib/action_command/log_parser.rb:97-100 | On a single line nothing matches after the end of a match. So `scan` yields at most once per line. |
| LogParser.Classify | lib/action_command/log_parser.rb:94-100 | A line the pattern does not match is skipped, and every payload a line yields has a `sequence` key. |
| LogParser.NewParser | lib/action_command/log_parser.rb:69-72 | A parser starts at the first line with the given filter. |
| LogParser.NextAsWritten | lib/action_command/log_parser.rb:80-90 | The reader as written: the stream only advances, and every answer other than end of stream consumes at least one line. |
| LogParser.Next | lib/action_command/log_parser.rb:80-90 | The corrected reader: each message it yields passes the filter and was populated from the line just read. |
| LogParser.ReadAll | lib/action_command/log_parser.rb:80-90 | The corrected loop yields only messages of the filtered sequence, at most one per line. |
| LogParser.ReadAllAsWritten | lib/action_command/log_parser.rb:80-90 | The loop as written yields at most one message per line. |
| LogParser.ReadAllIsKeptPayloads | lib/action_command/log_parser.rb:80-90 | The corrected reader yields exactly the populated messages of the payloads that pass the filter, in stream order. It raises exactly at the first payload that does not decode to a hash. |
| LogParser.ReadAllAsWrittenIsOnePerPayload | lib/action_command/log_parser.rb:84-87 | The reader as written yields one message per sequenced payload, filtered or not. Those the filter rejects are left empty. |
| LogParser.KeptWithoutFilter | lib/action_command/log_parser.rb:85 | With no filter, every payload is kept. |
| LogParser.ReadersAgreeWithoutFilter | lib/action_command/log_parser.rb:85 | With no filter, the reader as written and the corrected reader agree. |
| LogParser.OtherSequenceLine | lib/action_command/log_parser.rb:97-99 | A logger line whose payload decodes to `{sequence: "B"}` is a sequenced payload. |
| LogParser.FilteredReadYieldsBlank | lib/action_command/log_parser.rb:84-87 | Read with filter "A", a line of sequence "B" makes the reader as written yield one empty message. The corrected reader yields nothing. |
| LogParser.UnselectedPayloadIsBlank | lib/action_command/log_parser.rb:84-87 | In general, a stream whose only payload fails the filter gives one empty message as written and none when corrected. |
| LogRoundTrip.EntryPayload | lib/action_command/result.rb:164-175 | The hash `build_log` makes, after the JSON round trip. |
| LogRoundTrip.EntryPayloadFields | lib/action_command/result.rb:166-173 | The round-tripped entry holds every field under its name. The slot key and message are present exactly when the entry had them. |
| LogRoundTrip.SymbolHashRoundTrip | lib/action_command/log_parser.rb:53-61 | After the round trip, a hash with symbol keys and scalar values is found entry by entry under the string form of its keys. |
| LogRoundTrip.EntryReadsBack | lib/action_command/log_parser.rb:11-50 | The reader gives back the logged sequence, command and depth. `root?` holds exactly at depth 0, `kind?` holds for the logged kind and no other, and `command?` holds for the command's class. |
| LogRoundTrip.KindReadsBack | lib/action_command/log_parser.rb:41-44 | A kind read back answers `kind?` for its own kind only. |
| LogRoundTrip.MessageReadsBack | lib/action_command/log_parser.rb:53-61 | A logged string or symbol hash satisfies `match_message?` once read back. |
| LogRoundTrip.OwnSequenceSelected | lib/action_command/log_parser.rb:85 | Filtering on the sequence an entry was logged under keeps it. |
| PrettyPrint.FindBuffer | lib/action_command/pretty_print_log_action.rb:48 | The lookup of a sequence's buffer finds the first buffer with that id, or reports that none exists. |
| PrettyPrint.ProcessOther | lib/action_command/pretty_print_log_action.rb:47-50 | The message is appended to its sequence's buffer, which is created last on first use. Every other buffer is unchanged. |
| PrettyPrint.ProcessOtherWellFormed | lib/action_command/pretty_print_log_action.rb:47-50 | `process_other` keeps one non-empty buffer per sequence, holding only that sequence's messages. |
| PrettyPrint.ProcessOtherBuffers | lib/action_command/pretty_print_log_action.rb:47-50 | Only the message's own sequence gains it, at the end. |
| PrettyPrint.Remove | lib/action_command/pretty_print_log_action.rb:54 | Deleting a buffer keeps the others in order. |
| PrettyPrint.ProcessOutput | lib/action_command/pretty_print_log_action.rb:52-57 | A root output with no open buffer raises (`<<` on nil). Otherwise exactly one group is flushed and one buffer closed. |
| PrettyPrint.RemoveWellFormed | lib/action_command/pretty_print_log_action.rb:54 | Deleting a buffer keeps the rest well formed. |
| PrettyPrint.RemoveBuffers | lib/action_command/pretty_print_log_action.rb:53-54 | After the delete, the removed sequence has no buffer and the others keep theirs. |
| PrettyPrint.ConsumeWellFormed | lib/action_command/pretty_print_log_action.rb:34-39 | Each turn keeps the buffers well formed and every flushed group closed by its root output. |
| PrettyPrint.ConsumeTracksId | lib/action_command/pretty_print_log_action.rb:34-39 | For each sequence, the flushed and buffered messages are exactly the messages read so far, in order. |
| PrettyPrint.CloseTracksId | lib/action_command/pretty_print_log_action.rb:52-57 | Flushing a buffer moves its messages, plus the output, to the flushed groups without reordering. |
| PrettyPrint.ConsumeTracks | lib/action_command/pretty_print_log_action.rb:34-39 | The per-sequence invariant holds for every sequence after each turn. |
| PrettyPrint.GroupAllWellFormed | lib/action_command/pretty_print_log_action.rb:34-41 | After the loop the buffers are well formed and the flushed groups closed. |
| PrettyPrint.GroupAllTracks | lib/action_command/pretty_print_log_action.rb:34-41 | After the loop the per-sequence invariant holds for the whole input. |
| PrettyPrint.GroupAllKeepsSequences | lib/action_command/pretty_print_log_action.rb:31-44 | Grouping loses, duplicates and reorders no message within a sequence. |
| PrettyPrint.Pad | lib/action_command/pretty_print_log_action.rb:107 | The padding is two spaces per level, and none for a depth of 0 or less. |
| PrettyPrint.PrintlnIndentation | lib/action_command/pretty_print_log_action.rb:106-109 | A printed line starts with exactly two spaces per level, followed by the unchanged text. |
| PrettyPrint.PrintMsg | lib/action_command/pretty_print_log_action.rb:95-104 | A string prints on one line and a hash or array on one line per element. Anything else raises (no `each`). Every line carries the level's padding. |
| PrettyPrint.PrintMsgHashLines | lib/action_command/pretty_print_log_action.rb:101-103 | Line i of a hash message is `k: v` for its i-th entry, indented two spaces per level. |
| PrettyPrint.Heading | lib/action_command/pretty_print_log_action.rb:88-89 | A non-root heading is the command itself. At the root, ` (sequence)` is appended to a string or an array; any other value raises. |
| PrettyPrint.PrintItem | lib/action_command/pretty_print_log_action.rb:71-80 | A message prints exactly when its depth is an integer, its message has `each`, and a root input has a string or array command. After the heading lines come the message lines, two levels deeper for an input and one level deeper otherwise. |
| PrettyPrint.PrintItemHead | lib/action_command/pretty_print_log_action.rb:82-92 | An input prints its heading at its level and `input:` one level deeper. An output prints `output:` at its level. |
| PrettyPrint.RootInputHeading | lib/action_command/pretty_print_log_action.rb:87-90 | A root input's heading is the command followed by ` (sequence)`. |
| PrettyPrint.Collect | lib/action_command/pretty_print_log_action.rb:66-68 | Printing in turn succeeds exactly when every item does. |
| PrettyPrint.PrintSequence | lib/action_command/pretty_print_log_action.rb:65-69 | A sequence prints exactly when every message in it is printable. |
| PrettyPrint.PrintSequenceAppend | lib/action_command/pretty_print_log_action.rb:65-69 | Printing two runs of messages is printing one, then the other. |
| PrettyPrint.LoopPrintsFlushed | lib/action_command/pretty_print_log_action.rb:34-41 | The loop groups as the pure grouping does. Its output so far is the printing of the flushed groups, in the order they were flushed. |
| PrettyPrint.PrettyPrintIsPrintedGroups | lib/action_command/pretty_print_log_action.rb:28-45 | The action prints every grouped message: flushed groups first, then open buffers in the order they were opened. It raises exactly when grouping raises or a grouped message cannot be printed. |
| PrettyPrint.PrettyPrintKeepsSequences | lib/action_command/pretty_print_log_action.rb:28-45 | The printed messages, per sequence, are exactly the messages read, in reading order. |
| PrettyPrint.ExecuteInternalFiltered | lib/action_command/pretty_print_log_action.rb:28-45 | With the corrected reader under a filter, every message the action prints carries the filtered sequence. |
| PrettyPrint.ExecuteInternalAsWrittenFiltered | lib/action_command/pretty_print_log_action.rb:28-45 | The action as written, when it succeeds under a filter, also read only messages of the filtered sequence: an empty message for another sequence makes it raise. |
| PrettyPrint.FilteredActionRaises | lib/action_command/pretty_print_log_action.rb:28-45 | A stream whose only payload fails the filter makes the action as written raise. The corrected reader prints nothing. |
| PrettyPrint.PrettyPrintEmpty | lib/action_command/pretty_print_log_action.rb:43-44 | Nothing read, nothing printed. |
| PrettyPrint.PrettyPrintBlankRaises | lib/action_command/pretty_print_log_action.rb:78 | An empty message cannot be printed, because its depth is nil. |
| PrettyPrint.GroupAllSnoc | lib/action_command/pretty_print_log_action.rb:34-41 | Grouping one more message is one more turn of the loop. |
| PrettyPrint.GroupFirst | lib/action_command/pretty_print_log_action.rb:48-49 | A first message that closes nothing opens its sequence's buffer. |
| PrettyPrint.GroupJoin | lib/action_command/pretty_print_log_action.rb:47-50 | A further message of the open sequence joins its buffer. |
| PrettyPrint.GroupClose | lib/action_command/pretty_print_log_action.rb:52-57 | The root output of the open sequence flushes the buffer with itself appended. |
| PrettyPrint.ParentChildCloses | lib/action_command/pretty_print_log_action.rb:35 | In a parent/child execution only the parent's output closes the sequence. |
| PrettyPrint.ParentChildGroups | lib/action_command/pretty_print_log_action.rb:34-41 | The execution is flushed whole and in order, and nothing stays open. |
| PrettyPrint.SingleExecutionPrinted | lib/action_command/pretty_print_log_action.rb:52-57 | A single completed execution is printed in the order it was logged. |
| PrettyPrint.OneEntryLine | lib/action_command/pretty_print_log_action.rb:101-103 | A one-entry hash prints as one `k: v` line. |
| PrettyPrint.RootInputLines | lib/action_command/pretty_print_log_action.rb:87-92 | A root input prints the command and its sequence unindented, `input:` one level in, and its message two levels in. |
| PrettyPrint.ChildInputLines | lib/action_command/pretty_print_log_action.rb:87-92 | A child input prints its command at its own level, `input:` one level deeper, and its message two levels deeper. |
| PrettyPrint.OutputLines | lib/action_command/pretty_print_log_action.rb:82-85 | An output prints `output:` at its level and its message one level deeper. |
| PrettyPrint.ParentChildSequence | lib/action_command/pretty_print_log_action.rb:65-69 | The execution's messages print message by message, in the order logged. |
| PrettyPrint.ParentChildPrinted | lib/action_command/pretty_print_log_action.rb:28-109 | The whole execution as printed: the parent's command and sequence unindented, and the child's lines one level below the parent's, between the parent's input and output. |
| Values.LeadingSpacesOfPadding | lib/action_command/pretty_print_log_action.rb:107-108 | Padding of n spaces before unpadded text gives exactly n leading spaces, and the text follows unchanged. |
| Contexts.RootContextAtRoot | lib/action_command/executable.rb:17-21 | A command whose parent is a context symbol has that context and is not a child. |
| Contexts.RootContextOfChild | lib/action_command/executable.rb:17-21 | A child command has its parent's context and is a child. |
| Contexts.ChainContext | lib/action_command/executable.rb:17-21 | Following parents up a chain of commands of any depth reaches the symbol at its end. |
| Contexts.InContext | lib/action_command/executable.rb:24-36 | A context query raises exactly when `root_context` does, and answers whether the root context is the one asked about. |
| Contexts.ContextsExclusive | lib/action_command/executable.rb:24-36 | A command is in at most one of the test, rake and rails contexts. |
| Contexts.TestGroupContexts | lib/action_command/executable.rb:24-41 | In a test run, a parent and its child are both in the test context. Only the child is a child, and neither is in the rake context. |
| InputOutput.NewIo | lib/action_command/input_output.rb:14-22 | A new description declares no inputs and no outputs. |
| InputOutput.Input | lib/action_command/input_output.rb:120-122 | `input` declares one more input after the existing ones. The outputs are unchanged. |
| InputOutput.Output | lib/action_command/input_output.rb:124-126 | `output` declares one more output after the existing ones. The inputs are unchanged. |
| InputOutput.DeclaredKeys | lib/action_command/input_output.rb:129-131 | `keys` lists one symbol per input, in position order. |
| InputOutput.InputAppendsKey | lib/action_command/input_output.rb:120-131 | Declaring an input adds its symbol at the end of `keys`. Declaring an output leaves `keys` alone. |
| InputOutput.FirstUnmet | lib/action_command/input_output.rb:34-44 | The loop stops at the first input that is both missing and required. None is found exactly when every input is given or optional. |
| InputOutput.ValidateInput | lib/action_command/input_output.rb:32-46 | Outside the test context, anything is accepted. Inside it, validation raises exactly when some required input is nil, false, `'*'` or `''`. |
| InputOutput.OnlyRequiredMissingInputsFail | lib/action_command/input_output.rb:37-43 | Missing optional inputs are accepted, and given inputs are never reported. |
| InputOutput.MissingRequiredInputRaises | lib/action_command/input_output.rb:41-43 | The `ArgumentError` names the first required input that is missing. |
| InputOutput.Assign | lib/action_command/input_output.rb:60-61 | The setter changes exactly the named attribute: `parent`, `test`, or a declared accessor. |
| InputOutput.AssignInputs | lib/action_command/input_output.rb:57-63 | Assigning inputs keeps the command's class. |
| InputOutput.AssignInputsEffect | lib/action_command/input_output.rb:57-63 | Each declared input present in the arguments takes the argument's value. Every other attribute keeps its value. |
| InputOutput.ProcessInput | lib/action_command/input_output.rb:50-64 | Processing inputs keeps the command's class. |
| InputOutput.ProcessInputEffect | lib/action_command/input_output.rb:50-64 | `parent` and `test` come from the arguments. Processing raises exactly when validation, judged with the new `parent`, raises. Otherwise the declared inputs given are assigned and nothing else changes. |
| InputOutput.FirstAbsent | lib/action_command/input_output.rb:70-76 | Finds a required output the result lacks, or reports that every output is present or optional. |
| InputOutput.ProcessOutput | lib/action_command/input_output.rb:67-77 | Outside the test context nothing is checked. Inside it, the check raises exactly when a required output is missing from the result's current frame. |
| InputOutput.RakeInputCopies | lib/action_command/input_output.rb:80-86 | Rake arguments with distinct keys are copied into a hash with the same pairs in the same order. |
| InputOutput.PrintOutput | lib/action_command/input_output.rb:89-95 | One line per declared output, starting `sym: `. An output the command never set prints nothing after the colon. |
| InputOutput.PrintOutputAfterSet | lib/action_command/input_output.rb:89-95 | After `result[sym] = v` for a declared output, its line is `sym: v`. The lines of outputs with other symbols are unchanged. |
| InputOutput.ParamLineMarksOptional | lib/action_command/input_output.rb:138-139 | A parameter's help line is its symbol and description. It is marked `(optional)` exactly when the parameter is optional. |
| InputOutput.PrintParams | lib/action_command/input_output.rb:135-142 | A title line, then one line per parameter in declaration order. |
| InputOutput.ShowHelp | lib/action_command/input_output.rb:108-112 | The help text starts with `name: description`, with one line per parameter and two titles. |
| InputOutput.ShowHelpListsParams | lib/action_command/input_output.rb:108-112 | Every input is listed under `Input:` and then every output under `Output:`, each on its own line, in declaration order. |
| InputOutput.Help | lib/action_command/input_output.rb:101-105 | A command without inputs raises (no first input). Otherwise `help?` holds exactly when the first input was given as `'help'`. |
| InputOutput.HelpReadsFirstInput | lib/action_command/input_output.rb:101-105 | `help?` looks only at the first declared input: declaring one more input never changes the answer of a command that already has inputs, and on a command without inputs the newly declared one decides it. |
| Executable.Initialize | lib/action_command/executable.rb:11-13 | A command created from its arguments has its class, and its `parent` and `test` from the arguments. |
| Executable.InitializeTakesInputs | lib/action_command/executable.rb:11-13 | A new command holds each declared input the arguments give. Every other attribute is nil. |
| Executable.TestMissingInputRaises | spec/action_command_spec.rb:47-49 | In the test context, creating a command whose first declared input is required and missing raises an `ArgumentError` that names that input. |
| Executable.OtherContextsDoNotValidate | lib/action_command/input_output.rb:32-33 | Started from any other context symbol, a command is created whatever its arguments. |
| Executable.ChildOfTestCommandValidates | lib/action_command/input_output.rb:26-28 | A child created by a command running in the test context is validated too. |
| Executable.Execute | lib/action_command/executable.rb:48-52 | `execute` returns the result the body produced. It raises exactly when the output check does. |
| Executable.TestOutputsChecked | spec/action_command_spec.rb:51-56 | In the test context, `execute` raises exactly when the body leaves a required output unset. |
| Executable.Testing | lib/action_command/executable.rb:58-60 | The block runs on the test hook exactly when one was given. |
| Executable.PrettyPrintLogIo | lib/action_command/pretty_print_log_action.rb:10-16 | The pretty-print action declares `source`, `sequence` and `dest`, in that order. |
| Executable.PrettyPrintNeedsOnlySource | lib/action_command/pretty_print_log_action.rb:12-14 | In the test context the action is created exactly when a source is given. The filter and the destination may be left out. |

## Left out

- JSON: `JSON.generate` and `JSON.parse` are not modelled. The reader takes a decoder parameter that returns `None` where parsing raises. `LogRoundTrip.Jsonify` states what the round trip does to the values this model cares about. Hash `inspect` escaping and key collisions after `to_s` are not modelled.
- `SecureRandom.hex`: the sequence id is a parameter of `ConfigureLogger`.
- Loggers, streams and `puts`: a logger is a list of emitted lines, a stream is a list of lines, and printing returns the lines. The Ruby logger's own header is modelled only as far as the line pattern needs (no `--` before the separator).
- Output before an exception: in the source, lines printed before a `NoMethodError` stay printed. The model returns a `Failure` and does not keep partial output.
- Error texts: the `Failure` messages mirror the Ruby exceptions but are not exact Ruby wording. `PrettyPrint.SingleExecutionPrinted` therefore relates success and printed lines, not the error text.
- `Results.Push`: requires that a truthy key is not already bound to a non-hash in the current frame. In the source such a push makes a non-hash the current frame, and later writes misbehave.
- `Results.Pop`: requires a pushed frame for a truthy key. Popping the root frame leaves the source with no current frame, and that is not modelled.
- `Results.BuildLog`: requires a non-empty execution stack, where the source raises `NoMethodError` on `nil[:cmd]`. `build_log` is private. The public members that call it (`LogInfo`, `LogDebug`, `LogError`, `Failed`, `FailedWithCode`, `LogInput`, `LogOutput`) return a `Failure` in that case.
- `Results.Emit`: requires what `TryEmit` reports as a `Failure`, namely a non-empty execution stack and, in the human format, a string message for kinds other than input and output. It is the private step behind the public members, which go through `TryEmit`.
- `Results.Failed`, `Results.FailedWithCode`: when `error` raises, the source has already set the code and the last error. The `Failure` carries no result, so that partly updated state is not modelled.
- `ResultScopes.RunStep`: gives `None` where a child's slot already holds a non-hash, instead of modelling the source's misbehaviour.
- `InputOutput.Assign`: `dest.send("#{sym}=", ...)` is modelled as an update of the command's attributes, assuming the class declares an accessor for every input. A missing accessor raises `NoMethodError` in the source.
- `Executable.Execute`: the command body is a pure function of the command and the result. Exceptions raised by the body itself are not modelled.
- `Executable.Testing`: the block is a pure function, and what it does to the test framework is not modelled.
- `lib/action_command.rb` defines only `CONTEXT_TEST = :test` and `CONTEXT_RAKE = :rake` (lines 7 and 10). `RESULT_CODE_OK`, `RESULT_CODE_FAILED`, the `LOG_KIND_*` constants and `CONTEXT_RAILS` are used (result.rb:9, 33, 59; executable.rb:30) without a value in this version of the gem. The model uses `command_input`, `command_output`, `info`, `debug`, `error`, the codes 0 and 1, and `:rails`, and the properties depend only on these values being distinct.
- `lib/action_command.rb` (the dispatcher: `execute_test`, `execute_rake`, `create_and_execute`, the child-command helpers) is not part of this model. Its role appears as the root context symbols and the scope discipline of `ResultScopes`.
- `executable_transaction.rb` and `utils.rb` (`find_object`) are not part of this model.
- `PrettyPrint.ParentChildPrinted` covers a parent/child execution for any command names, sequence and one-entry messages, not one fixed set of values.

## Findings

| source | as written | input that shows it | evidently intended | confidence | as-written member | corrected member |
|---|---|---|---|---|---|---|
| lib/action_command/log_parser.rb:84-87 | `next` returns true for every payload that has a `sequence`. It populates the message only when the payload passes the filter, so a rejected payload hands the caller an empty `LogMessage`. | A parser with sequence filter "A" reading one logger line whose payload is `{"sequence": "B"}`: `next` returns true and the message's depth is nil. The pretty-print loop then evaluates `item.depth + 1` and raises `NoMethodError`. | Payloads of other sequences are skipped like any other line, so `next` only returns true with a populated message of the filtered sequence. | not executed | LogParser.FilteredReadYieldsBlank | LogParser.ReadAllIsKeptPayloads |
