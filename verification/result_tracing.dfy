/**
 Properties of the log entries a result emits: the execution-frame stack
 mirrors the value-frame stack once the root command is recorded, so every
 entry's depth is the number of scopes pushed above the root; and the human
 format indents by two spaces per level.
 */
module ResultTracing {
  import opened Wrappers
  import opened Values
  import opened Constants
  import opened Results

  /** Logging is on and the execution frames are exactly the root command
      plus one frame per pushed scope. */
  predicate Traced(r: Res) {
    Logging(r) && |r.tracing.value.stack| == |r.path| + 1
  }

  /** A result set up as the dispatcher does it (logger configured, root
      command recorded) is traced, and its entries are the root's: depth 0,
      the root command's name, no slot key. */
  lemma StartTracing(sequence: string, format: LogFormat, cmd: string, msg: Value, kind: Kind)
    ensures var r := RootCommand(ConfigureLogger(New(), true, sequence, format), cmd);
      && Valid(r) && Traced(r) && |r.path| == 0
      && var e := BuildLog(r.tracing.value, msg, kind);
         e.depth == 0 && e.cmd == cmd && e.key.None? && e.sequence == sequence
  {
  }

  /** Pushing a non-nil slot opens one level: entries emitted inside carry
      the child's command name, its slot key, and a depth one greater than
      the parent's. */
  lemma PushOpensLevel(r: Res, k: Value, cmd: string, msg: Value, kind: Kind)
    requires Valid(r) && Traced(r) && CanPush(r, k) && Truthy(k)
    ensures Traced(Push(r, k, cmd))
    ensures var e := BuildLog(Push(r, k, cmd).tracing.value, msg, kind);
      && e.depth == |r.path| + 1
      && e.depth == BuildLog(r.tracing.value, msg, kind).depth + 1
      && e.cmd == cmd && e.key == Some(k)
  {
  }

  /** A child run under a nil slot pushes nothing, so its entries are
      stamped with the parent's command, depth and key. */
  lemma NilSlotLogsAsParent(r: Res, cmd: string, msg: Value, kind: Kind)
    requires Valid(r) && Traced(r)
    ensures Traced(Push(r, Nil, cmd))
    ensures BuildLog(Push(r, Nil, cmd).tracing.value, msg, kind) == BuildLog(r.tracing.value, msg, kind)
  {
  }

  /** Popping a non-nil slot closes the level the matching push opened. */
  lemma PopClosesLevel(r: Res, k: Value)
    requires Valid(r) && Traced(r) && Truthy(k) && |r.path| > 0
    ensures Traced(Pop(r, k))
    ensures |Pop(r, k).path| == |r.path| - 1
  {
  }

  /** The depth stamped on an entry of a traced result is the number of
      scopes pushed, so root entries (and only they) have depth 0. */
  lemma EntryDepthIsNesting(r: Res, msg: Value, kind: Kind)
    requires Valid(r) && Traced(r)
    ensures BuildLog(r.tracing.value, msg, kind).depth == |r.path|
    ensures BuildLog(r.tracing.value, msg, kind).depth == 0 <==> |r.path| == 0
  {
  }

  lemma UnpaddedAppend(a: string, b: string)
    requires Unpadded(a) && Unpadded(b)
    ensures Unpadded(a + b)
  {
    if |a| == 0 {
      assert a + b == b;
    } else {
      assert (a + b)[0] == a[0];
    }
  }

  /** The text the human format indents, before padding. */
  function HumanText(cmd: string, kind: Kind, msg: Value): string
    requires HumanPrintable(kind, msg)
  {
    if kind == CommandInput then cmd + ": " + Show(msg)
    else if kind == CommandOutput then "output: " + Show(msg)
    else Show(msg)
  }

  /** The human format indents an input line by two spaces per level and
      every other line by one level more; stripping the indentation gives
      back the text. A falsy message of any other kind gives no line. */
  lemma HumanLogIndentation(depth: nat, cmd: string, kind: Kind, msg: Value)
    requires HumanPrintable(kind, msg)
    requires Unpadded(cmd)
    requires kind != CommandInput && kind != CommandOutput && Truthy(msg) ==> Unpadded(msg.s)
    ensures var line := FormatHumanLog(depth, cmd, kind, msg);
      && (line.None? <==> (kind != CommandInput && kind != CommandOutput && !Truthy(msg)))
      && (line.Some? ==>
            var pad := if kind == CommandInput then 2 * depth else 2 * depth + 2;
            && LeadingSpaces(line.value) == pad
            && line.value[pad..] == HumanText(cmd, kind, msg))
  {
    var line := FormatHumanLog(depth, cmd, kind, msg);
    if kind == CommandInput {
      UnpaddedAppend(cmd, ": " + Show(msg));
      assert cmd + ": " + Show(msg) == cmd + (": " + Show(msg));
      RJustPadding(HumanText(cmd, kind, msg), |HumanText(cmd, kind, msg)| + 2 * depth);
    } else if kind == CommandOutput {
      RJustPadding(HumanText(cmd, kind, msg), |HumanText(cmd, kind, msg)| + 2 * depth + 2);
    } else if Truthy(msg) {
      RJustPadding(msg.s, |Show(msg)| + 2 * depth + 2);
    }
  }

  /** End to end: in the human format, the line a traced result hands to the
      logger is indented by two spaces per pushed scope (plus one level for
      anything but the command input line). */
  lemma HumanLineIndentsByNesting(r: Res, level: Level, msg: Value, kind: Kind)
    requires Valid(r) && Traced(r) && r.tracing.value.format == Human
    requires CanEmit(r, kind, msg)
    requires Unpadded(r.tracing.value.stack[|r.tracing.value.stack| - 1].cmd)
    requires kind != CommandInput && kind != CommandOutput && Truthy(msg) ==> Unpadded(msg.s)
    requires kind == CommandInput || kind == CommandOutput || Truthy(msg)
    ensures var sink := Emit(r, level, msg, kind).tracing.value.sink;
      && |sink| > 0
      && sink[|sink| - 1].line.Text?
      && sink[|sink| - 1].line.text.Some?
      && LeadingSpaces(sink[|sink| - 1].line.text.value) ==
           (if kind == CommandInput then 2 * |r.path| else 2 * |r.path| + 2)
  {
    var t := r.tracing.value;
    var e := BuildLog(t, msg, kind);
    HumanLogIndentation(|r.path|, e.cmd, kind, EntryMsg(e));
  }
}
