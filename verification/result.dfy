/**
 The result of a tree of commands (`ActionCommand::Result`).

 It holds the outcome (a result code and the last error), a stack of value
 frames that nested commands write their outputs into, and, once a logger
 is configured, a parallel stack of `{key, cmd}` execution frames used to
 stamp every log entry with its sequence id, depth, command and slot key.

 In the source every pushed frame is the very hash object stored under the
 push key in its parent, so writes to it show up in the parent. The model
 keeps that aliasing explicit: the frames form one tree (`root`), and the
 stack of frames is the list of keys (`path`) leading from the root to the
 current frame.
 */
module Results {
  import opened Wrappers
  import opened Values
  import opened Constants

  /** `:human` selects the indented text format; anything else is JSON. */
  datatype LogFormat = Json | Human

  /** One execution frame (`{ key:, cmd: }`): the slot key the command was
      pushed under (nil for the root command) and the command's class name. */
  datatype Frame = Frame(key: Value, cmd: string)

  /** A log entry as `build_log` assembles it. `key` and `msg` are absent
      from the hash when they are falsy. */
  datatype LogEntry = LogEntry(sequence: string, cmd: string, depth: int,
                               key: Option<Value>, kind: Kind, msg: Option<Value>)

  /** What `format_log` hands to the logger: the entry itself in the JSON
      format, or a human-readable line (which can be nil). */
  datatype Line = Structured(entry: LogEntry) | Text(text: Option<string>)

  /** The logger method called: `info` or `error`. */
  datatype Level = InfoLevel | ErrorLevel

  datatype Emitted = Emitted(level: Level, line: Line)

  /** The logging half of a result, present once a logger is configured:
      the sequence id, the format, the execution-frame stack and the lines
      handed to the logger so far. */
  datatype Tracing = Tracing(sequence: string, format: LogFormat, stack: seq<Frame>, sink: seq<Emitted>)

  /** The result object. */
  datatype Res = Res(code: int, lastError: Value, root: Value, path: seq<Value>,
                     tracing: Option<Tracing>)

  // ---------------------------------------------------------------------
  // The frame tree
  // ---------------------------------------------------------------------

  /** Following `path` from `v` only ever passes through hashes. */
  predicate ValidPath(v: Value, path: seq<Value>)
    decreases |path|
  {
    && v.Hash?
    && (|path| == 0 ||
        (HasKey(v.entries, path[0]) && ValidPath(Lookup(v.entries, path[0]), path[1..])))
  }

  /** The frame reached from `v` along `path`. */
  function FrameAt(v: Value, path: seq<Value>): (f: Value)
    requires ValidPath(v, path)
    ensures f.Hash?
    decreases |path|
  {
    if |path| == 0 then v else FrameAt(Lookup(v.entries, path[0]), path[1..])
  }

  /** Extending a path by one key reaches the hash stored under that key. */
  lemma {:induction false} FrameAtAppend(v: Value, path: seq<Value>, k: Value)
    requires ValidPath(v, path)
    ensures ValidPath(v, path + [k]) <==>
      (HasKey(FrameAt(v, path).entries, k) && Lookup(FrameAt(v, path).entries, k).Hash?)
    ensures ValidPath(v, path + [k]) ==>
      FrameAt(v, path + [k]) == Lookup(FrameAt(v, path).entries, k)
    decreases |path|
  {
    if |path| == 0 {
      assert (path + [k])[1..] == [];
    } else {
      assert (path + [k])[0] == path[0];
      assert (path + [k])[1..] == path[1..] + [k];
      FrameAtAppend(Lookup(v.entries, path[0]), path[1..], k);
    }
  }

  /** A prefix of a valid path is valid. */
  lemma {:induction false} ValidPathPrefix(v: Value, path: seq<Value>, n: nat)
    requires ValidPath(v, path) && n <= |path|
    ensures ValidPath(v, path[..n])
    decreases n
  {
    if n > 0 {
      assert path[..n][0] == path[0];
      assert path[..n][1..] == path[1..][..n - 1];
      ValidPathPrefix(Lookup(v.entries, path[0]), path[1..], n - 1);
    }
  }

  /** Writes `key => val` into the frame at the end of `path`. Every frame on
      the way stores the updated child under the same key, which is how a
      write to a pushed frame becomes visible from its parents. */
  function WriteAt(v: Value, path: seq<Value>, key: Value, val: Value): (r: Value)
    requires ValidPath(v, path)
    ensures ValidPath(r, path)
    ensures FrameAt(r, path) == Hash(Store(FrameAt(v, path).entries, key, val))
    ensures |path| > 0 ==> Keys(r.entries) == Keys(v.entries)
    ensures |path| > 0 ==> forall j :: j != path[0] ==> Lookup(r.entries, j) == Lookup(v.entries, j)
    decreases |path|
  {
    if |path| == 0 then Hash(Store(v.entries, key, val))
    else
      var child := WriteAt(Lookup(v.entries, path[0]), path[1..], key, val);
      Hash(Store(v.entries, path[0], child))
  }

  /** A write at the end of `path` changes an ancestor frame only in the
      entry that leads towards the current frame: the ancestor keeps its keys,
      and every other entry keeps its value. */
  lemma {:induction false} WriteAtOnlyTouchesPath(v: Value, path: seq<Value>, key: Value, val: Value, n: nat)
    requires ValidPath(v, path) && n < |path|
    ensures ValidPath(v, path[..n]) && ValidPath(WriteAt(v, path, key, val), path[..n])
    ensures var before := FrameAt(v, path[..n]);
            var after := FrameAt(WriteAt(v, path, key, val), path[..n]);
            && Keys(after.entries) == Keys(before.entries)
            && forall j :: j != path[n] ==> Lookup(after.entries, j) == Lookup(before.entries, j)
    decreases n
  {
    ValidPathPrefix(v, path, n);
    ValidPathPrefix(WriteAt(v, path, key, val), path, n);
    if n > 0 {
      var child := Lookup(v.entries, path[0]);
      WriteAtOnlyTouchesPath(child, path[1..], key, val, n - 1);
      assert path[..n][1..] == path[1..][..n - 1];
      assert path[1..][n - 1] == path[n];
    }
  }

  // ---------------------------------------------------------------------
  // The result object
  // ---------------------------------------------------------------------

  /** The frames are all hashes along the current path. */
  predicate Valid(r: Res) {
    ValidPath(r.root, r.path)
  }

  /** `current`: the frame on top of the value stack. */
  function Current(r: Res): (f: Value)
    requires Valid(r)
    ensures f.Hash?
  {
    FrameAt(r.root, r.path)
  }

  /** `logging?` */
  predicate Logging(r: Res) {
    r.tracing.Some?
  }

  /** `ok?`: the code is still the OK code. */
  predicate Ok(r: Res) {
    r.code == ResultCodeOk
  }

  /** `Result.new`: ok, no error, a single empty frame, no logger. */
  function New(): (r: Res)
    ensures Valid(r) && Ok(r) && !Logging(r)
    ensures r.lastError == Nil
    ensures |r.path| == 0 && Current(r) == Hash([])
  {
    Res(ResultCodeOk, Nil, Hash([]), [], None)
  }

  /** `configure_logger(logger, format)`; `hasLogger` is false for a nil
      logger, and `sequence` is the freshly minted sequence id. */
  function ConfigureLogger(r: Res, hasLogger: bool, sequence: string, format: LogFormat): (r': Res)
    ensures !hasLogger ==> r' == r
    ensures hasLogger ==> r'.tracing == Some(Tracing(sequence, format, [], []))
    ensures r'.root == r.root && r'.path == r.path && r'.code == r.code
  {
    if !hasLogger then r
    else r.(tracing := Some(Tracing(sequence, format, [], [])))
  }

  /** `root_command(cls)`: seeds the execution-frame stack with the root
      command, under no key. */
  function RootCommand(r: Res, cmd: string): (r': Res)
    ensures !Logging(r) ==> r' == r
    ensures Logging(r) ==> (Logging(r') &&
      r'.tracing.value.stack == r.tracing.value.stack + [Frame(Nil, cmd)])
    ensures r'.root == r.root && r'.path == r.path
  {
    match r.tracing
    case None => r
    case Some(t) => r.(tracing := Some(t.(stack := t.stack + [Frame(Nil, cmd)])))
  }

  // ---------------------------------------------------------------------
  // Scopes: push, pop, and the current frame
  // ---------------------------------------------------------------------

  /** What `push` needs: a value already stored under the key is a hash
      (the source pushes whatever is stored there and later treats it as one). */
  predicate CanPush(r: Res, key: Value)
    requires Valid(r)
  {
    Truthy(key) && HasKey(Current(r).entries, key) ==> Lookup(Current(r).entries, key).Hash?
  }

  /** `push(key, cmd)`. A nil key changes nothing. Otherwise the new current
      frame is the hash already stored under `key` in the current frame, or
      a fresh empty hash installed there; either way it is the object the
      parent holds under `key`. */
  function Push(r: Res, key: Value, cmd: string): (r': Res)
    requires Valid(r) && CanPush(r, key)
    ensures Valid(r')
    ensures !Truthy(key) ==> r' == r
    ensures Truthy(key) ==> r'.path == r.path + [key]
    ensures Truthy(key) ==> (ValidPath(r'.root, r.path) &&
      var cur := Current(r);
      var parent := FrameAt(r'.root, r.path);
      && (HasKey(cur.entries, key) ==> parent == cur && Current(r') == Lookup(cur.entries, key))
      && (!HasKey(cur.entries, key) ==>
            parent == Hash(Store(cur.entries, key, Hash([]))) && Current(r') == Hash([]))
      && Lookup(parent.entries, key) == Current(r'))
    ensures Truthy(key) && Logging(r) ==> (Logging(r') &&
      r'.tracing.value.stack == r.tracing.value.stack + [Frame(key, cmd)])
    ensures Truthy(key) && !Logging(r) ==> r'.tracing == r.tracing
    ensures r'.code == r.code && r'.lastError == r.lastError
  {
    if !Truthy(key) then r
    else
      var cur := Current(r);
      var root := if HasKey(cur.entries, key) then r.root else WriteAt(r.root, r.path, key, Hash([]));
      assert ValidPath(root, r.path);
      FrameAtAppend(root, r.path, key);
      var tracing := match r.tracing
        case None => None
        case Some(t) => Some(t.(stack := t.stack + [Frame(key, cmd)]));
      r.(root := root, path := r.path + [key], tracing := tracing)
  }

  /** What `pop` needs: a non-nil key pops a frame that was pushed. */
  predicate CanPop(r: Res, key: Value) {
    Truthy(key) ==> |r.path| > 0
  }

  /** `pop(key)`. A nil key changes nothing; any other key drops exactly one
      value frame (and one execution frame when logging), whatever the key. */
  function Pop(r: Res, key: Value): (r': Res)
    requires Valid(r) && CanPop(r, key)
    ensures Valid(r')
    ensures !Truthy(key) ==> r' == r
    ensures Truthy(key) ==> r'.root == r.root && r'.path == r.path[..|r.path| - 1]
    ensures Truthy(key) && Logging(r) ==> (Logging(r') &&
      var s := r.tracing.value.stack;
      r'.tracing.value.stack == (if |s| == 0 then s else s[..|s| - 1]))
    ensures Truthy(key) && !Logging(r) ==> r'.tracing == r.tracing
    ensures r'.code == r.code && r'.lastError == r.lastError
  {
    if !Truthy(key) then r
    else
      ValidPathPrefix(r.root, r.path, |r.path| - 1);
      var tracing := match r.tracing
        case None => None
        case Some(t) => Some(t.(stack := if |t.stack| == 0 then t.stack else t.stack[..|t.stack| - 1]));
      r.(path := r.path[..|r.path| - 1], tracing := tracing)
  }

  /** `result[key] = val`: writes the current frame only. */
  function Set(r: Res, key: Value, val: Value): (r': Res)
    requires Valid(r)
    ensures Valid(r') && r'.path == r.path && r'.tracing == r.tracing
    ensures r'.code == r.code && r'.lastError == r.lastError
    ensures Lookup(Current(r').entries, key) == val
    ensures forall j :: j != key ==> Lookup(Current(r').entries, j) == Lookup(Current(r).entries, j)
    ensures forall j :: HasKey(Current(r').entries, j) <==> HasKey(Current(r).entries, j) || j == key
  {
    r.(root := WriteAt(r.root, r.path, key, val))
  }

  /** `result[key]`: reads the current frame (nil when absent). */
  function Get(r: Res, key: Value): Value
    requires Valid(r)
  {
    Lookup(Current(r).entries, key)
  }

  /** `result.key?(key)`: looks in the current frame only. */
  predicate Contains(r: Res, key: Value)
    requires Valid(r)
  {
    HasKey(Current(r).entries, key)
  }

  /** `result[key] = val` followed by `result[key]` gives `val` back; other
      keys read as before; `key?` answers true for `key` and as before for
      the rest. */
  lemma SetThenGet(r: Res, key: Value, val: Value, other: Value)
    requires Valid(r) && other != key
    ensures Get(Set(r, key, val), key) == val && Contains(Set(r, key, val), key)
    ensures Get(Set(r, key, val), other) == Get(r, other)
    ensures Contains(Set(r, key, val), other) <==> Contains(r, other)
  {
  }

  // ---------------------------------------------------------------------
  // Building and formatting log entries
  // ---------------------------------------------------------------------

  /** `build_log(msg, kind)`: stamps a message with the sequence id, the
      command on top of the execution-frame stack, the depth below the root,
      the slot key when there is one and the message when there is one. */
  function BuildLog(t: Tracing, msg: Value, kind: Kind): (e: LogEntry)
    requires |t.stack| > 0
    ensures e.sequence == t.sequence && e.kind == kind
    ensures e.depth == |t.stack| - 1 && e.depth >= 0
    ensures e.cmd == t.stack[|t.stack| - 1].cmd
    ensures e.key.Some? <==> Truthy(t.stack[|t.stack| - 1].key)
    ensures e.key.Some? ==> e.key.value == t.stack[|t.stack| - 1].key
    ensures e.msg.Some? <==> Truthy(msg)
    ensures e.msg.Some? ==> e.msg.value == msg
  {
    var top := t.stack[|t.stack| - 1];
    LogEntry(t.sequence, top.cmd, |t.stack| - 1,
             if Truthy(top.key) then Some(top.key) else None,
             kind,
             if Truthy(msg) then Some(msg) else None)
  }

  /** The human format can print the message: input and output entries
      interpolate it, every other kind calls `rjust` on it, which only a
      string has. */
  predicate HumanPrintable(kind: Kind, msg: Value) {
    kind == CommandInput || kind == CommandOutput || !Truthy(msg) || msg.Str?
  }

  /** `format_human_log(depth, cmd, kind, msg)`: the command input line is
      indented by two spaces per level, the output line and any other
      message one level further; a falsy message of another kind gives nil. */
  function FormatHumanLog(depth: int, cmd: string, kind: Kind, msg: Value): Option<string>
    requires HumanPrintable(kind, msg)
  {
    var base := 2 * depth;
    var extra := base + 2;
    if kind == CommandInput then
      var text := cmd + ": " + Show(msg);
      Some(RJust(text, |text| + base))
    else if kind == CommandOutput then
      var text := "output: " + Show(msg);
      Some(RJust(text, |text| + extra))
    else if Truthy(msg) then
      Some(RJust(msg.s, |Show(msg)| + extra))
    else None
  }

  /** The message an entry carries, nil when it has none (`msg[:msg]`). */
  function EntryMsg(e: LogEntry): Value {
    if e.msg.Some? then e.msg.value else Nil
  }

  /** What the entry's message needs for the configured format. */
  predicate Formattable(t: Tracing, e: LogEntry) {
    t.format == Human ==> HumanPrintable(e.kind, EntryMsg(e))
  }

  /** `format_log(msg)` */
  function FormatLog(t: Tracing, e: LogEntry): Line
    requires Formattable(t, e)
  {
    if t.format == Human then Text(FormatHumanLog(e.depth, e.cmd, e.kind, EntryMsg(e)))
    else Structured(e)
  }

  /** What emitting a message needs once a logger is set: an execution frame
      to stamp it with (the source reads `@stack.last[:cmd]`), and a message
      the format can print. */
  predicate CanEmit(r: Res, kind: Kind, msg: Value) {
    r.tracing.Some? ==>
      && |r.tracing.value.stack| > 0
      && (r.tracing.value.format == Human ==> HumanPrintable(kind, msg))
  }

  /** Builds, formats and hands one entry to the logger; without a logger
      nothing happens. */
  function Emit(r: Res, level: Level, msg: Value, kind: Kind): (r': Res)
    requires CanEmit(r, kind, msg)
    ensures !Logging(r) ==> r' == r
    ensures Logging(r') == Logging(r)
    ensures Logging(r) ==> (
      var t := r.tracing.value;
      var t' := r'.tracing.value;
      && t'.sequence == t.sequence && t'.format == t.format && t'.stack == t.stack
      && |t'.sink| == |t.sink| + 1 && t'.sink[..|t.sink|] == t.sink
      && t'.sink[|t.sink|] == Emitted(level, FormatLog(t, BuildLog(t, msg, kind))))
    ensures r'.root == r.root && r'.path == r.path
    ensures r'.code == r.code && r'.lastError == r.lastError
  {
    match r.tracing
    case None => r
    case Some(t) =>
      var e := BuildLog(t, msg, kind);
      assert EntryMsg(e) == (if Truthy(msg) then msg else Nil);
      r.(tracing := Some(t.(sink := t.sink + [Emitted(level, FormatLog(t, e))])))
  }

  /** Hands one entry to the logger, or raises where the source does: with
      no execution frame `build_log` reads `nil[:cmd]`, and the human format
      calls `rjust` on a message of another kind that is not a string. */
  function TryEmit(r: Res, level: Level, msg: Value, kind: Kind): (o: Result<Res, string>)
    ensures o.Failure? <==> !CanEmit(r, kind, msg)
    ensures o.Success? ==> o.value == Emit(r, level, msg, kind)
  {
    if CanEmit(r, kind, msg) then Success(Emit(r, level, msg, kind))
    else if |r.tracing.value.stack| == 0 then Failure("NoMethodError: undefined method `[]' for nil")
    else Failure("NoMethodError: undefined method `rjust'")
  }

  /** `msg || yield`: the message given, or else the block's value; `None`
      when the message is falsy and no block was given, where `yield`
      raises `LocalJumpError`. */
  function Yielded(msg: Value, block: Option<Value>): (m: Option<Value>)
    ensures Truthy(msg) ==> m == Some(msg)
    ensures !Truthy(msg) ==> m == block
  {
    if Truthy(msg) then Some(msg) else block
  }

  /** One more line at `level` went to the logger when there is one, and
      nothing else changed. */
  predicate LoggedOnce(r: Res, r': Res, level: Level) {
    && r'.root == r.root && r'.path == r.path && r'.code == r.code && r'.lastError == r.lastError
    && (!Logging(r) ==> r' == r)
    && (Logging(r) ==>
          && Logging(r')
          && var sink := r.tracing.value.sink;
             var sink' := r'.tracing.value.sink;
             |sink'| == |sink| + 1 && sink'[..|sink|] == sink && sink'[|sink|].level == level)
  }

  /** Where `info` and `debug` raise: only with a logger, when `msg || yield`
      has nothing to yield to, or when the entry cannot be emitted. */
  predicate YieldRaises(r: Res, msg: Value, block: Option<Value>, kind: Kind) {
    Logging(r) && (Yielded(msg, block).None? || !CanEmit(r, kind, Yielded(msg, block).value))
  }

  /** `info(msg) { ... }`; `block` is the block's value, `None` without one. */
  function LogInfo(r: Res, msg: Value, block: Option<Value>): (o: Result<Res, string>)
    ensures o.Failure? <==> YieldRaises(r, msg, block, Info)
    ensures o.Success? ==> LoggedOnce(r, o.value, InfoLevel)
  {
    if !Logging(r) then Success(r)
    else match Yielded(msg, block)
      case None => Failure("LocalJumpError: no block given (yield)")
      case Some(m) => TryEmit(r, InfoLevel, m, Info)
  }

  /** `debug(msg) { ... }`: a debug entry, handed to the logger's `info`. */
  function LogDebug(r: Res, msg: Value, block: Option<Value>): (o: Result<Res, string>)
    ensures o.Failure? <==> YieldRaises(r, msg, block, Debug)
    ensures o.Success? ==> LoggedOnce(r, o.value, InfoLevel)
  {
    if !Logging(r) then Success(r)
    else match Yielded(msg, block)
      case None => Failure("LocalJumpError: no block given (yield)")
      case Some(m) => TryEmit(r, InfoLevel, m, Debug)
  }

  /** `error(msg)`: an error entry, handed to the logger's `error`. */
  function LogError(r: Res, msg: Value): (o: Result<Res, string>)
    ensures o.Failure? <==> !CanEmit(r, Error, msg)
    ensures o.Success? ==> LoggedOnce(r, o.value, ErrorLevel)
  {
    TryEmit(r, ErrorLevel, msg, Error)
  }

  /** The entry `info`, `debug` and `error` build carries the kind of the
      call and the message `msg || yield` gave (absent when that is falsy);
      without a message and a block, `info` and `debug` raise. */
  lemma LogKinds(r: Res, msg: Value, block: Option<Value>)
    requires Logging(r) && |r.tracing.value.stack| > 0
    requires r.tracing.value.format == Json
    ensures Yielded(msg, block).None? ==> LogInfo(r, msg, block).Failure? && LogDebug(r, msg, block).Failure?
    ensures var t := r.tracing.value;
      && LogError(r, msg).Success?
      && LogError(r, msg).value.tracing.value.sink[|t.sink|].line == Structured(BuildLog(t, msg, Error))
      && (Yielded(msg, block).Some? ==>
            && LogInfo(r, msg, block).Success?
            && LogInfo(r, msg, block).value.tracing.value.sink[|t.sink|].line ==
                 Structured(BuildLog(t, Yielded(msg, block).value, Info))
            && LogDebug(r, msg, block).Success?
            && LogDebug(r, msg, block).value.tracing.value.sink[|t.sink|].line ==
                 Structured(BuildLog(t, Yielded(msg, block).value, Debug)))
  {
  }

  // ---------------------------------------------------------------------
  // Outcome
  // ---------------------------------------------------------------------

  /** `failed(msg)`: records the FAILED code and the message, and logs it as
      an error. Frames are untouched. */
  function Failed(r: Res, msg: Value): (o: Result<Res, string>)
    ensures o.Failure? <==> !CanEmit(r, Error, msg)
    ensures o.Success? ==> var r' := o.value;
      && !Ok(r') && r'.code == ResultCodeFailed && r'.lastError == msg
      && r'.root == r.root && r'.path == r.path
      && Logging(r') == Logging(r)
      && (Logging(r) ==> (|r'.tracing.value.sink| == |r.tracing.value.sink| + 1 &&
            r'.tracing.value.sink[|r.tracing.value.sink|].level == ErrorLevel))
  {
    LogError(r.(code := ResultCodeFailed, lastError := msg), msg)
  }

  /** `failed_with_code(msg, code)`: records exactly the given code, so the
      result is ok afterwards only if that code is the OK code. */
  function FailedWithCode(r: Res, msg: Value, code: int): (o: Result<Res, string>)
    ensures o.Failure? <==> !CanEmit(r, Error, msg)
    ensures o.Success? ==> var r' := o.value;
      && r'.code == code && r'.lastError == msg
      && (Ok(r') <==> code == ResultCodeOk)
      && r'.root == r.root && r'.path == r.path
      && Logging(r') == Logging(r)
      && (Logging(r) ==> (|r'.tracing.value.sink| == |r.tracing.value.sink| + 1 &&
            r'.tracing.value.sink[|r.tracing.value.sink|].level == ErrorLevel))
  {
    LogError(r.(code := code, lastError := msg), msg)
  }

  // ---------------------------------------------------------------------
  // Command input and output
  // ---------------------------------------------------------------------

  /** `params.reject { |k, _v| internal_key?(k) }`: insertion order kept. */
  function DropInternal(es: seq<Entry>): (r: seq<Entry>)
    ensures forall e :: e in r <==> e in es && !InternalKey(e.key)
    ensures SubsequenceOf(r, es)
  {
    if |es| == 0 then []
    else
      var rest := DropInternal(es[1..]);
      assert es == [es[0]] + es[1..];
      if InternalKey(es[0].key) then rest
      else
        assert ([es[0]] + rest)[1..] == rest;
        [es[0]] + rest
  }

  /** `current.reject { |k, v| v.is_a?(Hash) || internal_key?(k) }`: the
      first-level outputs in insertion order; sub-frames are logged by their
      own commands. */
  function FirstLevel(es: seq<Entry>): (r: seq<Entry>)
    ensures forall e :: e in r <==> e in es && !e.val.Hash? && !InternalKey(e.key)
    ensures SubsequenceOf(r, es)
  {
    if |es| == 0 then []
    else
      var rest := FirstLevel(es[1..]);
      assert es == [es[0]] + es[1..];
      if es[0].val.Hash? || InternalKey(es[0].key) then rest
      else
        assert ([es[0]] + rest)[1..] == rest;
        [es[0]] + rest
  }

  /** `log_input(params)`: one command-input entry holding the parameters
      without the framework's own keys, in their order; nothing without a
      logger. It raises only when no execution frame was recorded. */
  function LogInput(r: Res, params: seq<Entry>): (o: Result<Res, string>)
    ensures o.Failure? <==> Logging(r) && |r.tracing.value.stack| == 0
    ensures !Logging(r) ==> o == Success(r)
    ensures o.Success? && Logging(r) ==>
      var t := r.tracing.value;
      var r' := o.value;
      && Logging(r') && r'.root == r.root && r'.path == r.path && r'.code == r.code
      && |r'.tracing.value.sink| == |t.sink| + 1
      && var e := BuildLog(t, Hash(DropInternal(params)), CommandInput);
         && r'.tracing.value.sink[|t.sink|] == Emitted(InfoLevel, FormatLog(t, e))
         && e.kind == CommandInput && e.msg.Some?
         && SubsequenceOf(e.msg.value.entries, params)
         && forall x :: x in e.msg.value.entries <==> x in params && !InternalKey(x.key)
  {
    if !Logging(r) then Success(r)
    else TryEmit(r, InfoLevel, Hash(DropInternal(params)), CommandInput)
  }

  /** `log_output`: one command-output entry holding the current frame's
      entries except hash values and the framework's own keys, in their
      order. It raises only when no execution frame was recorded. */
  function LogOutput(r: Res): (o: Result<Res, string>)
    requires Valid(r)
    ensures o.Failure? <==> Logging(r) && |r.tracing.value.stack| == 0
    ensures !Logging(r) ==> o == Success(r)
    ensures o.Success? && Logging(r) ==>
      var t := r.tracing.value;
      var r' := o.value;
      && Logging(r') && r'.root == r.root && r'.path == r.path && r'.code == r.code
      && |r'.tracing.value.sink| == |t.sink| + 1
      && var e := BuildLog(t, Hash(FirstLevel(Current(r).entries)), CommandOutput);
         && r'.tracing.value.sink[|t.sink|] == Emitted(InfoLevel, FormatLog(t, e))
         && e.kind == CommandOutput && e.msg.Some?
         && SubsequenceOf(e.msg.value.entries, Current(r).entries)
         && forall x :: x in e.msg.value.entries <==>
              x in Current(r).entries && !x.val.Hash? && !InternalKey(x.key)
  {
    if !Logging(r) then Success(r)
    else TryEmit(r, InfoLevel, Hash(FirstLevel(Current(r).entries)), CommandOutput)
  }
}
