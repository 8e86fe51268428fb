/**
 `Executable`: a command object. It is created from its arguments (which
 sets its `parent`, its `test` hook and its declared inputs, and validates
 them in the test context), executes a body against a result, and then has
 its outputs checked.
 */
module Executable {
  import opened Wrappers
  import opened Values
  import opened Constants
  import opened Results
  import opened Contexts
  import opened InputOutput

  /** `initialize(args)`: a fresh command of class `cls` receives its
      arguments through `process_input`. */
  function Initialize(cls: string, io: Io, args: seq<Entry>): (r: Result<Value, string>)
    ensures r.Success? ==> r.value.Exe? && r.value.cls == cls
    ensures r.Success? ==> r.value.parent == Lookup(args, Sym("parent")) && r.value.test == Lookup(args, Sym("test"))
  {
    var start := Exe(cls, Nil, Nil, []);
    var r := ProcessInput(io, start, args);
    ProcessInputEffect(io, start, args, Sym("parent"));
    ProcessInputEffect(io, start, args, Sym("test"));
    r
  }

  /** A command created with arguments holds each declared input the
      arguments give, and nothing else beyond `parent` and `test`. */
  lemma InitializeTakesInputs(cls: string, io: Io, args: seq<Entry>, sym: Value)
    requires Initialize(cls, io, args).Success?
    requires sym != Sym("parent") && sym != Sym("test")
    ensures var c := Initialize(cls, io, args).value;
      && (Declares(io.inputs, sym) && HasKey(args, sym) ==> Attribute(c, sym) == Lookup(args, sym))
      && (!(Declares(io.inputs, sym) && HasKey(args, sym)) ==> Attribute(c, sym) == Nil)
  {
    ProcessInputEffect(io, Exe(cls, Nil, Nil, []), args, sym);
  }

  /** Started in the test context without a required input, creating the
      command raises `ArgumentError` naming that input. */
  lemma TestMissingInputRaises(cls: string, io: Io, args: seq<Entry>)
    requires Lookup(args, Sym("parent")) == Sym(ContextTest)
    requires |io.inputs| > 0 && Unmet(io.inputs[0], args)
    ensures Initialize(cls, io, args) ==
      Failure("You must specify the required input " + Show(io.inputs[0].symbol))
  {
    var d := Exe(cls, Nil, Nil, []).(parent := Lookup(args, Sym("parent")), test := Lookup(args, Sym("test")));
    RootContextAtRoot(d, ContextTest);
    MissingRequiredInputRaises(io, d, args, 0);
  }

  /** Outside the test context nothing is validated: a command started from
      another context symbol is created whatever arguments it is given. */
  lemma OtherContextsDoNotValidate(cls: string, io: Io, args: seq<Entry>, name: string)
    requires Lookup(args, Sym("parent")) == Sym(name) && name != ContextTest
    ensures Initialize(cls, io, args).Success?
  {
    var d := Exe(cls, Nil, Nil, []).(parent := Lookup(args, Sym("parent")), test := Lookup(args, Sym("test")));
    RootContextAtRoot(d, name);
    ProcessInputEffect(io, Exe(cls, Nil, Nil, []), args, Sym("parent"));
  }

  /** A child created by a command in the test context is validated too. */
  lemma ChildOfTestCommandValidates(cls: string, io: Io, args: seq<Entry>, parent: Value)
    requires parent.Exe? && parent.parent == Sym(ContextTest)
    requires Lookup(args, Sym("parent")) == parent
    requires |io.inputs| > 0 && Unmet(io.inputs[0], args)
    ensures Initialize(cls, io, args).Failure?
  {
    var d := Exe(cls, Nil, Nil, []).(parent := Lookup(args, Sym("parent")), test := Lookup(args, Sym("test")));
    TestGroupContexts(parent, d);
    ProcessInputEffect(io, Exe(cls, Nil, Nil, []), args, Sym("parent"));
  }

  /** `execute(result)`: runs the command's body on the result, checks the
      declared outputs, and hands back the same result. */
  function Execute(io: Io, cmd: Value, body: (Value, Res) -> Res, r: Res): (out: Result<Res, string>)
    requires cmd.Exe? && Valid(body(cmd, r))
    ensures out.Success? ==> out.value == body(cmd, r)
    ensures out.Failure? <==> ProcessOutput(io, cmd, body(cmd, r)).Failure?
  {
    var after := body(cmd, r);
    match ProcessOutput(io, cmd, after)
    case Failure(e) => Failure(e)
    case Success(_) => Success(after)
  }

  /** In the test context a body that leaves a required output unset makes
      `execute` raise; a body that sets every required output passes. */
  lemma TestOutputsChecked(io: Io, cmd: Value, body: (Value, Res) -> Res, r: Res)
    requires cmd.Exe? && cmd.parent == Sym(ContextTest) && Valid(body(cmd, r))
    ensures Execute(io, cmd, body, r).Failure? <==>
      exists i :: 0 <= i < |io.outputs| && !IsOptional(io.outputs[i]) && !Contains(body(cmd, r), io.outputs[i].symbol)
  {
    RootContextAtRoot(cmd, ContextTest);
  }

  /** `testing { |t| ... }`: the block runs on the test hook only when one
      was given. */
  function Testing<T>(cmd: Value, block: Value -> T): (r: Option<T>)
    requires cmd.Exe?
    ensures r.Some? <==> Truthy(cmd.test)
    ensures r.Some? ==> r.value == block(cmd.test)
  {
    if Truthy(cmd.test) then Some(block(cmd.test)) else None
  }

  /** The inputs the pretty-print action declares: a required `source`, and
      an optional `sequence` filter and `dest` stream. */
  function PrettyPrintLogIo(): (io: Io)
    ensures DeclaredKeys(io) == [Sym("source"), Sym("sequence"), Sym("dest")]
  {
    var io0 := NewIo("ActionCommand::PrettyPrintLogAction", "Command that does some logging");
    var io1 := Input(io0, Sym("source"), "Stream to read", []);
    var io2 := Input(io1, Sym("sequence"), "sequence to filter on", OptionalOpts());
    var io3 := Input(io2, Sym("dest"), "Optional output stream, defaults to STDOUT", OptionalOpts());
    InputAppendsKey(io0, Sym("source"), "Stream to read", []);
    InputAppendsKey(io1, Sym("sequence"), "sequence to filter on", OptionalOpts());
    InputAppendsKey(io2, Sym("dest"), "Optional output stream, defaults to STDOUT", OptionalOpts());
    io3
  }

  /** In the test context the pretty-print action can be created exactly
      when a `source` is given; the filter and the destination may be left
      out. */
  lemma PrettyPrintNeedsOnlySource(args: seq<Entry>)
    requires Lookup(args, Sym("parent")) == Sym(ContextTest)
    ensures Initialize("ActionCommand::PrettyPrintLogAction", PrettyPrintLogIo(), args).Success?
        <==> !Missing(Lookup(args, Sym("source")))
  {
    var io := PrettyPrintLogIo();
    var start := Exe("ActionCommand::PrettyPrintLogAction", Nil, Nil, []);
    var d := start.(parent := Lookup(args, Sym("parent")), test := Lookup(args, Sym("test")));
    RootContextAtRoot(d, ContextTest);
    ProcessInputEffect(io, start, args, Sym("parent"));
    assert Lookup(OptionalOpts(), Sym("optional")) == Bool(true);
    assert IsOptional(io.inputs[1]) && IsOptional(io.inputs[2]) && !IsOptional(io.inputs[0]);
  }
}
