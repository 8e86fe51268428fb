/**
 `InputOutput`: the declared inputs and outputs of a command class, and the
 checks made against them when a command is created and when it finishes.
 Checks run only for a command in the test context.
 */
module InputOutput {
  import opened Wrappers
  import opened Values
  import opened Constants
  import opened Results
  import opened Contexts

  /** One declared parameter: `{ symbol:, desc:, opts: }`. */
  datatype Param = Param(symbol: Value, desc: string, opts: seq<Entry>)

  /** A command's description: the action's name, its description, and its
      inputs and outputs in declaration order. */
  datatype Io = Io(action: string, desc: string, inputs: seq<Param>, outputs: seq<Param>)

  /** `OPTIONAL`: the options marking a parameter optional. */
  function OptionalOpts(): seq<Entry> {
    [Entry(Sym("optional"), Bool(true))]
  }

  /** `opts[:optional]` */
  predicate IsOptional(p: Param) {
    Truthy(Lookup(p.opts, Sym("optional")))
  }

  /** `InputOutput.new(action, desc)`: nothing declared yet. */
  function NewIo(action: string, desc: string): (io: Io)
    ensures io.inputs == [] && io.outputs == []
  {
    Io(action, desc, [], [])
  }

  /** `input(sym, desc, opts)`: declares one more input, after the others. */
  function Input(io: Io, sym: Value, desc: string, opts: seq<Entry>): (r: Io)
    ensures r.outputs == io.outputs
    ensures |r.inputs| == |io.inputs| + 1 && r.inputs[..|io.inputs|] == io.inputs
    ensures r.inputs[|io.inputs|] == Param(sym, desc, opts)
  {
    io.(inputs := io.inputs + [Param(sym, desc, opts)])
  }

  /** `output(sym, desc, opts)`: declares one more output, after the others. */
  function Output(io: Io, sym: Value, desc: string, opts: seq<Entry>): (r: Io)
    ensures r.inputs == io.inputs
    ensures |r.outputs| == |io.outputs| + 1 && r.outputs[..|io.outputs|] == io.outputs
    ensures r.outputs[|io.outputs|] == Param(sym, desc, opts)
  {
    io.(outputs := io.outputs + [Param(sym, desc, opts)])
  }

  /** `keys`: the input symbols in declaration order. */
  function DeclaredKeys(io: Io): (ks: seq<Value>)
    ensures |ks| == |io.inputs|
    ensures forall i :: 0 <= i < |ks| ==> ks[i] == io.inputs[i].symbol
  {
    seq(|io.inputs|, i requires 0 <= i < |io.inputs| => io.inputs[i].symbol)
  }

  /** Declaring an input adds its symbol at the end of `keys`, so `keys`
      lists the inputs in the order they were declared. */
  lemma InputAppendsKey(io: Io, sym: Value, desc: string, opts: seq<Entry>)
    ensures DeclaredKeys(Input(io, sym, desc, opts)) == DeclaredKeys(io) + [sym]
    ensures DeclaredKeys(Output(io, sym, desc, opts)) == DeclaredKeys(io)
  {
    var r := Input(io, sym, desc, opts);
    assert forall i :: 0 <= i < |io.inputs| ==> r.inputs[i] == io.inputs[i];
  }

  // ---------------------------------------------------------------------
  // Validation
  // ---------------------------------------------------------------------

  /** `should_validate(dest)`: true exactly in the test context (the code
      does this whatever its doc comment says). */
  function ShouldValidate(dest: Value): Result<bool, string>
    requires dest.Exe?
  {
    IsTestContext(dest)
  }

  /** An argument counts as not given: nil or false, `'*'` or `''`. */
  predicate Missing(v: Value) {
    !Truthy(v) || v == Str("*") || v == Str("")
  }

  /** A declared input that must be given but is not. */
  predicate Unmet(p: Param, args: seq<Entry>) {
    Missing(Lookup(args, p.symbol)) && !IsOptional(p)
  }

  /** The first declared input that must be given but is not. */
  function FirstUnmet(ps: seq<Param>, args: seq<Entry>): (r: Option<nat>)
    ensures r.Some? ==> r.value < |ps| && Unmet(ps[r.value], args)
    ensures r.Some? ==> forall j :: 0 <= j < r.value ==> !Unmet(ps[j], args)
    ensures r.None? <==> forall j :: 0 <= j < |ps| ==> !Unmet(ps[j], args)
    decreases |ps|
  {
    if |ps| == 0 then None
    else if Unmet(ps[0], args) then Some(0)
    else match FirstUnmet(ps[1..], args)
      case None => None
      case Some(j) => Some(j + 1)
  }

  /** `validate_input(dest, args)`: outside the test context it accepts
      anything; inside it raises `ArgumentError` naming the first required
      input that is missing. */
  function ValidateInput(io: Io, dest: Value, args: seq<Entry>): (r: Result<bool, string>)
    requires dest.Exe?
    ensures r.Success? ==> r.value
    ensures ShouldValidate(dest) == Success(false) ==> r == Success(true)
    ensures ShouldValidate(dest) == Success(true) ==>
      (r.Failure? <==> exists i :: 0 <= i < |io.inputs| && Unmet(io.inputs[i], args))
    ensures ShouldValidate(dest).Failure? ==> r.Failure?
  {
    match ShouldValidate(dest)
    case Failure(e) => Failure(e)
    case Success(validate) =>
      if !validate then Success(true)
      else match FirstUnmet(io.inputs, args)
        case None => Success(true)
        case Some(i) => Failure("You must specify the required input " + Show(io.inputs[i].symbol))
  }

  /** A missing optional input is accepted, and a given input is never
      reported, whatever its options. */
  lemma OnlyRequiredMissingInputsFail(io: Io, dest: Value, args: seq<Entry>)
    requires dest.Exe? && ShouldValidate(dest) == Success(true)
    requires forall i :: 0 <= i < |io.inputs| ==> IsOptional(io.inputs[i]) || !Missing(Lookup(args, io.inputs[i].symbol))
    ensures ValidateInput(io, dest, args) == Success(true)
  {
  }

  /** In the test context, a required input that was not given raises an
      `ArgumentError` that names the first such input. */
  lemma MissingRequiredInputRaises(io: Io, dest: Value, args: seq<Entry>, i: nat)
    requires dest.Exe? && ShouldValidate(dest) == Success(true)
    requires i < |io.inputs| && Unmet(io.inputs[i], args)
    requires forall j :: 0 <= j < i ==> !Unmet(io.inputs[j], args)
    ensures ValidateInput(io, dest, args) ==
      Failure("You must specify the required input " + Show(io.inputs[i].symbol))
  {
    var k := FirstUnmet(io.inputs, args);
    assert k.Some?;
  }

  // ---------------------------------------------------------------------
  // Assigning inputs
  // ---------------------------------------------------------------------

  /** The attribute `sym` of a command: `parent` and `test` are its own,
      the rest are the accessors its class declares. */
  function Attribute(cmd: Value, sym: Value): Value
    requires cmd.Exe?
  {
    if sym == Sym("parent") then cmd.parent
    else if sym == Sym("test") then cmd.test
    else Lookup(cmd.fields, sym)
  }

  /** `dest.send("#{sym}=", val)` */
  function Assign(cmd: Value, sym: Value, val: Value): (r: Value)
    requires cmd.Exe?
    ensures r.Exe? && r.cls == cmd.cls
    ensures Attribute(r, sym) == val
    ensures forall s :: s != sym ==> Attribute(r, s) == Attribute(cmd, s)
  {
    if sym == Sym("parent") then cmd.(parent := val)
    else if sym == Sym("test") then cmd.(test := val)
    else cmd.(fields := Store(cmd.fields, sym, val))
  }

  /** Whether some parameter is declared under `sym`. */
  predicate Declares(ps: seq<Param>, sym: Value) {
    exists i :: 0 <= i < |ps| && ps[i].symbol == sym
  }

  /** The loop of `process_input`: each declared input whose key is present
      in the arguments is assigned, in order. */
  function AssignInputs(cmd: Value, ps: seq<Param>, args: seq<Entry>): (r: Value)
    requires cmd.Exe?
    ensures r.Exe? && r.cls == cmd.cls
    decreases |ps|
  {
    if |ps| == 0 then cmd
    else
      var p := ps[|ps| - 1];
      var c := AssignInputs(cmd, ps[..|ps| - 1], args);
      if HasKey(args, p.symbol) then Assign(c, p.symbol, Lookup(args, p.symbol)) else c
  }

  /** After the loop, every declared input present in the arguments holds
      the argument's value; every attribute no input declares is untouched;
      and a declared input absent from the arguments keeps its value. */
  lemma {:induction false} AssignInputsEffect(cmd: Value, ps: seq<Param>, args: seq<Entry>, sym: Value)
    requires cmd.Exe?
    ensures Declares(ps, sym) && HasKey(args, sym) ==>
      Attribute(AssignInputs(cmd, ps, args), sym) == Lookup(args, sym)
    ensures !(Declares(ps, sym) && HasKey(args, sym)) ==>
      Attribute(AssignInputs(cmd, ps, args), sym) == Attribute(cmd, sym)
    decreases |ps|
  {
    if |ps| > 0 {
      var init := ps[..|ps| - 1];
      var p := ps[|ps| - 1];
      var c := AssignInputs(cmd, init, args);
      AssignInputsEffect(cmd, init, args, sym);
      DeclaresSnoc(ps, sym);
      if HasKey(args, p.symbol) {
        assert AssignInputs(cmd, ps, args) == Assign(c, p.symbol, Lookup(args, p.symbol));
      } else {
        assert AssignInputs(cmd, ps, args) == c;
      }
    }
  }

  /** A non-empty list declares `sym` when its prefix or its last item does. */
  lemma DeclaresSnoc(ps: seq<Param>, sym: Value)
    requires |ps| > 0
    ensures Declares(ps, sym) <==> Declares(ps[..|ps| - 1], sym) || ps[|ps| - 1].symbol == sym
  {
    var init := ps[..|ps| - 1];
    if Declares(init, sym) {
      var i :| 0 <= i < |init| && init[i].symbol == sym;
      assert ps[i].symbol == sym;
    }
    if Declares(ps, sym) && ps[|ps| - 1].symbol != sym {
      var i :| 0 <= i < |ps| && ps[i].symbol == sym;
      assert init[i].symbol == sym;
    }
  }

  /** `process_input(dest, args)`: the command takes `parent` and `test`
      from the arguments, is validated, and then receives its declared
      inputs. */
  function ProcessInput(io: Io, dest: Value, args: seq<Entry>): (r: Result<Value, string>)
    requires dest.Exe?
    ensures r.Success? ==> r.value.Exe? && r.value.cls == dest.cls
  {
    var d := dest.(parent := Lookup(args, Sym("parent")), test := Lookup(args, Sym("test")));
    match ValidateInput(io, d, args)
    case Failure(e) => Failure(e)
    case Success(_) => Success(AssignInputs(d, io.inputs, args))
  }

  /** What `process_input` leaves in the command: the declared inputs the
      arguments give, `parent` and `test` from the arguments, and every
      other attribute as it was. It raises exactly when validation does,
      which is judged with the new `parent`. */
  lemma ProcessInputEffect(io: Io, dest: Value, args: seq<Entry>, sym: Value)
    requires dest.Exe?
    ensures var d := dest.(parent := Lookup(args, Sym("parent")), test := Lookup(args, Sym("test")));
      ProcessInput(io, dest, args).Success? <==> ValidateInput(io, d, args).Success?
    ensures ProcessInput(io, dest, args).Success? ==>
      var c := ProcessInput(io, dest, args).value;
      && (Declares(io.inputs, sym) && HasKey(args, sym) ==> Attribute(c, sym) == Lookup(args, sym))
      && (sym == Sym("parent") || sym == Sym("test") ==> Attribute(c, sym) == Lookup(args, sym))
      && (!(Declares(io.inputs, sym) && HasKey(args, sym)) && sym != Sym("parent") && sym != Sym("test") ==>
            Attribute(c, sym) == Attribute(dest, sym))
  {
    var d := dest.(parent := Lookup(args, Sym("parent")), test := Lookup(args, Sym("test")));
    AssignInputsEffect(d, io.inputs, args, sym);
  }

  // ---------------------------------------------------------------------
  // Outputs, rake arguments and help
  // ---------------------------------------------------------------------

  /** A declared output that must be present but is not in the result's
      current frame. */
  predicate Absent(p: Param, r: Res)
    requires Valid(r)
  {
    !Contains(r, p.symbol) && !IsOptional(p)
  }

  /** The first required output the result lacks. */
  function FirstAbsent(ps: seq<Param>, r: Res): (k: Option<nat>)
    requires Valid(r)
    ensures k.Some? ==> k.value < |ps| && Absent(ps[k.value], r)
    ensures k.Some? ==> forall j :: 0 <= j < k.value ==> !Absent(ps[j], r)
    ensures k.None? <==> forall j :: 0 <= j < |ps| ==> !Absent(ps[j], r)
    decreases |ps|
  {
    if |ps| == 0 then None
    else if Absent(ps[0], r) then Some(0)
    else match FirstAbsent(ps[1..], r)
      case None => None
      case Some(j) => Some(j + 1)
  }

  /** `process_output(dest, result)`: in the test context, raises
      `ArgumentError` when a required output is missing from the result's
      current frame; elsewhere checks nothing. */
  function ProcessOutput(io: Io, dest: Value, r: Res): (out: Result<(), string>)
    requires dest.Exe? && Valid(r)
    ensures ShouldValidate(dest) == Success(false) ==> out.Success?
    ensures ShouldValidate(dest) == Success(true) ==>
      (out.Failure? <==> exists i :: 0 <= i < |io.outputs| && Absent(io.outputs[i], r))
    ensures ShouldValidate(dest).Failure? ==> out.Failure?
  {
    match ShouldValidate(dest)
    case Failure(e) => Failure(e)
    case Success(validate) =>
      if !validate then Success(())
      else match FirstAbsent(io.outputs, r)
        case None => Success(())
        case Some(i) => Failure("Missing required value " + Show(io.outputs[i].symbol) + " in output")
  }

  /** `rake_input(rake_arg)`: a hash with every pair of the task arguments. */
  function RakeInput(rakeArgs: seq<Entry>): (params: seq<Entry>)
  {
    FromPairs(rakeArgs)
  }

  /** The rake arguments are copied unchanged: with distinct keys the hash
      holds exactly the same pairs in the same order. */
  lemma {:induction false} RakeInputCopies(rakeArgs: seq<Entry>)
    requires DistinctKeys(rakeArgs)
    ensures RakeInput(rakeArgs) == rakeArgs
    decreases |rakeArgs|
  {
    if |rakeArgs| > 0 {
      var init := rakeArgs[..|rakeArgs| - 1];
      var last := rakeArgs[|rakeArgs| - 1];
      assert DistinctKeys(init);
      RakeInputCopies(init);
      assert !HasKey(init, last.key) by {
        forall j | 0 <= j < |init| ensures init[j].key != last.key {
          assert rakeArgs[j] == init[j];
        }
        NoKeyNoIndex(init, last.key);
      }
      assert init + [last] == rakeArgs;
    }
  }

  /** A key carried by no entry is not found. */
  lemma {:induction false} NoKeyNoIndex(es: seq<Entry>, k: Value)
    requires forall j :: 0 <= j < |es| ==> es[j].key != k
    ensures !HasKey(es, k)
    decreases |es|
  {
    if |es| > 0 {
      NoKeyNoIndex(es[1..], k);
    }
  }

  /** `print_output(result)`: one line `sym: value` per declared output,
      read from the result's current frame. An output the command never set
      reads as nil and prints with nothing after the colon. */
  function PrintOutput(io: Io, r: Res): (lines: seq<string>)
    requires Valid(r)
    ensures |lines| == |io.outputs|
    ensures forall i :: 0 <= i < |lines| ==> Show(io.outputs[i].symbol) + ": " <= lines[i]
    ensures forall i :: 0 <= i < |lines| && !Contains(r, io.outputs[i].symbol) ==>
      lines[i] == Show(io.outputs[i].symbol) + ": "
  {
    seq(|io.outputs|, i requires 0 <= i < |io.outputs| => OutputLine(io.outputs[i].symbol, Get(r, io.outputs[i].symbol)))
  }

  function OutputLine(sym: Value, val: Value): string {
    Show(sym) + ": " + Show(val)
  }

  /** The value a command stores under a declared output is what
      `print_output` shows for it; the lines of other outputs stay as they
      were. */
  lemma PrintOutputAfterSet(io: Io, r: Res, i: nat, val: Value)
    requires Valid(r) && i < |io.outputs|
    ensures var sym := io.outputs[i].symbol;
      && PrintOutput(io, Set(r, sym, val))[i] == Show(sym) + ": " + Show(val)
      && forall j :: 0 <= j < |io.outputs| && io.outputs[j].symbol != sym ==>
           PrintOutput(io, Set(r, sym, val))[j] == PrintOutput(io, r)[j]
  {
    var sym := io.outputs[i].symbol;
    forall j | 0 <= j < |io.outputs|
      ensures PrintOutput(io, Set(r, sym, val))[j] ==
        OutputLine(io.outputs[j].symbol, if io.outputs[j].symbol == sym then val else Get(r, io.outputs[j].symbol))
    {
      if io.outputs[j].symbol != sym {
        SetThenGet(r, sym, val, io.outputs[j].symbol);
      } else {
        assert Get(Set(r, sym, val), sym) == val;
      }
    }
  }

  /** The line `print_params` writes for one parameter. */
  function ParamLine(p: Param): string {
    var head := "    " + Show(p.symbol) + ": " + p.desc;
    if IsOptional(p) then head + " (optional)" else head
  }

  /** A parameter's help line starts with its symbol and description, and
      is marked `(optional)` exactly when the parameter is optional. */
  lemma ParamLineMarksOptional(p: Param)
    ensures var head := "    " + Show(p.symbol) + ": " + p.desc;
      var line := ParamLine(p);
      && |head| <= |line| && line[..|head|] == head
      && (IsOptional(p) <==> line == head + " (optional)")
      && (!IsOptional(p) <==> line == head)
  {
    var head := "    " + Show(p.symbol) + ": " + p.desc;
    assert (head + " (optional)")[..|head|] == head;
    assert head + " (optional)" != head by {
      assert |head + " (optional)"| != |head|;
    }
  }

  /** `print_params(title, vals)`: a title line, then one line per
      parameter in declaration order. */
  function PrintParams(title: string, ps: seq<Param>): (lines: seq<string>)
    ensures |lines| == |ps| + 1
    ensures lines[0] == "  " + title + ": "
    ensures forall i :: 0 <= i < |ps| ==> lines[i + 1] == ParamLine(ps[i])
  {
    var body := seq(|ps|, i requires 0 <= i < |ps| => ParamLine(ps[i]));
    var heading := ["  " + title + ": "];
    assert forall i :: 0 <= i < |ps| ==> (heading + body)[i + 1] == body[i];
    heading + body
  }

  /** `show_help`: the command's name and description, then its inputs
      and its outputs. */
  function ShowHelp(io: Io): (lines: seq<string>)
    ensures |lines| == |io.inputs| + |io.outputs| + 3
    ensures lines[0] == io.action + ": " + io.desc
  {
    [io.action + ": " + io.desc] + PrintParams("Input", io.inputs) + PrintParams("Output", io.outputs)
  }

  /** The help text lists every input under `Input:` and then every output
      under `Output:`, each on its own line, in declaration order. */
  lemma ShowHelpListsParams(io: Io)
    ensures var lines := ShowHelp(io);
      && lines[1] == "  Input: " && lines[|io.inputs| + 2] == "  Output: "
      && (forall i :: 0 <= i < |io.inputs| ==> lines[i + 2] == ParamLine(io.inputs[i]))
      && (forall i :: 0 <= i < |io.outputs| ==> lines[|io.inputs| + 3 + i] == ParamLine(io.outputs[i]))
  {
    var ins := PrintParams("Input", io.inputs);
    var outs := PrintParams("Output", io.outputs);
    ThreeParts([io.action + ": " + io.desc], ins, outs);
  }

  /** Indexing into `a + b + c` past `a`. */
  lemma ThreeParts<T>(a: seq<T>, b: seq<T>, c: seq<T>)
    ensures forall k :: 0 <= k < |b| ==> (a + b + c)[|a| + k] == b[k]
    ensures forall k :: 0 <= k < |c| ==> (a + b + c)[|a| + |b| + k] == c[k]
  {
  }

  /** `help?(args)`: the first declared input was given as `'help'`. A
      command without inputs has no first input and raises. */
  function Help(io: Io, args: seq<Entry>): (r: Result<bool, string>)
    ensures r.Failure? <==> |io.inputs| == 0
    ensures r.Success? ==> (r.value <==> Lookup(args, io.inputs[0].symbol) == Str("help"))
  {
    if |io.inputs| == 0 then Failure("undefined method '[]' for nil")
    else Success(Lookup(args, io.inputs[0].symbol) == Str("help"))
  }

  /** `help?` reads the first declared input: a later `input` declaration
      does not change the answer, and the first one decides it. */
  lemma HelpReadsFirstInput(io: Io, sym: Value, desc: string, opts: seq<Entry>, args: seq<Entry>)
    ensures Help(Input(io, sym, desc, opts), args)
         == (if |io.inputs| == 0 then Success(Lookup(args, sym) == Str("help")) else Help(io, args))
  {
  }
}
