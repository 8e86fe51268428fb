/**
 Where a command runs. Every command's `parent` is either the command that
 started it or, for the command at the root, a symbol naming the context it
 was started from (`:test`, `:rake`, `:rails`, ...).
 */
module Contexts {
  import opened Wrappers
  import opened Values
  import opened Constants

  /** The loop of `root_context`: follow `parent` links until a symbol.
      Anything that is neither a symbol nor a command has no `parent` and
      raises. */
  function ContextOf(v: Value): Result<string, string>
    decreases v
  {
    match v
    case Sym(n) => Success(n)
    case Exe(_, parent, _, _) => ContextOf(parent)
    case _ => Failure("undefined method 'parent' for " + Inspect(v))
  }

  /** `root_context`: the context symbol above a command. */
  function RootContext(cmd: Value): Result<string, string>
    requires cmd.Exe?
  {
    ContextOf(cmd.parent)
  }

  /** A command started directly from a context has that context. */
  lemma RootContextAtRoot(cmd: Value, name: string)
    requires cmd.Exe? && cmd.parent == Sym(name)
    ensures RootContext(cmd) == Success(name)
    ensures !IsChildContext(cmd)
  {
  }

  /** A child command has the context of the command that started it. */
  lemma RootContextOfChild(child: Value)
    requires child.Exe? && child.parent.Exe?
    ensures RootContext(child) == RootContext(child.parent)
    ensures IsChildContext(child)
  {
  }

  /** Whether the root context is the given one; raises as `root_context`
      does. */
  function InContext(cmd: Value, name: string): (r: Result<bool, string>)
    requires cmd.Exe?
    ensures r.Success? <==> RootContext(cmd).Success?
    ensures r.Success? ==> (r.value <==> RootContext(cmd).value == name)
  {
    match RootContext(cmd)
    case Failure(e) => Failure(e)
    case Success(n) => Success(n == name)
  }

  /** `test_context?` */
  function IsTestContext(cmd: Value): Result<bool, string>
    requires cmd.Exe?
  {
    InContext(cmd, ContextTest)
  }

  /** `rails_context?` */
  function IsRailsContext(cmd: Value): Result<bool, string>
    requires cmd.Exe?
  {
    InContext(cmd, ContextRails)
  }

  /** `rake_context?` */
  function IsRakeContext(cmd: Value): Result<bool, string>
    requires cmd.Exe?
  {
    InContext(cmd, ContextRake)
  }

  /** `child_context?`: the direct parent is not a symbol. */
  predicate IsChildContext(cmd: Value)
    requires cmd.Exe?
  {
    !cmd.parent.Sym?
  }

  /** A command is in exactly one of the test, rake and rails contexts or
      in none of them, and its context is decided by the root of its chain. */
  lemma ContextsExclusive(cmd: Value)
    requires cmd.Exe? && RootContext(cmd).Success?
    ensures IsTestContext(cmd).Success? && IsRakeContext(cmd).Success? && IsRailsContext(cmd).Success?
    ensures !(IsTestContext(cmd).value && IsRakeContext(cmd).value)
    ensures !(IsTestContext(cmd).value && IsRailsContext(cmd).value)
    ensures !(IsRakeContext(cmd).value && IsRailsContext(cmd).value)
  {
  }

  /** A command `child` run by `parent`, which was itself run in the test
      context: the child is a child in the test context, the parent is not
      a child, and neither is in the rake context. */
  lemma TestGroupContexts(parent: Value, child: Value)
    requires parent.Exe? && parent.parent == Sym(ContextTest)
    requires child.Exe? && child.parent == parent
    ensures IsTestContext(parent) == Success(true) && !IsChildContext(parent)
    ensures IsTestContext(child) == Success(true) && IsChildContext(child)
    ensures IsRakeContext(child) == Success(false)
  {
    RootContextOfChild(child);
  }

  /** Every chain of commands that ends in a symbol has a context: the
      symbol at its end. */
  lemma {:induction false} ChainContext(v: Value, depth: nat, name: string)
    requires ChainEndsIn(v, depth, name)
    ensures ContextOf(v) == Success(name)
    decreases depth
  {
    if depth > 0 {
      ChainContext(v.parent, depth - 1, name);
    }
  }

  /** `v` is a chain of `depth` commands, each the parent's child, above a
      context symbol `name`. */
  predicate ChainEndsIn(v: Value, depth: nat, name: string)
    decreases depth
  {
    if depth == 0 then v == Sym(name) else v.Exe? && ChainEndsIn(v.parent, depth - 1, name)
  }
}
