/**
 The gem's shared constants: log entry kinds, result codes, the root
 context symbols, and the parameter keys the framework reserves for itself.
 */
module Constants {
  import opened Values

  /** The closed set of log entry kinds (`LOG_KIND_*`). */
  datatype Kind = CommandInput | CommandOutput | Info | Debug | Error

  /** The symbol name each kind is logged under. */
  function KindName(k: Kind): string {
    match k
    case CommandInput => "command_input"
    case CommandOutput => "command_output"
    case Info => "info"
    case Debug => "debug"
    case Error => "error"
  }

  /** Different kinds are logged under different names, so a decoded kind
      string identifies its kind. */
  lemma KindNameInjective(a: Kind, b: Kind)
    requires KindName(a) == KindName(b)
    ensures a == b
  {
  }

  /** `RESULT_CODE_OK`: the code of a result nobody marked as failed. */
  const ResultCodeOk: int := 0

  /** `RESULT_CODE_FAILED`: the code `failed` records. */
  const ResultCodeFailed: int := 1

  /** `CONTEXT_TEST`: root parent of a command run by `execute_test`. */
  const ContextTest: string := "test"

  /** `CONTEXT_RAKE`: root parent of a command run from a rake task. */
  const ContextRake: string := "rake"

  /** `CONTEXT_RAILS`: root parent of a command run from a Rails controller. */
  const ContextRails: string := "rails"

  /** The parameter keys the framework itself passes down
      (`:logger`, `:test`, `:parent`). */
  predicate InternalKey(k: Value) {
    k == Sym("logger") || k == Sym("test") || k == Sym("parent")
  }
}
