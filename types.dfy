/// Value types, variable bindings and the failure outcome shared by the
/// type checker and the code generator.
module Types {

  /// The three value types of the language; `UNKNOWN` is the placeholder for
  /// nodes that produce no value (statements, `print!`).
  datatype Type = I32 | STR | UNKNOWN

  /// What a scope records for a declared variable: its type and its stack offset.
  datatype VariableInfo = VariableInfo(ty: Type, offset: int)

  /// The error kinds the back end can raise. `TypeError` and `NameError` are
  /// the diagnostics of the error reporter (which ends the process); `Crash`
  /// stands for an uncaught C++ exception or undefined behaviour in the source
  /// (an `unreachable` runtime error, a failed `.at()` lookup, `pop_back` on an
  /// empty vector).
  datatype ErrorKind = TypeError | NameError | Crash

  datatype CompileError = CompileError(kind: ErrorKind, message: string)

  /// Every error is fatal, so each operation either succeeds with a value or
  /// fails with the one error that stopped the compilation.
  datatype Result<T> = Ok(value: T) | Err(error: CompileError) {
    predicate IsFailure() { Err? }

    function PropagateFailure<U>(): Result<U>
      requires Err?
    {
      Err(error)
    }

    function Extract(): T
      requires Ok?
    {
      value
    }
  }

  datatype Option<T> = None | Some(value: T)

  function Fail<T>(kind: ErrorKind, message: string): Result<T> {
    Err(CompileError(kind, message))
  }

  /// `typeToString`: the spelling of a type in diagnostics.
  function TypeName(t: Type): (name: string)
    ensures |name| > 0
  {
    match t
    case I32 => "i32"
    case STR => "str"
    case UNKNOWN => "unknown"
  }

  /// `getTypeSize`: both value types occupy one stack cell (a string is held
  /// by its address); asking for the size of `UNKNOWN` throws.
  function TypeSize(t: Type): (r: Result<nat>)
    ensures r.Ok? <==> t != UNKNOWN
    ensures r.Ok? ==> r.value == 1
    ensures r.Err? ==> r.error.kind == Crash
  {
    match t
    case I32 => Ok(1)
    case STR => Ok(1)
    case UNKNOWN => Fail(Crash, "unreachable")
  }
}
