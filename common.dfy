/** Option, Result and Outcome: the model's stand-ins for C# null and thrown exceptions. */
module Wrappers {

  /** A value that may be missing: a C# null reference or an empty `Nullable<T>`. */
  datatype Option<+T> = None | Some(value: T) {
    function GetOr(default: T): T {
      match this
      case Some(v) => v
      case None => default
    }
  }

  /** The value a C# member returns, or the exception it throws. */
  datatype Result<+T, +E> = Success(value: T) | Failure(error: E)

  /** Completion of a C# `void` member, or the exception it throws. */
  datatype Outcome<+E> = Pass | Fail(error: E)
}

/** The few .NET and driver types the cache inspects. */
module DotNet {
  import opened Wrappers

  /** `string.IsNullOrEmpty`. */
  predicate IsNullOrEmpty(s: Option<string>) {
    s.None? || |s.value| == 0
  }

  /** The C# null-coalescing operator `a ?? b`. */
  function Coalesce<T>(a: Option<T>, b: Option<T>): Option<T> {
    if a.Some? then a else b
  }

  /**
   * `MySqlException.Data` as the duplicate-key check sees it: either an
   * enumeration of driver errors (each with its code) or any other dictionary.
   */
  datatype ExceptionData = ErrorList(codes: seq<int>) | OtherData

  /** A driver exception: its `Number` and its possibly null `Data`. */
  datatype MySqlException = MySqlException(number: int, data: Option<ExceptionData>)

  /** The exceptions the cache throws or lets through. */
  datatype Exception =
    | InvalidOperation(message: string)
    | Argument(message: string)
    | ArgumentNull(paramName: string)
    | ArgumentOutOfRange(paramName: string, message: string)
    | MySql(error: MySqlException)
}
