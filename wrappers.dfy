/** Nullable values and exception-or-value results, shared by every module. */
module Wrappers {

  /** A value that may be absent: `None` stands for a C# `null`. */
  datatype Option<+T> = None | Some(value: T) {
    function GetOr(default: T): T {
      match this
      case Some(v) => v
      case None => default
    }
  }

  /** The outcome of code that either returns a value or throws. */
  datatype Result<+R, +E> = Success(value: R) | Failure(error: E)
}
