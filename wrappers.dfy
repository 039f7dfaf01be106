/** Small failure-compatible wrappers used across the model. */
module Wrappers {

  /** A value that may be absent: a .NET `null` reference, a missing session key, a row that was not read. */
  datatype Option<+T> = None | Some(value: T) {
    function GetOr(default: T): T {
      match this
      case Some(v) => v
      case None => default
    }
  }

  /** The outcome of an operation that can throw: `Failure` stands for the exception. */
  datatype Result<+R, +E> = Success(value: R) | Failure(error: E)
}
