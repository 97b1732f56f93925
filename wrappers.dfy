/** Failure-compatible result types standing in for JavaScript's `null` and thrown exceptions. */
module Wrappers {

  datatype Option<+T> = None | Some(value: T) {
    function GetOr(default: T): T {
      match this
      case Some(v) => v
      case None => default
    }
  }

  /** A value, or the error an operation throws. */
  datatype Result<+T, +E> = Success(value: T) | Failure(error: E)

  /** Completion of an operation that returns nothing (`void`), or the error it throws. */
  datatype Outcome<+E> = Pass | Fail(error: E)
}
