/** Python's `None` and raised exceptions as values, used across the model. */
module Wrappers {

  /** A value that may be Python's `None`. */
  datatype Option<+T> = None | Some(value: T) {
    function GetOr(default: T): T {
      match this
      case Some(v) => v
      case None => default
    }
  }

  /** The outcome of a call that returns a value or raises. */
  datatype Result<+R, +E> = Success(value: R) | Failure(error: E)
}
