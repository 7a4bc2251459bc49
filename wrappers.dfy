/** Option, Result and Outcome: the nullable values and exceptions of the PHP code. */
module Wrappers {

  /** A PHP value that may be null. */
  datatype Option<+T> = None | Some(value: T) {

    /** PHP's `$x ?? $default`. */
    function GetOr(default: T): T {
      match this
      case Some(v) => v
      case None => default
    }
  }

  /** A value, or the exception that was thrown instead of returning it. */
  datatype Result<+T, +E> = Success(value: T) | Failure(error: E)

  /** A `void` call that either returns or throws. */
  datatype Outcome<+E> = Pass | Fail(error: E)
}
