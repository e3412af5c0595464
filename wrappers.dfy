/** The optional-value datatype used throughout the model. */
module Wrappers {

  /** A JavaScript value that may be `undefined`/`null`/`NaN` (None) or present (Some). */
  datatype Option<+T> = None | Some(value: T) {

    /** The value, or the given default when absent (JavaScript's `x || d` on a present x that is truthy). */
    function GetOr(default: T): (r: T)
      ensures Some? ==> r == value
      ensures None? ==> r == default
    {
      match this
      case Some(v) => v
      case None => default
    }
  }

  /** The outcome of an operation that may throw: its value, or the error it throws. */
  datatype Result<+T, +E> = Success(value: T) | Failure(error: E)
}
