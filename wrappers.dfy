/** Optional values and results with an error message, used across the model
    wherever the source has `undefined`/`null` or throws. */
module Wrappers {

  datatype Option<+T> = None | Some(value: T) {
    /** `x ?? d` in JavaScript, `x or d` for Python's None. */
    function GetOr(default: T): T {
      match this
      case Some(v) => v
      case None => default
    }
  }

  /** A computation that either yields a value or throws with a message. */
  datatype Result<+T> = Success(value: T) | Failure(message: string)

  /** A computation with no value that may throw with a message. */
  datatype Outcome = Pass | Fail(message: string)
}
