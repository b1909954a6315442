/** Failure-carrying datatypes shared by every module of the model. */
module Wrappers {

  /** A value that may be absent (PHP's `null` where it means "not set"). */
  datatype Option<+T> = None | Some(value: T) {

    /** The carried value, or `default` when there is none. */
    function GetOr(default: T): T {
      match this
      case Some(v) => v
      case None => default
    }
  }

  /** The outcome of an operation that can throw: a value or the error raised. */
  datatype Result<+T, +E> = Ok(value: T) | Err(error: E)
}
