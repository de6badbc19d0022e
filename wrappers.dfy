/** Optional values and success-or-error results, shared by every module of the model. */
module Wrappers {

  /** A value that may be absent: a missing document, an optional field, a `null`. */
  datatype Option<+T> = None | Some(value: T) {
    function GetOr(default: T): T {
      match this
      case Some(v) => v
      case None => default
    }
  }

  /** The outcome of an operation that either produces a value or fails with an error. */
  datatype Result<+T, +E> = Ok(value: T) | Err(error: E)
}
