/** Option and Result, the failure-carrying values used across the model. */
module Wrappers {

  /** A value that may be absent: an optional property, `undefined`, or `NaN` where noted. */
  datatype Option<+T> = None | Some(value: T) {
    function GetOr(default: T): T {
      match this
      case Some(v) => v
      case None => default
    }
  }

  /** The outcome of a call that may throw: the value, or the error it threw. */
  datatype Result<+R, +E> = Success(value: R) | Failure(error: E)
}
