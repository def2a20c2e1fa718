/** Failure-compatible wrappers shared by the model: a missing JSON field is
    `None`, and a raised `ValueError` is a `Fail` / `Failure` carrying an
    error value (only the bulk-upload error carries the response status). */
module Wrappers {

  datatype Option<+T> = None | Some(value: T) {
    /** The value, or `default` when absent (Python's `dict.get(key, default)`). */
    function GetOr(default: T): T {
      match this
      case Some(v) => v
      case None => default
    }
  }

  datatype Result<+R, +E> = Success(value: R) | Failure(error: E)

  /** The outcome of an operation that either returns normally or raises. */
  datatype Outcome<+E> = Pass | Fail(error: E)
}
