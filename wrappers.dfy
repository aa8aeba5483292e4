/** Absent-or-present values and success-or-failure outcomes, shared by the modules below. */
module Wrappers {

  /** A value that may be missing: JavaScript's `undefined`/`null`, or a lookup that threw. */
  datatype Option<+T> = None | Some(value: T) {

    /** The value, or `default` when there is none. */
    function GetOr(default: T): T {
      match this
      case Some(v) => v
      case None => default
    }
  }

  /** The outcome of an operation that either yields a value or fails with an error. */
  datatype Result<+T, +E> = Success(value: T) | Failure(error: E)
}
