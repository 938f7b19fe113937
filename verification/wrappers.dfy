/** Failure-compatible wrappers: JavaScript's `undefined`/`null` and thrown errors become values. */
module Wrappers {

  /** A value that may be absent (`undefined` in the source). */
  datatype Option<+T> = None | Some(value: T) {

    /** The wrapped value, or `default` when absent (the `??` operator). */
    function GetOr(default: T): T {
      match this
      case Some(v) => v
      case None => default
    }
  }

  /** The outcome of a step that may throw. */
  datatype Result<+T, +E> = Success(value: T) | Failure(error: E)
}
