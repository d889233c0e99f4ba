/** Failure-compatible wrappers used in place of JavaScript's `undefined`
    and of thrown exceptions. */
module Wrappers {

  /** An optional value: `undefined` in the source becomes `None`. */
  datatype Option<+T> = None | Some(value: T) {

    /** The value, or `default` when absent. */
    function GetOr(default: T): T {
      match this
      case Some(v) => v
      case None => default
    }
  }

  /** The outcome of an operation that either returns a value or throws an error. */
  datatype Result<+T, +E> = Ok(value: T) | Err(error: E) {

    /** Replaces the error of a failed result, as a `catch` that rethrows a new error does. */
    function MapError<F>(f: E -> F): Result<T, F> {
      match this
      case Ok(v) => Ok(v)
      case Err(e) => Err(f(e))
    }
  }
}
