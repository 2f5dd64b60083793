/** Option and Result: absent values and operations that may fail. */
module Wrappers {

  /** A value that may be absent (Python's None, JavaScript's null/undefined). */
  datatype Option<T> = None | Some(value: T) {

    /** The value, or `default` when absent. */
    function GetOr(default: T): T {
      if Some? then value else default
    }
  }

  /** The outcome of an operation that either succeeds with a value or fails with an error. */
  datatype Result<T, E> = Success(value: T) | Failure(error: E)
}
