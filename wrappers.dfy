/** Optional values and results with an error code, the model's stand-in for
    absent dictionary keys and raised exceptions. */
module Wrappers {

  /** A value that may be absent (a missing key). */
  datatype Option<+T> = None | Some(value: T) {
    /** The value, or `default` when absent (Python's `d.get(key, default)`). */
    function GetOr(default: T): T {
      match this
      case Some(v) => v
      case None => default
    }
  }

  /** The outcome of an operation that either returns a value or raises. */
  datatype Result<+T, +E> = Success(value: T) | Failure(error: E)
}
