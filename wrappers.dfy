/** Optional values and results used throughout the model. */
module Wrappers {

  /** An optional value: the model's stand-in for a Go pointer that may be nil. */
  datatype Option<+T> = None | Some(value: T)

  /** A value or an error, for the source's `(value, error)` returns. */
  datatype Result<+T, +E> = Success(value: T) | Failure(error: E)
}
