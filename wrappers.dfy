/** Optional values and results with an error, used throughout the model. */
module Wrappers {

  /** A value that may be absent: a nullable column, an optional field, an undefined property. */
  datatype Option<+T> = None | Some(value: T)

  /** The outcome of an operation that either returns a value or fails with an error. */
  datatype Result<+T, +E> = Success(value: T) | Failure(error: E)
}
