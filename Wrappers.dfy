/** Optional values and results with an error, used for C#'s nullable references and exceptions. */
module Wrappers {

  /** A value that may be absent: C#'s `null` for a reference or a `T?`. */
  datatype Option<+T> = None | Some(value: T)

  /** The outcome of an operation that either returns a value or throws. */
  datatype Result<+T, +E> = Success(value: T) | Failure(error: E)
}
