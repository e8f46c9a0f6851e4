/** Optional values and results with an error, shared by the other modules. */
module Wrappers {

  /** A value that may be absent: JavaScript's `undefined`/`null` or a regex that did not match. */
  datatype Option<+T> = None | Some(value: T)

  /** The outcome of an operation that may throw. */
  datatype Result<+T, +E> = Success(value: T) | Failure(error: E)
}
