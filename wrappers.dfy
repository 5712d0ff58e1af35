/** Optional values and success-or-error outcomes, shared by the record store and the login view. */
module Wrappers {

  /** A value that may be absent: Python's `None` versus a given value. */
  datatype Option<T> = None | Some(value: T)

  /** The outcome of an operation that can fail with an error instead of raising. */
  datatype Result<T, E> = Success(value: T) | Failure(error: E)
}
