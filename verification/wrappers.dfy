/** Optional values, and the success-or-errno results of the driver's
    operations. */
module Wrappers {

  datatype Option<+T> = None | Some(value: T)

  /** The kernel convention: an operation either succeeds with a value or
      returns a negative errno. */
  datatype Result<+T, +E> = Success(value: T) | Failure(error: E)
}
