/** Optional values and error-carrying results, standing in for the source's
    null pointers and thrown exceptions. */
module Wrappers {

  /** A value that may be absent (a null pointer in the source). */
  datatype Option<+T> = None | Some(value: T)

  /** Either a value or the error the source would have thrown. */
  datatype Result<+T, +E> = Success(value: T) | Failure(error: E)
}
