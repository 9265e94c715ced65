/** Optional values, standing in for Python's `None`, and results that carry
    either a value or the exception that replaced it. */
module Wrappers {
  datatype Option<+T> = None | Some(value: T)

  datatype Result<+T, +E> = Success(value: T) | Failure(error: E)
}
