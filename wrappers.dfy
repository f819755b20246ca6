/** Optional values and success-or-error results, as the store's operations
    return them. */
module Wrappers {

  /** A value that may be missing: a Go pointer that may be nil. */
  datatype Option<+T> = None | Some(value: T)

  /** A result or an error: a Go pair `(value, error)`. */
  datatype Result<+T, +E> = Ok(value: T) | Err(error: E)
}
