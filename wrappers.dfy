/** Optional values and results with an error, used for the error paths. */
module Wrappers {

  datatype Option<+T> = None | Some(value: T)

  /** The outcome of an operation that the source can abort by throwing an exception. */
  datatype Result<+T, +E> = Ok(value: T) | Err(error: E)
}
