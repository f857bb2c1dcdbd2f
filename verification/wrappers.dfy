/** Optional values and error-carrying results, used where the report code
    returns null or throws. */
module Wrappers {

  /** A value that may be absent (the report code's `null`). */
  datatype Option<+T> = None | Some(value: T)

  /** Either a computed value or the error that aborted the computation. */
  datatype Result<+T, +E> = Ok(value: T) | Err(error: E)
}
