/** Optional values and results with an error, as used by every store operation. */
module Results {

  /** A value that may be absent: JavaScript's `T | undefined`. */
  datatype Option<+T> = None | Some(value: T)

  /** The outcome of an operation that may throw: a value or the error it threw. */
  datatype Result<+T, +E> = Ok(value: T) | Err(error: E)
}
