/** The two carriers used throughout: an optional column and the outcome of a service call. */
module Wrappers {
  datatype Option<+T> = None | Some(value: T)

  /** A service either returns a value or raises; `error` says which exception it raised. */
  datatype Result<+T, +E> = Ok(value: T) | Err(error: E)
}
