/** Failure-carrying values shared by every module of the model. */
module Wrappers {

  /** A value that may be absent (Go's nil results). */
  datatype Option<+T> = None | Some(value: T)

  /** A value or the error that prevented computing it (Go's `(T, error)` pairs). */
  datatype Result<+T, +E> = Ok(value: T) | Err(error: E)
}
