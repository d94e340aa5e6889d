/** Failure-compatible wrappers shared by the model. */
module Wrappers {

  /** A value that may be absent (Python's `None`). */
  datatype Option<+T> = None | Some(value: T)

  /** The outcome of an operation that either succeeds with a value or raises an error. */
  datatype Result<+T, +E> = Ok(value: T) | Err(error: E)
}
