/** Failure-carrying wrappers used throughout the model. */
module Wrappers {

  /** A value that may be absent (Python's `None`). */
  datatype Option<+T> = None | Some(value: T)

  /** A value or the error that was raised instead of it. */
  datatype Result<+T, +E> = Ok(value: T) | Err(error: E)
}
