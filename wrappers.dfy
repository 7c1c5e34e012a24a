/** Failure-carrying wrappers used across the model. */
module Wrappers {

  /** An optional value. */
  datatype Option<+T> = None | Some(value: T)

  /** A value or the error that was raised instead. */
  datatype Result<+T, +E> = Ok(value: T) | Err(error: E)

  /** The outcome of a check that either passes or fails with an error. */
  datatype Outcome<+E> = Pass | Fail(error: E)
}
