/** Failure-carrying result types shared by every module of the model. */
module Wrappers {

  /** A value that may be absent: a nullable column, a missing header, a null payload. */
  datatype Option<+T> = None | Some(value: T)

  /** The outcome of an operation that either produces a value or fails with an error. */
  datatype Result<+T, +E> = Ok(value: T) | Err(error: E)

  /** The outcome of a check that produces nothing when it passes. */
  datatype Outcome<+E> = Pass | Fail(error: E)
}
