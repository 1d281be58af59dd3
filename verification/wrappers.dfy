/** Failure-carrying return values used in place of Python exceptions. */
module Wrappers {

  datatype Option<+T> = None | Some(value: T)

  /** The outcome of an operation that either succeeds or raises `error`. */
  datatype Outcome<+E> = Pass | Fail(error: E)

  /** A value, or the error raised instead of returning it. */
  datatype Result<+T, +E> = Ok(value: T) | Err(error: E)
}
