/** Failure-carrying results: what a PHP method returns, or the exception it throws. */
module Wrappers {

  datatype Option<+T> = None | Some(value: T)

  /** The value of a call that returns something, or the exception it raised. */
  datatype Result<+T, +E> = Success(value: T) | Failure(error: E)

  /** The outcome of a `void` call: it returned, or it raised `error`. */
  datatype Outcome<+E> = Pass | Fail(error: E)
}
