/** Failure-carrying result types used in place of the source's exceptions. */
module Wrappers {

  datatype Option<+T> = None | Some(value: T)

  /** Value or error: the result of an operation that may throw. */
  datatype Result<+T, +E> = Ok(value: T) | Err(error: E)

  /** Success or error: the result of a void operation that may throw. */
  datatype Outcome<+E> = Pass | Fail(error: E)
}
