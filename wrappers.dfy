/** Failure-carrying result types used in place of exceptions and `null`. */
module Wrappers {

  /** A value that may be absent: the model of `T | null`. */
  datatype Option<+T> = None | Some(value: T)

  /** A computed value or the error that was thrown instead. */
  datatype Result<+R, +E> = Success(value: R) | Failure(error: E)

  /** Completion of an operation that returns nothing (`Promise<void>`) or throws. */
  datatype Outcome<+E> = Pass | Fail(error: E)
}
