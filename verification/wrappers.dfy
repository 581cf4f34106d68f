/** Failure-carrying result types used to model the exceptions the batch job raises. */
module Wrappers {

  /** An optional value: the result of a dictionary lookup that may miss. */
  datatype Option<+T> = None | Some(value: T)

  /** A value or the error that stopped its computation. */
  datatype Result<+T, +E> = Success(value: T) | Failure(error: E)

  /** A check that either passes or fails with an error and carries no value. */
  datatype Outcome<+E> = Pass | Fail(error: E)
}
