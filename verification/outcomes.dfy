/** Small failure-carrying datatypes used across the model. */
module Outcomes {

  /** A value that may be absent: PHP's `null` where the source returns one. */
  datatype Option<+T> = None | Some(value: T)

  /** Either nothing went wrong, or an error value was raised. */
  datatype Outcome<+E> = Pass | Fail(error: E)

  /** A returned value, or the error that was thrown instead. */
  datatype Result<+T, +E> = Success(value: T) | Failure(error: E)
}
