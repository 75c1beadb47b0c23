/** Success/failure values standing in for Python's `raise`. */
module Wrappers {

  /** A value that may be absent. */
  datatype Option<+T> = None | Some(value: T)

  /** A computed value, or the error that was raised instead. */
  datatype Result<+T, +E> = Success(value: T) | Failure(error: E)

  /** The result of a validator that returns nothing when it accepts. */
  datatype Outcome<+E> = Pass | Fail(error: E)
}
