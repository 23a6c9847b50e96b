/** Success/failure carriers used in place of the exceptions the navigator raises. */
module Wrappers {

  datatype Option<+T> = None | Some(value: T)

  datatype Result<+T, +E> = Success(value: T) | Failure(error: E)

  /** The outcome of an operation that only changes state. */
  datatype Outcome<+E> = Pass | Fail(error: E)
}
