/** Failure-carrying datatypes shared by the other modules. */
module Wrappers {

  /** A value that may be absent: a Java reference that may be null. */
  datatype Option<+T> = None | Some(value: T)

  /** The value of a computation that either returns or throws. */
  datatype Result<+T, +E> = Success(value: T) | Failure(error: E)

  /** The outcome of a Java `void` method: it returns normally or throws. */
  datatype Outcome<+E> = Pass | Fail(error: E)
}
