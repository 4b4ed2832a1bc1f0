/** Failure-carrying values shared by the collector and the stream factory. */
module Wrappers {

  /** A value that may be absent; stands for a nullable reference. */
  datatype Option<+T> = None | Some(value: T)

  /** The value of a computation that can fail with an error. */
  datatype Result<+R, +E> = Success(value: R) | Failure(error: E)

  /** The completion of an operation that returns nothing but may fail. */
  datatype Outcome<+E> = Pass | Fail(error: E)
}
