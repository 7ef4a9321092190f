/** Option and Result datatypes used throughout the model. */
module Wrappers {

  /** An optional value: a claim that may be absent, a lookup that may miss. */
  datatype Option<+T> = None | Some(value: T)

  /** The outcome of an operation that either yields a value or fails with an error. */
  datatype Result<+R, +E> = Success(value: R) | Failure(error: E)
}
