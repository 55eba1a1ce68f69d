/** Option and Result types shared by every module of the model. */
module Wrappers {

  /** A value that may be absent: the model's rendering of a nullable column. */
  datatype Option<+T> = None | Some(value: T)

  /** The outcome of an operation that either produces a value or throws. */
  datatype Result<+T, +E> = Success(value: T) | Failure(error: E) {
    predicate IsFailure() { Failure? }
  }
}
