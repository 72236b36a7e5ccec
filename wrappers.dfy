/** Option and Result, used where the source has a nullable reference or can throw. */
module Wrappers {

  /** A nullable reference: None stands for JavaScript's null. */
  datatype Option<+T> = None | Some(value: T)

  /** The outcome of a call that either returns a value or throws. */
  datatype Result<+R, +E> = Success(value: R) | Failure(error: E)
}
