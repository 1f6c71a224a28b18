/** Option and Result values shared by the other modules. */
module Wrappers {

  /** A value that may be absent: the model of a nullable pointer. */
  datatype Option<+T> = None | Some(value: T)

  /** The outcome of an operation that may throw: `Failure` carries what is thrown. */
  datatype Result<+R, +E> = Success(value: R) | Failure(error: E)
}
