/** Option and Result, standing for pandas' missing values and for raised errors. */
module Wrappers {

  /** A cell that may be missing (pandas NaN / None). */
  datatype Option<+T> = None | Some(value: T)

  /** The outcome of an operation that may raise: `Failure` carries the error message. */
  datatype Result<+T, +E> = Success(value: T) | Failure(error: E)
}
