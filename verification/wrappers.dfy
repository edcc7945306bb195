/** Failure-carrying datatypes shared by the forecasting and merging modules. */
module Wrappers {

  /** A value that may be missing: pandas' NaN cell or Python's `None`. */
  datatype Option<+T> = None | Some(value: T)

  /** The outcome of an operation whose Python counterpart may raise. */
  datatype Result<+T, +E> = Success(value: T) | Failure(error: E)
}
