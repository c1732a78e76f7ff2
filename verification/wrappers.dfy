/** Failure-carrying values used across the model. */
module Wrappers {

  /** A value that may be missing: pandas' NaN after a failed lookup, or a
      Python exception that ends a computation without a value. */
  datatype Option<+T> = None | Some(value: T)

  /** A computation that either produces a value or stops with an error. */
  datatype Result<+T, +E> = Success(value: T) | Failure(error: E)
}
