/** Failure-aware values used throughout the model. */
module Wrappers {

  /** A value that may be missing: JavaScript's `undefined`/`null` results. */
  datatype Option<+T> = None | Some(value: T)

  /** Either a value or the error that stopped the computation. */
  datatype Result<+T, +E> = Ok(value: T) | Err(error: E)
}
