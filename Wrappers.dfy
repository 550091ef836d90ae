/** Option and Result types for the error paths of the pipeline. */
module Wrappers {

  datatype Option<+T> = None | Some(value: T)

  /** A computation that either succeeds with a value or fails with an error
      (a Python exception in the modelled code). */
  datatype Result<+T, +E> = Ok(value: T) | Err(error: E)
}
