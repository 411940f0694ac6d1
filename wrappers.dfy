/** Option and Result, the failure-carrying values used throughout the model. */
module Wrappers {

  datatype Option<+T> = None | Some(value: T)

  /** The outcome of a step that either produces a value or stops the program with an error. */
  datatype Result<+T, +E> = Ok(value: T) | Err(error: E)
}
