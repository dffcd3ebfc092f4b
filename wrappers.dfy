/** Option and Result values used throughout the model. */
module Wrappers {

  datatype Option<+T> = None | Some(value: T)

  /** The outcome of a fallible operation: a value or an error. */
  datatype Result<+T, +E> = Ok(value: T) | Err(error: E)
}
