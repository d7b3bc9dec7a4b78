/** Option and Result, the two failure-carrying datatypes the model uses. */
module Wrappers {

  datatype Option<+T> = None | Some(value: T)

  /** The outcome of an operation of the library that may throw a configuration error. */
  datatype Result<+T, +E> = Ok(value: T) | Err(error: E)
}
