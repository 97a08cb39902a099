/** Option and Result, the two failure-compatible wrappers used across the model. */
module Wrappers {

  datatype Option<+T> = None | Some(value: T)

  /** The outcome of an operation that the Python source may abort with an exception. */
  datatype Result<+T, +E> = Ok(value: T) | Err(error: E)
}
