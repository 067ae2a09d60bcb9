/** Failure-carrying datatypes shared by the model. */
module Wrappers {

  /** A value that may be absent: Python's `None` or a present value. */
  datatype Option<+T> = None | Some(value: T)

  /** The outcome of an operation that may raise: a value, or the error that escaped. */
  datatype Result<+T, +E> = Ok(value: T) | Err(error: E)
}
