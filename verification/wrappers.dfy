/** Option and Result values shared by the other modules. */
module Wrappers {

  /** A value that may be absent: Python's `None` or a given argument. */
  datatype Option<+T> = None | Some(value: T)

  /** The outcome of an operation that can raise: a value or the error raised. */
  datatype Result<+T, +E> = Ok(value: T) | Err(error: E)
}
