/** Option and Result datatypes shared by both versions of the engine. */
module Wrappers {

  /** A value that may be missing (Python's None). */
  datatype Option<+T> = None | Some(value: T)

  /** The outcome of a call that may raise: the returned value, or the exception raised. */
  datatype Result<+T, +E> = Ok(value: T) | Err(error: E)
}
