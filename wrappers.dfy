/** Option and Result, the two failure-carrying shapes the rest of the model uses. */
module Wrappers {

  /** A value that may be absent (Python's `None`). */
  datatype Option<+T> = None | Some(value: T)

  /** An outcome that is either a value or the text of a raised exception. */
  datatype Result<+T, +E> = Success(value: T) | Failure(error: E)
}
