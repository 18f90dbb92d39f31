/** Option and Result values that stand for Python's `None` and for raised exceptions. */
module Wrappers {

  /** A value that may be absent (Python's `Optional[...]`). */
  datatype Option<+T> = None | Some(value: T)

  /** Either a value or the error that the Python code would have raised. */
  datatype Result<+R, +E> = Success(value: R) | Failure(error: E)
}
