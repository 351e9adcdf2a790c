/** Optional values and results, shared by every module of the model. */
module Wrappers {

  /** A value that Python code would hold as `None` or as the value itself. */
  datatype Option<+T> = None | Some(value: T)

  /** What a call returns, or the exception it raises. */
  datatype Result<+T, +E> = Ok(value: T) | Err(error: E)
}
