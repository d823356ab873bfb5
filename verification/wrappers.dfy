/** Optional values and results with an error branch, shared by every module of the model. */
module Wrappers {

  /** A value that may be absent: Python's `None`, a missing dictionary key or JSON `null`. */
  datatype Option<+T> = None | Some(value: T)

  /** The outcome of an operation that either returns a value or raises an error. */
  datatype Result<+T, +E> = Ok(value: T) | Err(error: E)
}
