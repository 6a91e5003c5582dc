/** Optional values and results shared by every module of the model. */
module Wrappers {

  /** A value that may be absent: a missing dictionary key, a SQL NULL, a `None`. */
  datatype Option<+T> = None | Some(value: T)

  /** The outcome of an operation that either succeeds or raises. */
  datatype Result<+R, +E> = Success(value: R) | Failure(error: E)
}
