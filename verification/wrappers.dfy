/** Optional values and results shared by the rest of the model. */
module Wrappers {

  /** A value that may be missing: Python's `None` or a present value. */
  datatype Option<+T> = None | Some(value: T)

  /** The outcome of an operation that may fail with an error of type E. */
  datatype Result<+R, +E> = Success(value: R) | Failure(error: E)
}
