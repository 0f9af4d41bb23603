/** Optional values and failure-carrying results. */
module Wrappers {

  /** Python's `None` or a present value. */
  datatype Option<+T> = None | Some(value: T)

  /** Either a computed value or the exception that aborted the computation. */
  datatype Result<+T, +E> = Success(value: T) | Failure(error: E)
}
