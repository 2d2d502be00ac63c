/** Optional values and `(T, error)` results shared by the whole model. */
module Wrappers {

  datatype Option<+T> = None | Some(value: T)

  /** The value of a Go call that returns `(T, error)`. */
  datatype Result<+T, +E> = Success(value: T) | Failure(error: E)
}
