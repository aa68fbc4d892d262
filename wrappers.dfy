/** Optional values and error results shared by the whole model. */
module Wrappers {

  /** A value that may be missing: a nullable column, an absent request parameter. */
  datatype Option<+T> = None | Some(value: T)

  /** The outcome of an operation that can fail. */
  datatype Result<+R, +E> = Ok(value: R) | Err(error: E)
}
