/** Optional values and error-carrying results used across the model. */
module Wrappers {

  /** A value that may be missing (pandas' NaN, `dict.get` with no default, a widget left empty). */
  datatype Option<+T> = None | Some(value: T)

  /** A computation that either succeeds or raises the error it carries. */
  datatype Result<+T, +E> = Ok(value: T) | Err(error: E)
}
