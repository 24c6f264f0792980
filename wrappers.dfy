/** Optional values and results with an error, as used by the rest of the model. */
module Wrappers {

  /** A value that may be absent: JavaScript's `undefined` result of a lookup. */
  datatype Option<+T> = None | Some(value: T)

  /** A computed value, or the reason it could not be computed. */
  datatype Result<+T, +E> = Ok(value: T) | Err(error: E)
}
