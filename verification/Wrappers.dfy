/** Optional values and results, shared by every module of the model. */
module Wrappers {

  datatype Option<+T> = None | Some(value: T)

  /** An exception the original throws is an Err; everything it returns is an Ok. */
  datatype Result<+T, +E> = Ok(value: T) | Err(error: E)
}
