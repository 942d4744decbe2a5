/** Optional values and results shared by the model. */
module Wrappers {

  /** An optional value; `None` plays the part of a PHP `null` return. */
  datatype Option<+T> = None | Some(value: T)

  /** Either a value or the error a PHP call would have thrown. */
  datatype Result<+T, +E> = Success(value: T) | Failure(error: E)
}
