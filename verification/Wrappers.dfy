/** The two result shapes shared by every module of the model. */
module Wrappers {

  datatype Option<+T> = None | Some(value: T)

  /** A raised exception is a Failure that carries the reason. */
  datatype Result<+T, +E> = Success(value: T) | Failure(error: E)
}
