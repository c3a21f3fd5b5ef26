/** The two result datatypes every other module uses. */
module Wrappers {

  datatype Option<+T> = None | Some(value: T)

  /** The model of a Python call that either returns or raises. */
  datatype Result<+T, +E> = Success(value: T) | Failure(error: E)
}
