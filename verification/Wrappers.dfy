/** The result types the other modules share. */
module Wrappers {
  datatype Option<+T> = None | Some(value: T)

  /** What a Python call gave its caller: a value, or an exception. */
  datatype Result<+T, +E> = Success(value: T) | Failure(error: E)
}
