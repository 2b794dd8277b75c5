/**
 * Optional values (nullable references) and results of operations that can
 * fail (the paths where the C code prints a message and exits).
 */
module Wrappers {
  datatype Option<+T> = None | Some(value: T)

  datatype Result<+T, +E> = Success(value: T) | Failure(error: E)
}
