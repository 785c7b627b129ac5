/** Small shared datatypes. */
module Basics {

  datatype Option<+T> = None | Some(value: T)

  datatype Result<+T, +E> = Success(value: T) | Failure(error: E)

  /** The source's `u8`, where it is used as a number. */
  type byte = x: int | 0 <= x < 256

  function Max(a: int, b: int): int {
    if a < b then b else a
  }
}
