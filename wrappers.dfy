/** Failure-carrying result types shared by every module of the model. */
module Wrappers {

  datatype Option<+T> = None | Some(value: T)

  /** An operation that yields a value or reports an error, as Go's `(T, error)` pair. */
  datatype Result<+T, +E> = Ok(value: T) | Err(error: E)

  /** `byte` of Go: an unsigned 8-bit integer. */
  newtype byte = x: int | 0 <= x < 256
}
