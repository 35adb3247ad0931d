/** The optional values and fallible results the other modules share. */
module Wrappers {

  /** A Go pointer that may be nil, seen as a value. */
  datatype Option<+T> = None | Some(value: T)

  /** The (value, error) pair of a Go call. */
  datatype Result<+T, +E> = Ok(value: T) | Err(error: E)
}
