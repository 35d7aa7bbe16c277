/** Small value types shared by every module: an optional value, a success-or-error result
    and a byte. */
module Wrappers {

  datatype Option<+T> = None | Some(value: T)

  /** The outcome of a Go call that returns `(value, error)`. */
  datatype Result<+T> = Ok(value: T) | Err(msg: string)

  newtype byte = x: int | 0 <= x < 256
}
