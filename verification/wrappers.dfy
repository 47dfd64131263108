/** Option and Result values used for the error returns of the controller's functions. */
module Wrappers {

  datatype Option<+T> = None | Some(value: T)

  /** A Go `(value, error)` pair: `Ok(v)` when the error is nil, `Err(msg)` otherwise. */
  datatype Result<+T> = Ok(value: T) | Err(msg: string)
}
