/** Option and Result, the two shapes the handlers' return values take. */
module Wrappers {

  datatype Option<+T> = None | Some(value: T)

  /** Ok(value) for a successful handler, Err(error) for an HTTP error response. */
  datatype Result<+T, +E> = Ok(value: T) | Err(error: E)
}
