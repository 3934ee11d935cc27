/** Failure-carrying results shared by the Intcode and wire models. */
module Wrappers {

  datatype Option<+T> = None | Some(value: T)

  /** A value, or the error the source would raise instead of returning it. */
  datatype Result<+T, +E> = Ok(value: T) | Err(error: E)
}
