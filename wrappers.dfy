/** Option and Result values shared by the modules of this model. */
module Wrappers {

  /** A value that may be missing (Java `null`, Python `None`). */
  datatype Option<+T> = None | Some(value: T)

  /** The outcome of a call that may throw: the value, or the failure. */
  datatype Result<+T, +E> = Ok(value: T) | Err(error: E)
}
