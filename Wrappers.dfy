/** Option, Result and Outcome: the not-found and validation-failure returns of the core. */
module Wrappers {

  datatype Option<+T> = None | Some(value: T)

  datatype Result<+R, +E> = Ok(value: R) | Err(error: E)

  /** Pass/Fail without a value: what a validator that only raises on failure returns. */
  datatype Outcome<+E> = Pass | Fail(error: E)
}
