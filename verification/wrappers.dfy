/** Option and Result: the `None`-or-value and `(ok, message)` returns of the service. */
module Wrappers {

  datatype Option<+T> = None | Some(value: T)

  /** A validator or store outcome: a value, or the message that explains the rejection. */
  datatype Result<+T> = Ok(value: T) | Err(error: string)
}
