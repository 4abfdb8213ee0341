/** Option and Result values shared by the modules of the payout bot model. */
module Wrappers {

  datatype Option<+T> = None | Some(value: T)

  /** The outcome of an operation that, in the source, either returns a value or raises. */
  datatype Result<+R, +E> = Ok(value: R) | Err(error: E)
}
