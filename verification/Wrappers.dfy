/** Option, Result and Poll: the Rust enums of the same names. */
module Wrappers {

  datatype Option<+T> = None | Some(value: T)

  datatype Result<+T, +E> = Ok(value: T) | Err(error: E)

  /** One step of an asynchronous computation; wakers are not modelled. */
  datatype Poll<+T> = Pending | Ready(value: T)
}
