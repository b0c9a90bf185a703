/** Option and Result: the absent value (`undefined`) and the thrown error of the listener. */
module Wrappers {

  datatype Option<+T> = None | Some(value: T)

  datatype Result<+T, +E> = Ok(value: T) | Err(error: E)
}
