/** Option and Result values: a JavaScript value that may be absent or falsy,
    and the outcome of a call that may fail. */
module Wrappers {

  datatype Option<+T> = None | Some(value: T)

  datatype Result<+T, +E> = Ok(value: T) | Err(error: E)
}
