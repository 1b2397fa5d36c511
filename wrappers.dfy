/** Option and Result: absent values and the error paths of the system's operations. */
module Wrappers {

  datatype Option<+T> = None | Some(value: T)

  /** An operation that either produced a value or raised; `error` is the exception text. */
  datatype Result<+T> = Ok(value: T) | Err(error: string)
}
