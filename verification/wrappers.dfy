/** Option and Result values used for the source's missing keys and raised exceptions. */
module Wrappers {

  datatype Option<+T> = None | Some(value: T)

  /** `Err` stands for an exception raised by the source; `error` is what it carries. */
  datatype Result<+T, +E> = Ok(value: T) | Err(error: E)
}
