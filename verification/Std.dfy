/** Optional and fallible values. */
module Std {
  datatype Option<+T> = None | Some(value: T)

  /** A value, or the code of the exception that was raised instead. */
  datatype Result<+T> = Ok(value: T) | Err(code: string)
}
