/** Results that may be missing, and the one error the program raises for bad arguments. */
module Wrappers {
  datatype Option<T> = None | Some(value: T)

  datatype Result<T> = Ok(value: T) | ValueError(message: string)
}
