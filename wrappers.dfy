/** Plain wrappers shared by the parking model: `Option` is a value or
    Python's `None`, `Result` a value or the exception Python raises. */
module Wrappers {

  datatype Option<+T> = None | Some(value: T)

  datatype Result<+T, +E> = Ok(value: T) | Err(error: E)
}
