/** Success-or-failure values for operations that raise in the modelled program. */
module Wrappers {

  datatype Result<+T, +E> = Ok(value: T) | Err(error: E)
}
