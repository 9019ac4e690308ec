/** Values that may be missing, and results of operations that may fail. */
module Outcomes {
  datatype Option<T> = None | Some(value: T)
  datatype Result<T> = Ok(value: T) | Err(message: string)
}
