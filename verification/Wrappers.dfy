/** A value that may be missing, and an operation that may be refused. */
module Wrappers {
  datatype Option<T> = None | Some(value: T)

  datatype Result<T> = Ok(value: T) | Err
}
