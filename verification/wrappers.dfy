/** Option and result types shared by the whole model. */
module Wrappers {

  datatype Option<+T> = None | Some(value: T)

  /** Either the value an operation produced or the error it failed with. */
  datatype Result<+T, +E> = Ok(value: T) | Err(error: E)
}
