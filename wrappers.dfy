/** Option and Result values for the outcomes the source reports by returning `None` or raising. */
module Wrappers {

  datatype Option<+T> = None | Some(value: T)

  datatype Result<+T, +E> = Ok(value: T) | Err(error: E)
}
