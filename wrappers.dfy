/** Option and Result values for builders that can give up. */
module Wrappers {

  /** A value that may be absent: a combo box with no current data, or a builder that gives up. */
  datatype Option<+T> = None | Some(value: T)

  /** Either a value or an error message. */
  datatype Result<+T, +E> = Ok(value: T) | Err(error: E)
}
