/** The two result types the rest of the project returns. */
module Wrappers {

  datatype Option<+T> = None | Some(value: T)

  /** A call that answered, or the reason it did not. */
  datatype Result<+T, +E> = Ok(value: T) | Err(error: E)
}
