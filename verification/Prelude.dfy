/** The two failure-compatible datatypes the other modules share. */
module Prelude {

  datatype Option<+T> = None | Some(value: T)

  /** A JavaScript function that returns a value or throws. */
  datatype Result<+T, +E> = Ok(value: T) | Err(error: E)
}
