/** The one Option datatype the other modules share. */
module Wrappers {
  datatype Option<+T> = None | Some(value: T)

  /** What a fallible operation answers: a value or a reason. */
  datatype Result<+T, +E> = Ok(value: T) | Err(error: E)
}
