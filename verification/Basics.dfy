/** Result types shared by every module. */
module Basics {
  datatype Option<+T> = None | Some(value: T)

  /** A store call either answers or reports a failure of the store itself. */
  datatype Result<+T, +E> = Ok(value: T) | Err(error: E)
}
