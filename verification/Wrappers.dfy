/** Small result types shared by the other modules. */
module Wrappers {

  datatype Option<+T> = None | Some(value: T)

  /** Outcome of one statement or one request: it either passes or reports an error. */
  datatype Outcome<+E> = Pass | Fail(error: E)

  datatype Result<+T, +E> = Ok(value: T) | Err(error: E)
}
