/** Results of operations that the system reports as values or as raised errors. */
module Outcome {

  datatype Option<+T> = None | Some(value: T)

  datatype Result<+T, +E> = Ok(value: T) | Err(error: E)
}
