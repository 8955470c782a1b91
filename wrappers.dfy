/** Option and Result, the two ways an operation of the model reports that the
    Python code would have raised an exception or produced no value. */
module Wrappers {

  datatype Option<+T> = None | Some(value: T)

  datatype Result<+T, +E> = Ok(value: T) | Err(error: E)
}
