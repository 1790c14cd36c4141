/** Option and Result, the two shapes in which the model returns Go's
    `(value, error)` pairs and the outcomes of foreign calls. */
module Wrappers {

  datatype Option<+T> = None | Some(value: T)

  datatype Result<+T, +E> = Ok(value: T) | Err(error: E)
}
