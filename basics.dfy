/** Option and Result, the two wrappers the rest of the model uses for the
    source's `None` returns and raised exceptions. */
module Basics {

  datatype Option<+T> = None | Some(value: T)

  datatype Result<+T, +E> = Ok(value: T) | Err(error: E)
}
