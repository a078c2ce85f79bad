/** Option and Result, the stock wrappers the rest of the model uses for
    values that may be absent and for operations that may fail. */
module Wrappers {

  datatype Option<+T> = None | Some(value: T)

  datatype Result<+T, +E> = Ok(value: T) | Err(error: E)

}
