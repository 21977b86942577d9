/** Option and Result values: the model's stand-ins for unparsable input and
    for the error exits and exceptions of the source. */
module Wrappers {

  datatype Option<+T> = None | Some(value: T)

  datatype Result<+T, +E> = Ok(value: T) | Err(error: E)
}
