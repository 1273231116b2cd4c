/** Option and Result, the failure-compatible wrappers the rest of the model uses
    for absent values (`?.`, `null`, `undefined`) and for thrown errors. */
module Wrappers {

  datatype Option<+T> = None | Some(value: T)

  datatype Result<+R, +E> = Ok(value: R) | Err(error: E)
}
