/** Option and Result, the wrappers the model uses for "record may be absent"
    and "operation may raise". */
module Wrappers {

  datatype Option<+T> = None | Some(value: T)

  datatype Result<+R, +E> = Success(value: R) | Failure(error: E)
}
