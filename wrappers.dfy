/** Option and Result, the failure-carrying datatypes used throughout the model
    for JavaScript's `null`/`undefined` results and for thrown exceptions. */
module Wrappers {

  datatype Option<+T> = None | Some(value: T)

  datatype Result<+R, +E> = Success(value: R) | Failure(error: E)
}
