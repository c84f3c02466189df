/** Option and Result: absence of a value, and an operation that either
    produces a value or fails with an error (a thrown exception or a
    rejected promise in the modelled program). */
module Wrappers {

  datatype Option<+T> = None | Some(value: T)

  datatype Result<+T, +E> = Success(value: T) | Failure(error: E)
}
