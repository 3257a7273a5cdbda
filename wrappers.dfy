// Option and Result, the two wrappers every other module uses to model
// Python's None results and raised exceptions.
module Wrappers {

  datatype Option<T> = None | Some(value: T)

  /** A raised exception is `Failure(kind)`, named after the Python exception class. */
  datatype Result<T> = Success(value: T) | Failure(error: string)
}
