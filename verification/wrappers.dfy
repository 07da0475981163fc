/** The result of an operation that can fail, shared by the modules of this project. */
module Wrappers {

  /** Either the value an operation computes or the error it raises instead. */
  datatype Result<T, E> = Success(value: T) | Failure(error: E)
}
