/** Failure-carrying values used for the exceptions of the modelled Python code. */
module Wrappers {

  datatype Option<+T> = None | Some(value: T)

  /** `Failure` stands for a raised exception; `Success` for a normal return. */
  datatype Result<+T, +E> = Success(value: T) | Failure(error: E)
}
