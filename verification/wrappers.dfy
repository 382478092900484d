/** Failure-carrying datatypes shared by the model's modules. */
module Wrappers {

  /** A value that may be missing: `undefined`, `null` or an absent key. */
  datatype Option<T> = None | Some(value: T)

  /** Either a computed value or the error an operation throws instead. */
  datatype Result<T, E> = Success(value: T) | Failure(error: E)
}
