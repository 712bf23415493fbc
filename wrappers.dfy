/** Failure-carrying values used across the model: an absent value, and the
    outcome of an operation that can throw. */
module Wrappers {

  datatype Option<+T> = None | Some(value: T)

  /** What a throwing Swift function that returns a value yields. */
  datatype Result<+R, +E> = Success(value: R) | Failure(error: E)

  /** What a throwing Swift function that returns nothing yields. */
  datatype Outcome<+E> = Pass | Fail(error: E)
}
