/** Option, Result and Outcome: the values that stand for C#'s null references and thrown exceptions. */
module Wrappers {

  /** A value that may be absent: C#'s `null` for a reference type. */
  datatype Option<+T> = None | Some(value: T)

  /** The outcome of an operation that returns a value or throws. */
  datatype Result<+R, +E> = Success(value: R) | Failure(error: E)

  /** The outcome of an operation that returns nothing or throws. */
  datatype Outcome<+E> = Pass | Fail(error: E)
}
