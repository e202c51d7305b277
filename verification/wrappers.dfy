/** Option, Result and Outcome: how the model writes C#'s null references and thrown exceptions. */
module Wrappers {

  /** A nullable reference: `None` is C#'s `null`. */
  datatype Option<+T> = None | Some(value: T)

  /** The value of a call that either returns or throws. */
  datatype Result<+R, +E> = Success(value: R) | Failure(error: E)

  /** The completion of a call that returns nothing or throws. */
  datatype Outcome<+E> = Pass | Fail(error: E)
}
