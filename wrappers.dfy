/** Option, Result and Outcome: the model's stand-ins for Java's null and for
    checked exceptions. */
module Wrappers {

  datatype Option<+T> = None | Some(value: T)

  datatype Result<+R, +E> = Ok(value: R) | Err(error: E)

  /** The outcome of a void Java method: it returns normally or throws. */
  datatype Outcome<+E> = Pass | Fail(error: E)
}
