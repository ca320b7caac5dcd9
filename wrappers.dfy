/** Failure-carrying results shared by the model. */
module Wrappers {

  datatype Option<+T> = None | Some(value: T)

  /** The outcome of a step that may raise: a value, or the message of the exception. */
  datatype Outcome<+T> = Ok(value: T) | Err(error: string)
}
