/** Failure-carrying values shared by every module of the model. */
module Wrappers {

  /** A value that may be absent. Where a number is read from text, `None`
      stands for JavaScript's NaN. */
  datatype Option<+T> = None | Some(value: T)

  /** The outcome of a step that may raise an exception; `Err` carries the
      exception's message. */
  datatype Result<+T> = Ok(value: T) | Err(message: string)
}
