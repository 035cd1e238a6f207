/** Failure-carrying values shared by every module of the model. */
module Wrappers {

  /** `undefined` / `null` versus a present value. */
  datatype Option<+T> = None | Some(value: T)

  /** The outcome of a validation step: the parsed value or the reason it was refused. */
  datatype Result<+T> = Ok(value: T) | Err(reason: string)
}
