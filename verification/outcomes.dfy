/** Failure-carrying wrappers shared by every module of the model. */
module Outcomes {

  /** `None` stands for JavaScript's `undefined` wherever a value may be missing. */
  datatype Option<+T> = None | Some(value: T)

  /** The outcome of a call that may throw: `Fail` carries the thrown message. */
  datatype Result<+T> = Ok(value: T) | Fail(reason: string)
}
