/** Failure-carrying values used for the outcomes of calls into external libraries. */
module Outcomes {

  /** A value that may be absent. */
  datatype Option<+T> = None | Some(value: T)

  /** A library call that returns a value or raises an exception with a message. */
  datatype Result<+T> = Ok(value: T) | Err(message: string)

  /** A library call whose only effect of interest is whether it raised. */
  datatype Outcome = Pass | Fail(message: string)
}
