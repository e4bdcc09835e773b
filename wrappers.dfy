/** Failure-carrying wrappers standing in for Python exceptions and optional values. */
module Wrappers {

  datatype Option<+T> = None | Some(value: T)

  /** A value or the message of the exception the source raises instead. */
  datatype Result<+T> = Ok(value: T) | Err(error: string)

  /** The outcome of a check that either passes or raises with a message. */
  datatype Outcome = Pass | Fail(error: string)
}
