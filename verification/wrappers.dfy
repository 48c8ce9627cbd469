/** Failure-carrying result types shared by every module of the model. */
module Wrappers {

  /** An optional value: a repository lookup that may miss. */
  datatype Option<+T> = None | Some(value: T)

  /** The outcome of a service call: a value, or the business error the call raised. */
  datatype Result<+T, +E> = Ok(value: T) | Err(error: E)
}
