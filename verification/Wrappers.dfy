/** Failure-compatible result types shared by the whole project. */
module Wrappers {

  datatype Option<+T> = None | Some(value: T)

  /** A value, or the message of the exception the Python code raises. */
  datatype Result<+T> = Ok(value: T) | Err(error: string)
}
