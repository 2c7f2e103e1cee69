/** Failure-compatible wrappers shared by every module of the model. */
module Wrappers {

  /** A value that may be absent; also stands for "the call raised" where an
      operation of the system can throw. */
  datatype Option<+T> = None | Some(value: T)

  /** The outcome of an operation that either yields a value or raises. */
  datatype Result<+T> = Ok(value: T) | Err(error: string)
}
