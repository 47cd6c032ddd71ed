/** What the Go code's results are made of: a value that may be absent, a value or an error, and how a
    call to a database or a broker ends. */
module Prelude {

  datatype Option<+T> = None | Some(value: T)

  datatype Result<+T, +E> = Ok(value: T) | Err(error: E)

  /** Done; failed without effect; or reported as failed although the work became durable. */
  datatype Outcome = Durable | Failed | Unknown
}
