/** The optional value used wherever the source has `null` or `undefined`, and the outcome
    of an operation that throws an `Error` with a message instead of returning. */
module Wrappers {
  datatype Option<+T> = None | Some(value: T)

  datatype Result<+T> = Ok(value: T) | Err(message: string)
}
