/** Result carriers shared by both halves of the model: an optional value, and the
    outcome of a call that can raise (Python) or reject (JavaScript). */
module Outcomes {

  datatype Option<T> = None | Some(value: T)

  /** `Err(message)` stands for an exception whose `message` (or `str(e)`) is `message`. */
  datatype Outcome<T> = Ok(value: T) | Err(message: string)
}
