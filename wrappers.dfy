/** Option and Outcome values used throughout the model.
    `Outcome` stands for a Python call that either returns a value or raises
    an exception; the exception is represented by its message text. */
module Wrappers {

  datatype Option<+T> = None | Some(value: T)

  datatype Outcome<+T> = Ok(value: T) | Err(message: string)
}
