/** Option and Result values, and the Python exception kinds the tool raises. */
module Wrappers {

  datatype Option<+T> = None | Some(value: T)

  /** The exceptions the modelled code raises, by their Python class. */
  datatype Error =
    | ValueError(message: string)
    | KeyError(keys: seq<string>)
    | IndexError(message: string)
    | TypeError(message: string)
    | DataError(message: string)

  /** The outcome of an operation that may raise. */
  datatype Result<+T> = Ok(value: T) | Err(error: Error)
}
