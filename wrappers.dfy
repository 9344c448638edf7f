/** Failure-carrying values used throughout the model: Python's `None` returns
    become `Option`, raised exceptions become `Result.Err` or `Outcome.Fail`. */
module Wrappers {

  datatype Option<+T> = None | Some(value: T)

  datatype Result<+T, +E> = Ok(value: T) | Err(error: E)

  /** The outcome of a `validate_parameters` call: it either returns normally
      or raises `ValueError` with a message. */
  datatype Outcome = Pass | Fail(reason: string)
}
