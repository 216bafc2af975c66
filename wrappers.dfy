/** A Python value that may be None, and a value-or-error outcome: a
    computation that either returns a value or raises an exception. */
module Wrappers {

  datatype Option<+T> = None | Some(value: T)

  datatype Result<+T, +E> = Ok(value: T) | Err(error: E)
}
