/** Option and Result, standing for Python's `None`-or-value returns and for
    exceptions that escape an operation. */
module Wrappers {

  datatype Option<+T> = None | Some(value: T)

  datatype Result<+T, +E> = Ok(value: T) | Err(error: E)
}
