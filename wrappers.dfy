/** Option, Result and Outcome: the absent value, the value-or-error and the
    pass-or-error that stand for Python's None/False returns and raised exceptions. */
module Wrappers {

  datatype Option<+T> = None | Some(value: T)

  datatype Result<+T, +E> = Ok(value: T) | Err(error: E)

  datatype Outcome<+E> = Pass | Fail(error: E)
}
