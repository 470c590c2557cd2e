/** Shared value types of the facts model: optional values, the exceptions the
    Python code can raise, and the three states a key of a facts dictionary can be in. */
module Basics {

  datatype Option<+T> = None | Some(value: T)

  /** The Python exceptions that escape from the modelled code. */
  datatype Error =
    | KeyError(key: string)
    | ValueError(text: string)
    | TypeError(field: string)

  datatype Result<+T> = Ok(value: T) | Err(error: Error)

  /** Outcome of a method that changes state: it returns normally or raises. */
  datatype Outcome = Pass | Fail(error: Error)

  /** A key of a Python dictionary: missing, or present holding either a value or None. */
  datatype Slot<+T> = Absent | Present(held: Option<T>)
}
