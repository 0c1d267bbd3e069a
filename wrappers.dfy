/** Failure-compatible result types shared by every module of the model:
    Go's `(value, error)` pairs and JavaScript's `null`/`undefined` become these. */
module Wrappers {

  datatype Option<+T> = None | Some(value: T)

  /** A Go `(T, error)` return: either the value or an error message. */
  datatype Result<+T> = Ok(value: T) | Err(msg: string)

  /** A Go function that returns only an `error`. */
  datatype Outcome = Pass | Fail(msg: string)
}
