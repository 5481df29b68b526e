/** Success/failure shapes shared by the model: Go's `(value, error)` pairs and bare `error` returns. */
module Outcomes {

  datatype Option<+T> = None | Some(value: T)

  /** A Go `(T, error)` result: `Ok` when the error is nil. */
  datatype Result<+T> = Ok(value: T) | Err(msg: string)

  /** A bare Go `error` return: `Pass` when it is nil. */
  datatype Outcome = Pass | Fail(msg: string)
}
