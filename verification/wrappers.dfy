/** Failure-carrying values shared by every module: Go's `error` results,
    nil-able pointer fields, and the (database, result) pair left behind by
    an operation that mutates the in-memory store. */
module Wrappers {

  /** A Go pointer or nil-able field; `Null` is Go's nil. */
  datatype Nullable<T> = Null | Value(get: T)

  /** The errors the core reports. `Failure` carries the exact message the
      Go code builds with errors.New; `NilDereference` stands for the panic
      raised when the code dereferences a nil pointer. */
  datatype Error = Failure(message: string) | NilDereference

  /** A Go `(T, error)` pair: exactly one side is meaningful. */
  datatype Result<+T> = Ok(value: T) | Err(error: Error)

  /** A Go function that returns only an `error`; nil is `Pass`. */
  datatype Outcome = Pass | Fail(error: Error)

  /** The database after a mutating call, together with what the call
      returned. */
  datatype Step<+S, +T> = Step(state: S, out: Result<T>)
}
