/** Error taxonomy shared by every module, and the Option/Result wrappers
    that stand in for Python's `None` and for raised exceptions. */
module Errors {

  datatype Option<T> = None | Some(value: T)

  /** The exceptions the core raises or catches. `Cancelled` is
      `CancelledError`, a subclass of `RuntimeError`; `Http` is FastAPI's
      `HTTPException`. */
  datatype Error =
    | Cancelled
    | Runtime(msg: string)
    | Value(msg: string)
    | Http(status: int, detail: string)

  datatype Result<T> = Ok(value: T) | Err(error: Error)

  /** Would an `except RuntimeError` handler catch this error? */
  predicate IsRuntimeError(e: Error) {
    e.Cancelled? || e.Runtime?
  }

  /** `CancelledError` derives from `RuntimeError`, so generic runtime-error
      handlers also catch a cancellation; value and HTTP errors are not
      runtime errors. */
  lemma CancelledIsRuntimeError()
    ensures IsRuntimeError(Cancelled)
    ensures forall m :: !IsRuntimeError(Value(m))
    ensures forall s, d :: !IsRuntimeError(Http(s, d))
  {
  }
}
