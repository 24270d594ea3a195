/** Results and errors shared by every module: a Go `(value, error)` pair. */
module Outcomes {
  datatype Option<+T> = None | Some(value: T)

  /** The sentinel errors of the domain package, the envelope's own, and a
      context that is done. */
  datatype Error = NotFound | Conflict | VersionMismatch | Invalid | DecryptFailed | Cancelled

  datatype Result<+T> = Ok(value: T) | Err(error: Error) {
    predicate IsFailure() {
      Err?
    }

    function PropagateFailure<U>(): Result<U>
      requires Err?
    {
      Err(error)
    }

    function Extract(): T
      requires Ok?
    {
      value
    }
  }
}
