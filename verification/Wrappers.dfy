/** Stock result types: a value that may be absent, and a computation that may raise. */
module Wrappers {

  datatype Option<+T> = None | Some(value: T) {
    predicate IsFailure() { None? }
    function PropagateFailure<U>(): Option<U> requires None? { None }
    function Extract(): T requires Some? { value }
  }

  /** The error classes of src/m2harness/errors.py and the built-in ones the source lets escape. */
  datatype Error =
    | NotFound
    | Conflict
    | LeasedByOther
    | AttemptsExhausted
    | LeaseLost
    | InvalidTransition
    | ValueError
    | IntegrityError
    | DecodeError

  datatype Result<+T> = Ok(value: T) | Err(error: Error)
}
