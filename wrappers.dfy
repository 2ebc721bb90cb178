/** Failure-compatible wrappers shared by every module of the model. */
module Wrappers {

  /** An optional value: a file that may be absent, a dictionary key that may be missing. */
  datatype Option<+T> = None | Some(value: T)

  /** A value or the exception that stopped its computation; usable with `:-`. */
  datatype Result<+T, +E> = Ok(value: T) | Err(error: E) {

    predicate IsFailure() {
      Err?
    }

    function PropagateFailure<U>(): Result<U, E>
      requires Err?
    {
      Err(error)
    }

    function Extract(): T
      requires Ok?
    {
      value
    }
  }
}
