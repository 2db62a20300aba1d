/** Failure-compatible wrappers used across the model: an optional value, a value-or-error
    result (a Python function that raises becomes an `Err`), and a pass/fail outcome for
    the guard functions that return nothing or raise. */
module Wrappers {

  datatype Option<+T> = None | Some(value: T) {
    /** `x or default` / `d.get(k, default)` once a missing or null value is `None`. */
    function GetOr(default: T): T {
      match this
      case Some(v) => v
      case None => default
    }
  }

  datatype Result<+T, +E> = Ok(value: T) | Err(error: E) {
    predicate IsFailure() {
      Err?
    }

    function PropagateFailure<U>(): Result<U, E>
      requires Err?
    {
      Err(error)
    }

    function Extract(): T
      requires Ok?
    {
      value
    }
  }

  datatype Outcome<+E> = Pass | Fail(error: E)
}
