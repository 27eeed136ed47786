/** Option and Result, the failure-compatible wrappers used by the model. */
module Wrappers {

  datatype Option<+T> = None | Some(value: T)

  /** A value or the reason a step failed; usable with `:-`. */
  datatype Result<+T, +E> = Ok(value: T) | Err(error: E) {

    predicate IsFailure() {
      Err?
    }

    function PropagateFailure<U>(): Result<U, E>
      requires Err?
    {
      Err(error)
    }

    function Extract(): T
      requires Ok?
    {
      value
    }
  }
}
