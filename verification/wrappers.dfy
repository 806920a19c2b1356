/** Failure-compatible wrappers shared by every stage of the pipeline. */
module Wrappers {

  /** An optional value; stands for Python's `None`-or-value returns. */
  datatype Option<+T> = None | Some(value: T)

  /** A value or an error; stands for a Python call that may raise. */
  datatype Result<+T, +E> = Ok(value: T) | Err(error: E) {

    predicate IsFailure() {
      Err?
    }

    function PropagateFailure<U>(): Result<U, E>
      requires Err?
    {
      Err(error)
    }

    function Extract(): T
      requires Ok?
    {
      value
    }
  }
}
