/** Failure-carrying values used throughout the model: an optional value, and
    a value-or-error result standing for a Python call that may raise. */
module Outcomes {

  datatype Option<+T> = None | Some(value: T)

  datatype Result<+T, +E> = Ok(value: T) | Err(error: E)
  {
    predicate IsFailure() { Err? }

    function PropagateFailure<U>(): Result<U, E>
      requires Err?
    {
      Err(error)
    }

    function Extract(): T
      requires Ok?
    {
      value
    }
  }

  /** The outcome of a procedure that returns nothing but may raise. */
  datatype Outcome<+E> = Pass | Fail(error: E)
}
