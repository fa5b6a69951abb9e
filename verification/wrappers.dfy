/** Failure-carrying values used throughout the model: an optional value, a
    value-or-error result, and a pass-or-fail outcome for steps that return
    nothing. */
module Wrappers {

  datatype Option<+T> = None | Some(value: T)

  datatype Result<+T, +E> = Ok(value: T) | Err(error: E) {
    predicate IsFailure() { Err? }

    function PropagateFailure<U>(): Result<U, E>
      requires Err?
    {
      Err(error)
    }

    function Extract(): T
      requires Ok?
    {
      value
    }
  }

  /** The outcome of an external step that produces no value: it either passes
      or fails with the message the tool reported. */
  datatype Outcome = Pass | Fail(message: string)
}
