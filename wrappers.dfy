/** Option and Result types, and the Python exceptions the pipeline can raise. */
module Wrappers {

  datatype Option<+T> = None | Some(value: T)

  /** The exception classes raised by the modelled code (message text is not modelled). */
  datatype PyError =
    | KeyError(key: string)          // a missing DataFrame column or dictionary key
    | ValueError                     // bad literal, unparseable date, ...
    | TypeError                      // an operation applied to a value of the wrong kind
    | AttributeError(name: string)   // an attribute that was never assigned, or is None
    | NotFitted                      // a scikit-learn estimator used before it was fitted

  datatype Result<+T> = Ok(value: T) | Err(error: PyError) {
    predicate IsFailure() { Err? }

    function PropagateFailure<U>(): Result<U>
      requires Err?
    {
      Err(error)
    }

    function Extract(): T
      requires Ok?
    {
      value
    }
  }

  /** The result of a step that returns nothing but may raise. */
  datatype Outcome = Pass | Fail(error: PyError) {
    predicate IsFailure() { Fail? }

    function PropagateFailure(): Outcome
      requires Fail?
    {
      this
    }
  }
}
