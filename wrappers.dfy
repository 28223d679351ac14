/** Failure-compatible result types shared by every SimpliPy component.
    The Python exceptions the source raises become `Error` values. */
module Wrappers {

  datatype Option<+T> = None | Some(value: T)

  /** The exception classes the source raises (messages are not modelled).
      `Unsupported` is the simplifier's UnsupportedConstructError; `Unmodelled`
      marks a Python result outside the modelled value domain (a float, an
      identity comparison). */
  datatype Error =
    | TypeError
    | ValueError
    | LookupError
    | KeyError
    | IndexError
    | AttributeError
    | SyntaxError
    | NotImplementedError
    | AssertionError
    | ZeroDivisionError
    | Unsupported
    | Unmodelled

  datatype Result<+T> = Ok(value: T) | Err(error: Error) {
    predicate IsFailure() { Err? }
    function PropagateFailure<U>(): Result<U>
      requires Err?
    {
      Err(error)
    }
    function Extract(): T
      requires Ok?
    {
      value
    }
  }

  datatype Outcome = Success | Fail(error: Error) {
    predicate IsFailure() { Fail? }
    function PropagateFailure(): Outcome
      requires Fail?
    {
      this
    }
  }
}
