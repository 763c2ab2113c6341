/** Failure-compatible wrappers shared by every module of the model. */
module Wrappers {

  /** The Python exception kinds the modelled code raises. */
  datatype Error =
    | ValueError          // `raise ValueError(...)`
    | AssertionError      // a failed `assert` (shape and type checks)
    | IndexError          // an index outside a list or array
    | NotImplementedError // `raise NotImplementedError`
    | ConfigurationError  // the bare `raise Exception(...)` of the constructor

  datatype Option<+T> = None | Some(value: T)

  datatype Result<+T> = Ok(value: T) | Err(error: Error) {
    predicate IsFailure() { Err? }

    function PropagateFailure<U>(): Result<U>
      requires Err?
    {
      Err(error)
    }

    function Extract(): T
      requires Ok?
    {
      value
    }
  }
}
