/** Failure-compatible results shared by the models: a raised exception of the
    source, and an interruption of the process, are both a `Failed`. */
module Outcomes {
  datatype Option<+T> = None | Some(value: T)

  datatype Result<+T> = Ok(value: T) | Failed {
    predicate IsFailure() {
      Failed?
    }

    function PropagateFailure<U>(): Result<U>
      requires Failed?
    {
      Failed
    }

    function Extract(): T
      requires Ok?
    {
      value
    }
  }
}
