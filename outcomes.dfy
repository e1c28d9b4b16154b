/** Failure-compatible wrappers and the error kinds the preprocessor can raise. */
module Outcomes {

  datatype Option<+T> = None | Some(value: T)

  /** The exceptions that abort the preprocessing of one declaration. */
  datatype Error =
    | UnknownDeclaration(name: string)  // env().get on a name the environment does not declare
    | EvalExprArity                     // a tactic.eval_expr application without exactly 3 arguments
    | EvalExprNotClosed                 // its first argument is not closed or contains a local
    | PreprocessFailed                  // the debug-only type check after a pass failed
    | OutOfFuel                         // the explicit depth bound of the unfolder ran out

  datatype Result<+T> = Ok(value: T) | Err(error: Error) {
    predicate IsFailure() { Err? }
    function PropagateFailure<U>(): Result<U>
      requires Err?
    {
      Err(error)
    }
    function Extract(): T
      requires Ok?
    {
      value
    }
  }

  /** The outcome of an operation that changes state and returns nothing. */
  datatype Outcome = Pass | Fail(error: Error)
}
