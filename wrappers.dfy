/** Option and Result, the shapes of Rust's `Option<T>` and `Result<T, String>`. */
module Wrappers {

  datatype Option<+T> = None | Some(value: T)

  /** A parse result: `Ok` with a value, or `Err` with the error message the Rust code returns.
      Failure-compatible, so `var x :- r;` stands for Rust's early `return Err(..)`. */
  datatype Result<+T> = Ok(value: T) | Err(error: string) {

    predicate IsFailure() {
      Err?
    }

    function PropagateFailure<U>(): Result<U>
      requires Err?
    {
      Err(error)
    }

    function Extract(): T
      requires Ok?
    {
      value
    }
  }
}
