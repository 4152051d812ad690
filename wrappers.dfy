/** Option and Result types shared by the model, plus Outcome for the
    code paths that abort the program (a Rust panic or a Python exception
    escaping to the top). */
module Wrappers {

  datatype Option<T> = None | Some(value: T) {
    predicate IsFailure() { None? }
    function PropagateFailure<U>(): Option<U> requires None? { None }
    function Extract(): T requires Some? { value }
  }

  /** A `Result<T, String>`; the error text is kept where the source fixes it. */
  datatype Result<T> = Ok(value: T) | Err(msg: string) {
    predicate IsFailure() { Err? }
    function PropagateFailure<U>(): Result<U> requires Err? { Err(msg) }
    function Extract(): T requires Ok? { value }
  }

  /** The program either returns a value or aborts (panic, uncaught exception). */
  datatype Outcome<T> = Returned(value: T) | Panic
}
