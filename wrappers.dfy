/** Option and Result values used by every module of the model, and the
    one sequence fact several of them rely on. */
module Wrappers {

  /** An optional value, Rust's `Option<T>`. */
  datatype Option<+T> = None | Some(value: T)

  /** A success or an error, Rust's `Result<T, E>`. */
  datatype Result<+T, +E> = Ok(value: T) | Err(error: E)

  /** Concatenation regroups freely. */
  lemma SeqAssoc<T>(a: seq<T>, b: seq<T>, c: seq<T>)
    ensures a + (b + c) == (a + b) + c
  {
  }
}
