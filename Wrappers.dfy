/** Option, Result and Outcome values stand in for JavaScript's `undefined`
    and for exceptions that the model reports instead of throwing. */
module Wrappers {

  datatype Option<+T> = None | Some(value: T)

  datatype Result<+T, +E> = Ok(value: T) | Err(error: E)

  /** Success without a value, or the error that was raised. */
  datatype Outcome<+E> = Pass | Fail(error: E)

  /** Concatenation regroups. Dafny's sequence axioms give this on their own,
      but proving it inside an induction whose context is full of quantified
      hypotheses is costly; calling this lemma hands the fact over instead. */
  lemma AppendAssociates<T>(a: seq<T>, b: seq<T>, c: seq<T>)
    ensures (a + b) + c == a + (b + c)
  {
  }
}
