/** Option and Result values used for Python's `None` and for raised exceptions, and one sequence identity. */
module Wrappers {

  datatype Option<+T> = None | Some(value: T)

  datatype Result<+R, +E> = Success(value: R) | Failure(error: E)

  /** Concatenation regrouped: lets a proof step over a sum of long terms without unfolding them. */
  lemma Assoc<T>(a: seq<T>, b: seq<T>, c: seq<T>)
    ensures a + b + c == a + (b + c)
  {
  }
}
