/**
 Failure-compatible result types and the notions every other module shares: options, results
 that stop a computation at its first error, checks that carry no value but an error, and
 sequences without duplicates. Nothing in it belongs to one component.
 */
module Prelude {

  datatype Option<+T> = None | Some(value: T)

  /** The source's exceptions, as values. */
  datatype Result<+T, +E> = Ok(value: T) | Err(error: E) {
    predicate IsFailure() {
      Err?
    }

    function PropagateFailure<U>(): Result<U, E>
      requires Err?
    {
      Err(error)
    }

    function Extract(): T
      requires Ok?
    {
      value
    }
  }

  /** A check that carries no value; `:- Need(c, e)` raises `e` unless `c` holds. */
  datatype Guard<+E> = Pass | Fail(error: E) {
    predicate IsFailure() {
      Fail?
    }

    function PropagateFailure<U>(): Result<U, E>
      requires Fail?
    {
      Err(error)
    }
  }

  function Need<E>(condition: bool, error: E): Guard<E> {
    if condition then Pass else Fail(error)
  }

  ghost predicate NoDuplicates<T>(xs: seq<T>) {
    forall i, j :: 0 <= i < j < |xs| ==> xs[i] != xs[j]
  }
}
