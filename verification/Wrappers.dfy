/** Optional values and results with an error case. */
module Wrappers {
  datatype Option<+T> = None | Some(value: T)

  datatype Result<+T, +E> = Ok(value: T) | Err(error: E)
  {
    predicate IsFailure() { Err? }

    function PropagateFailure<U>(): Result<U, E>
      requires Err?
    {
      Err(error)
    }

    function Extract(): T
      requires Ok?
    {
      value
    }
  }

  /** The result of a procedure that can fail. */
  datatype Outcome<+E> = Pass | Fail(error: E)
  {
    predicate IsFailure() { Fail? }

    function PropagateFailure(): Outcome<E>
      requires Fail?
    {
      this
    }
  }

  /** Some of the elements of ys, each at most once and in their order. */
  predicate Subsequence<T(==)>(xs: seq<T>, ys: seq<T>) {
    if ys == [] then xs == []
    else
      || Subsequence(xs, ys[..|ys| - 1])
      || (xs != [] && xs[|xs| - 1] == ys[|ys| - 1] && Subsequence(xs[..|xs| - 1], ys[..|ys| - 1]))
  }

  lemma SubsequenceMore<T>(xs: seq<T>, ys: seq<T>)
    requires ys != [] && Subsequence(xs, ys[..|ys| - 1])
    ensures Subsequence(xs, ys) && Subsequence(xs + [ys[|ys| - 1]], ys)
  {
    assert (xs + [ys[|ys| - 1]])[..|xs|] == xs;
  }
}
