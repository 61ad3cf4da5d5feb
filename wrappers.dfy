/** Optional values and the generator's failure-compatible result type. */
module Wrappers {

  datatype Option<+T> = None | Some(value: T)

  /** How a run can fail: the descriptor code panics (a type assertion on a
      missing schema entry, a nil binding dereferenced), or a Go `error` is
      returned with its message. */
  datatype Failure = Panic | Error(message: string)

  datatype Result<+T> = Ok(value: T) | Fail(failure: Failure) {
    predicate IsFailure() { Fail? }

    function PropagateFailure<U>(): Result<U>
      requires Fail?
    {
      Fail(failure)
    }

    function Extract(): T
      requires Ok?
    {
      value
    }
  }

  /** Applies `f` to each element in turn and gathers the values, in
      order; the first failure ends it. */
  function MapResult<T, U>(f: T -> Result<U>, xs: seq<T>): Result<seq<U>>
    decreases |xs|
  {
    if xs == [] then Ok([])
    else
      var front :- MapResult(f, xs[..|xs| - 1]);
      var y :- f(xs[|xs| - 1]);
      Ok(front + [y])
  }

  /** The first element on which `f` fails is at `k`, failing with `e`. */
  predicate FirstFailure<T, U>(f: T -> Result<U>, xs: seq<T>, k: nat, e: Failure) {
    k < |xs| && f(xs[k]) == Fail(e) && forall j :: 0 <= j < k ==> f(xs[j]).Ok?
  }

  /** Once a prefix fails, the whole sequence fails the same way. */
  lemma {:induction false} MapResultFailureStays<T, U>(f: T -> Result<U>, xs: seq<T>, k: nat)
    requires k <= |xs| && MapResult(f, xs[..k]).Fail?
    ensures MapResult(f, xs) == MapResult(f, xs[..k])
    decreases |xs|
  {
    if k < |xs| {
      var front := xs[..|xs| - 1];
      assert front[..k] == xs[..k];
      MapResultFailureStays(f, front, k);
    } else {
      assert xs[..k] == xs;
    }
  }

  /** One more element: its failure is the result's, or its value is
      appended. */
  lemma MapResultStep<T, U>(f: T -> Result<U>, xs: seq<T>, x: T)
    requires MapResult(f, xs).Ok?
    ensures f(x).Fail? ==> MapResult(f, xs + [x]) == Fail(f(x).failure)
    ensures f(x).Ok? ==> MapResult(f, xs + [x]) == Ok(MapResult(f, xs).value + [f(x).value])
  {
    assert (xs + [x])[..|xs|] == xs;
  }

  /** MapResult succeeds exactly when `f` succeeds on every element, and
      then holds `f`'s values in order; otherwise it fails as `f` does on
      the first element where it fails. */
  lemma {:induction false} MapResultChar<T, U>(f: T -> Result<U>, xs: seq<T>)
    ensures MapResult(f, xs).Ok? <==> forall k :: 0 <= k < |xs| ==> f(xs[k]).Ok?
    ensures MapResult(f, xs).Ok? ==>
      |MapResult(f, xs).value| == |xs| &&
      forall k :: 0 <= k < |xs| ==> MapResult(f, xs).value[k] == f(xs[k]).value
    ensures MapResult(f, xs).Fail? ==> exists k :: FirstFailure(f, xs, k, MapResult(f, xs).failure)
    decreases |xs|
  {
    if xs != [] {
      var front := xs[..|xs| - 1];
      var x := xs[|xs| - 1];
      MapResultChar(f, front);
      assert forall k :: 0 <= k < |front| ==> front[k] == xs[k];
      var r := MapResult(f, front);
      if r.Fail? {
        var k :| FirstFailure(f, front, k, r.failure);
        assert FirstFailure(f, xs, k, r.failure);
      } else if f(x).Fail? {
        assert FirstFailure(f, xs, |front|, f(x).failure);
      } else {
        var all := r.value + [f(x).value];
        assert MapResult(f, xs) == Ok(all);
        forall k | 0 <= k < |xs| ensures f(xs[k]).Ok? && all[k] == f(xs[k]).value {
          if k < |front| {
            assert front[k] == xs[k];
            assert all[k] == r.value[k];
          } else {
            assert k == |front|;
          }
        }
      }
    }
  }
}
