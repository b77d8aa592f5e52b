/** Option and Result, the failure-carrying values used across the model. */
module Wrappers {

  datatype Option<+T> = None | Some(value: T)

  /** The outcome of an operation that either succeeds with a value or
      fails with the error the source raises. */
  datatype Result<+R, +E> = Success(value: R) | Failure(error: E) {

    predicate IsFailure() {
      Failure?
    }

    function PropagateFailure<U>(): Result<U, E>
      requires Failure?
    {
      Failure(error)
    }

    function Extract(): R
      requires Success?
    {
      value
    }
  }

  /** Applies `f` to every element in order: all the results, or the
      failure of the first element on which `f` fails. */
  function MapResults<A, B, E>(f: A -> Result<B, E>, xs: seq<A>): Result<seq<B>, E> {
    if xs == [] then Success([])
    else
      var init :- MapResults(f, xs[..|xs| - 1]);
      var last :- f(xs[|xs| - 1]);
      Success(init + [last])
  }

  /** A failure on a prefix is the failure of the whole sequence. */
  lemma {:induction false} MapResultsFailedPrefix<A, B, E>(f: A -> Result<B, E>, xs: seq<A>, n: nat)
    requires n <= |xs|
    requires MapResults(f, xs[..n]).Failure?
    ensures MapResults(f, xs) == MapResults(f, xs[..n])
  {
    if n < |xs| {
      var init := xs[..|xs| - 1];
      assert init[..n] == xs[..n];
      MapResultsFailedPrefix(f, init, n);
    } else {
      assert xs[..n] == xs;
    }
  }

  /** On success there is one result per element, each the result of `f` on it. */
  lemma {:induction false} MapResultsSuccess<A, B, E>(f: A -> Result<B, E>, xs: seq<A>, ys: seq<B>)
    requires MapResults(f, xs) == Success(ys)
    ensures |ys| == |xs|
    ensures forall i :: 0 <= i < |xs| ==> f(xs[i]) == Success(ys[i])
  {
    if xs != [] {
      var init := xs[..|xs| - 1];
      var done := MapResults(f, init).value;
      MapResultsSuccess(f, init, done);
      assert ys == done + [f(xs[|xs| - 1]).value];
      forall i | 0 <= i < |xs| ensures f(xs[i]) == Success(ys[i]) {
        if i < |xs| - 1 { assert xs[i] == init[i]; }
      }
    }
  }

  /** All or nothing: the traversal succeeds exactly when `f` succeeds on every element. */
  lemma {:induction false} MapResultsAllOrNothing<A, B, E>(f: A -> Result<B, E>, xs: seq<A>)
    ensures MapResults(f, xs).Success? <==> forall i :: 0 <= i < |xs| ==> f(xs[i]).Success?
  {
    if xs != [] {
      var n := |xs| - 1;
      var init := xs[..n];
      MapResultsAllOrNothing(f, init);
      if forall i :: 0 <= i < |xs| ==> f(xs[i]).Success? {
        forall i | 0 <= i < n ensures f(init[i]).Success? {
          assert init[i] == xs[i];
        }
      } else {
        var k :| 0 <= k < |xs| && !f(xs[k]).Success?;
        if k < n {
          assert init[k] == xs[k];
        }
      }
    }
  }

  /** The failure reported is that of the first element on which `f` fails. */
  lemma {:induction false} MapResultsFirstFailure<A, B, E>(f: A -> Result<B, E>, xs: seq<A>, k: nat)
    requires k < |xs|
    requires f(xs[k]).Failure?
    requires forall j :: 0 <= j < k ==> f(xs[j]).Success?
    ensures MapResults(f, xs) == Failure(f(xs[k]).error)
  {
    var upTo := xs[..k + 1];
    assert upTo[..k] == xs[..k];
    MapResultsAllOrNothing(f, xs[..k]);
    assert forall j :: 0 <= j < k ==> xs[..k][j] == xs[j];
    assert MapResults(f, upTo) == Failure(f(xs[k]).error);
    MapResultsFailedPrefix(f, xs, k + 1);
  }

  /** Every failure of the traversal is the failure of `f` on some element,
      the first on which it fails. */
  lemma {:induction false} MapResultsFailure<A, B, E>(f: A -> Result<B, E>, xs: seq<A>)
    requires MapResults(f, xs).Failure?
    ensures exists k :: 0 <= k < |xs| && f(xs[k]) == Failure(MapResults(f, xs).error)
              && forall j :: 0 <= j < k ==> f(xs[j]).Success?
  {
    var n := |xs| - 1;
    var init := xs[..n];
    if MapResults(f, init).Failure? {
      MapResultsFailure(f, init);
      var k :| 0 <= k < |init| && f(init[k]) == Failure(MapResults(f, init).error)
                && forall j :: 0 <= j < k ==> f(init[j]).Success?;
      assert init[k] == xs[k];
      assert forall j :: 0 <= j < k ==> init[j] == xs[j];
    } else {
      MapResultsAllOrNothing(f, init);
      assert forall j :: 0 <= j < n ==> init[j] == xs[j];
    }
  }

  lemma MapResultsSingle<A, B, E>(f: A -> Result<B, E>, x: A)
    ensures f(x).Success? ==> MapResults(f, [x]) == Success([f(x).value])
    ensures f(x).Failure? ==> MapResults(f, [x]) == Failure(f(x).error)
  {
    assert [x][..0] == [];
    assert MapResults(f, [x][..0]) == Success([]);
    if f(x).Success? {
      assert [] + [f(x).value] == [f(x).value];
    }
  }

  /** One more successful element extends a successful prefix by its result. */
  lemma MapResultsStep<A, B, E>(f: A -> Result<B, E>, xs: seq<A>, i: nat, ys: seq<B>)
    requires i < |xs| && MapResults(f, xs[..i]) == Success(ys) && f(xs[i]).Success?
    ensures MapResults(f, xs[..i + 1]) == Success(ys + [f(xs[i]).value])
  {
    assert xs[..i + 1][..i] == xs[..i];
  }
}
