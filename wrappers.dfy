/** Option, Result and Outcome: the failure-compatible datatypes the model uses
    in place of PHP's nullable values and exceptions. */
module Wrappers {

  datatype Option<+T> = None | Some(value: T) {
    predicate IsFailure() { None? }

    function PropagateFailure<U>(): Option<U>
      requires None?
    {
      None
    }

    function Extract(): T
      requires Some?
    {
      value
    }
  }

  datatype Result<+T, +E> = Success(value: T) | Failure(error: E) {
    predicate IsFailure() { Failure? }

    function PropagateFailure<U>(): Result<U, E>
      requires Failure?
    {
      Failure(error)
    }

    function Extract(): T
      requires Success?
    {
      value
    }
  }

  /** The outcome of a check that returns nothing (a PHP `void` method that may throw). */
  datatype Outcome<+E> = Pass | Fail(error: E) {
    predicate IsFailure() { Fail? }

    function PropagateFailure<U>(): Result<U, E>
      requires Fail?
    {
      Failure(error)
    }
  }

  /** f applied to each item in order, the first failure ending the run: a
      `foreach` loop that appends each result and lets an exception escape. */
  function MapResult<A, B, E>(f: A -> Result<B, E>, items: seq<A>): (r: Result<seq<B>, E>)
    ensures r.Success? <==> forall i :: 0 <= i < |items| ==> f(items[i]).Success?
    ensures r.Success? ==> (|r.value| == |items|
      && forall i :: 0 <= i < |items| ==> f(items[i]) == Success(r.value[i]))
  {
    if |items| == 0 then Success([])
    else
      var head := f(items[0]);
      if head.Failure? then Failure(head.error)
      else
        var rest := MapResult(f, items[1..]);
        assert forall i :: 1 <= i < |items| ==> items[i] == items[1..][i - 1];
        if rest.Failure? then Failure(rest.error)
        else Success([head.value] + rest.value)
  }

  /** The run fails with the error of the first item that fails. */
  lemma {:induction false} MapResultFailsAt<A, B, E>(f: A -> Result<B, E>, items: seq<A>, i: int)
    requires 0 <= i < |items| && f(items[i]).Failure?
    requires forall j :: 0 <= j < i ==> f(items[j]).Success?
    ensures MapResult(f, items) == Failure(f(items[i]).error)
  {
    if i > 0 {
      assert f(items[0]).Success?;
      assert forall j :: 0 <= j < i - 1 ==> items[1..][j] == items[j + 1];
      MapResultFailsAt(f, items[1..], i - 1);
    }
  }

  /** The run succeeds with exactly the items' results when each succeeds. */
  lemma {:induction false} MapResultAll<A, B, E>(f: A -> Result<B, E>, items: seq<A>, out: seq<B>)
    requires |out| == |items|
    requires forall j :: 0 <= j < |items| ==> f(items[j]) == Success(out[j])
    ensures MapResult(f, items) == Success(out)
  {
    if |items| > 0 {
      assert forall j :: 0 <= j < |items| - 1 ==> items[1..][j] == items[j + 1] && out[1..][j] == out[j + 1];
      MapResultAll(f, items[1..], out[1..]);
      assert out == [out[0]] + out[1..];
    }
  }

  /** The first i items of a run have succeeded with the results out. */
  ghost predicate SucceededUpTo<A, B, E>(f: A -> Result<B, E>, items: seq<A>, i: int, out: seq<B>) {
    0 <= i <= |items| && |out| == i && forall j :: 0 <= j < i ==> f(items[j]) == Success(out[j])
  }

  /** One more item that succeeds extends the run by its result. */
  lemma SucceededStep<A, B, E>(f: A -> Result<B, E>, items: seq<A>, i: int, out: seq<B>)
    requires SucceededUpTo(f, items, i, out) && i < |items| && f(items[i]).Success?
    ensures SucceededUpTo(f, items, i + 1, out + [f(items[i]).value])
  {
  }
}
