/** Failure-compatible wrappers shared by every module of the model. */
module Wrappers {

  /** A value that may be absent: JavaScript's `undefined`, a missing attribute or slot. */
  datatype Option<+T> = None | Some(value: T) {
    function GetOr(default: T): T {
      match this
      case Some(v) => v
      case None => default
    }
  }

  /** The outcome of an operation that may throw. */
  datatype Result<+R, +E> = Success(value: R) | Failure(error: E) {
    predicate IsFailure() {
      Failure?
    }

    function PropagateFailure<U>(): Result<U, E>
      requires Failure?
    {
      Failure(error)
    }

    function Extract(): R
      requires Success?
    {
      value
    }
  }

  /**
   * `f` applied to each element in order, stopping at the first failure:
   * a loop whose body may throw.
   */
  function TryMap<A, B, E>(f: A -> Result<B, E>, xs: seq<A>): Result<seq<B>, E> {
    if xs == [] then Success([])
    else
      var done := TryMap(f, xs[..|xs| - 1]);
      if done.Failure? then done
      else match f(xs[|xs| - 1])
        case Failure(e) => Failure(e)
        case Success(y) => Success(done.value + [y])
  }

  /** The loop succeeds when every element does, with one result per element, in order. */
  lemma {:induction false} TryMapSuccess<A, B, E>(f: A -> Result<B, E>, xs: seq<A>)
    ensures TryMap(f, xs).Success? <==> forall i | 0 <= i < |xs| :: f(xs[i]).Success?
    ensures TryMap(f, xs).Success? ==>
              |TryMap(f, xs).value| == |xs| && forall i | 0 <= i < |xs| :: f(xs[i]) == Success(TryMap(f, xs).value[i])
    decreases |xs|
  {
    if xs != [] {
      var init := xs[..|xs| - 1];
      TryMapSuccess(f, init);
      if TryMap(f, init).Failure? {
        var i :| 0 <= i < |init| && f(init[i]).Failure?;
        assert xs[i] == init[i];
      }
    }
  }

  /** A failed loop reports the error of the first element that fails. */
  lemma {:induction false} TryMapFailure<A, B, E>(f: A -> Result<B, E>, xs: seq<A>)
    requires TryMap(f, xs).Failure?
    ensures exists i | 0 <= i < |xs| ::
              && f(xs[i]) == Failure(TryMap(f, xs).error)
              && forall j | 0 <= j < i :: f(xs[j]).Success?
    decreases |xs|
  {
    var init := xs[..|xs| - 1];
    if TryMap(f, init).Failure? {
      TryMapFailure(f, init);
      var i :| 0 <= i < |init| && f(init[i]) == Failure(TryMap(f, init).error)
               && forall j | 0 <= j < i :: f(init[j]).Success?;
      assert xs[i] == init[i];
      assert forall j | 0 <= j < i :: xs[j] == init[j];
    } else {
      TryMapSuccess(f, init);
      assert forall j | 0 <= j < |init| :: xs[j] == init[j];
    }
  }

  lemma {:induction false} TryMapFailureSticks<A, B, E>(f: A -> Result<B, E>, a: seq<A>, b: seq<A>)
    requires TryMap(f, a).Failure?
    ensures TryMap(f, a + b) == TryMap(f, a)
    decreases |b|
  {
    if b == [] {
      assert a + b == a;
    } else {
      assert (a + b)[..|a + b| - 1] == a + b[..|b| - 1];
      TryMapFailureSticks(f, a, b[..|b| - 1]);
    }
  }

  /** One more element: its result is appended, or its failure ends the loop. */
  lemma TryMapPush<A, B, E>(f: A -> Result<B, E>, xs: seq<A>, x: A)
    requires TryMap(f, xs).Success?
    ensures f(x).Success? ==> TryMap(f, xs + [x]) == Success(TryMap(f, xs).value + [f(x).value])
    ensures f(x).Failure? ==> TryMap(f, xs + [x]) == Failure(f(x).error)
  {
    assert (xs + [x])[..|xs|] == xs;
  }

  /**
   * A loop over `xs` that has got through `xs[..i]`: element `i` either
   * extends the results, or its failure is the failure of the whole loop.
   */
  lemma TryMapPrefix<A, B, E>(f: A -> Result<B, E>, xs: seq<A>, i: nat)
    requires i < |xs| && TryMap(f, xs[..i]).Success?
    ensures f(xs[i]).Success? ==> TryMap(f, xs[..i + 1]) == Success(TryMap(f, xs[..i]).value + [f(xs[i]).value])
    ensures f(xs[i]).Failure? ==> TryMap(f, xs) == Failure(f(xs[i]).error)
  {
    assert xs[..i] + [xs[i]] == xs[..i + 1];
    TryMapPush(f, xs[..i], xs[i]);
    if f(xs[i]).Failure? {
      TryMapPrefixFails(f, xs, i + 1);
    }
  }

  /** Once a prefix fails, the whole loop fails the same way. */
  lemma TryMapPrefixFails<A, B, E>(f: A -> Result<B, E>, xs: seq<A>, k: nat)
    requires k <= |xs| && TryMap(f, xs[..k]).Failure?
    ensures TryMap(f, xs) == TryMap(f, xs[..k])
  {
    TryMapFailureSticks(f, xs[..k], xs[k..]);
    assert xs[..k] + xs[k..] == xs;
  }
}
