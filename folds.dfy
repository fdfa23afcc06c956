/**
 * The two loop shapes the reader uses over a list of nodes, as folds that stop
 * at the first failure: applying a step to each element and collecting the
 * results (a list comprehension, or a loop that appends), and applying a step
 * that yields several results per element and concatenating them (a loop
 * nested in a loop). Python evaluates the elements in order, so the error of
 * the first failing element is the one raised.
 */
module Folds {
  import opened Wrappers

  /** `[f(x) for x in xs]`, stopping at the first failing element. */
  function MapAll<X, Y, E>(f: X -> Result<Y, E>, xs: seq<X>): Result<seq<Y>, E> {
    if xs == [] then Success([])
    else
      var init :- MapAll(f, xs[..|xs| - 1]);
      var last :- f(xs[|xs| - 1]);
      Success(init + [last])
  }

  /** The results of `f` on each element of `xs`, concatenated, stopping at the first failing element. */
  function ConcatAll<X, Y, E>(f: X -> Result<seq<Y>, E>, xs: seq<X>): Result<seq<Y>, E> {
    if xs == [] then Success([])
    else
      var init :- ConcatAll(f, xs[..|xs| - 1]);
      var last :- f(xs[|xs| - 1]);
      Success(init + last)
  }

  /** The mapped list exists exactly when every element succeeds, and it holds their results in order. */
  lemma {:induction false} MapAllShape<X, Y, E>(f: X -> Result<Y, E>, xs: seq<X>)
    ensures MapAll(f, xs).Success? <==> forall i :: 0 <= i < |xs| ==> f(xs[i]).Success?
    ensures MapAll(f, xs).Success? ==>
              |MapAll(f, xs).value| == |xs| && forall i :: 0 <= i < |xs| ==> f(xs[i]) == Success(MapAll(f, xs).value[i])
  {
    if xs != [] {
      var init := xs[..|xs| - 1];
      MapAllShape(f, init);
      assert forall i :: 0 <= i < |init| ==> init[i] == xs[i];
    }
  }

  /** On failure, the error is that of the first failing element. */
  lemma {:induction false} MapAllFirstError<X, Y, E>(f: X -> Result<Y, E>, xs: seq<X>)
    requires MapAll(f, xs).Failure?
    ensures exists i :: 0 <= i < |xs| && f(xs[i]).Failure? && MapAll(f, xs).error == f(xs[i]).error &&
                        forall j :: 0 <= j < i ==> f(xs[j]).Success?
  {
    var init := xs[..|xs| - 1];
    assert forall i :: 0 <= i < |init| ==> init[i] == xs[i];
    if MapAll(f, init).Failure? {
      MapAllFirstError(f, init);
      var i :| 0 <= i < |init| && f(init[i]).Failure? && MapAll(f, init).error == f(init[i]).error &&
               forall j :: 0 <= j < i ==> f(init[j]).Success?;
      assert f(xs[i]) == f(init[i]);
    } else {
      MapAllShape(f, init);
      assert f(xs[|xs| - 1]).Failure?;
    }
  }

  /** Mapping over `a + b` is mapping over `a`, then over `b`. */
  lemma {:induction false} MapAllAppend<X, Y, E>(f: X -> Result<Y, E>, a: seq<X>, b: seq<X>)
    requires MapAll(f, a).Success? && MapAll(f, b).Success?
    ensures MapAll(f, a + b) == Success(MapAll(f, a).value + MapAll(f, b).value)
  {
    if b == [] {
      assert a + b == a;
      assert MapAll(f, a).value + [] == MapAll(f, a).value;
    } else {
      var b0 := b[..|b| - 1];
      assert (a + b)[..|a + b| - 1] == a + b0;
      assert (a + b)[|a + b| - 1] == b[|b| - 1];
      MapAllAppend(f, a, b0);
      var x, y, z := MapAll(f, a).value, MapAll(f, b0).value, f(b[|b| - 1]).value;
      assert MapAll(f, b).value == y + [z];
      assert (x + y) + [z] == x + (y + [z]);
    }
  }

  /** One more step of the loop over `xs`: the fold over `xs[..i+1]` from the fold over `xs[..i]`. */
  lemma MapAllStep<X, Y, E>(f: X -> Result<Y, E>, xs: seq<X>, i: nat)
    requires i < |xs|
    ensures MapAll(f, xs[..i + 1]) ==
            match MapAll(f, xs[..i])
            case Failure(e) => Failure(e)
            case Success(acc) => match f(xs[i]) case Failure(e) => Failure(e) case Success(y) => Success(acc + [y])
  {
    assert xs[..i + 1][..i] == xs[..i];
  }

  /** Once the fold over a prefix fails, the fold over the whole list fails with the same error. */
  lemma {:induction false} MapAllFailureSticks<X, Y, E>(f: X -> Result<Y, E>, xs: seq<X>, k: nat)
    requires k <= |xs| && MapAll(f, xs[..k]).Failure?
    ensures MapAll(f, xs) == MapAll(f, xs[..k])
  {
    if k < |xs| {
      assert xs[..|xs| - 1][..k] == xs[..k];
      MapAllFailureSticks(f, xs[..|xs| - 1], k);
    } else {
      assert xs[..k] == xs;
    }
  }

  /** The concatenation exists exactly when every element succeeds. */
  lemma {:induction false} ConcatAllSucceeds<X, Y, E>(f: X -> Result<seq<Y>, E>, xs: seq<X>)
    ensures ConcatAll(f, xs).Success? <==> forall i :: 0 <= i < |xs| ==> f(xs[i]).Success?
  {
    if xs != [] {
      var init := xs[..|xs| - 1];
      ConcatAllSucceeds(f, init);
      assert forall i :: 0 <= i < |init| ==> init[i] == xs[i];
    }
  }

  /** Concatenating over `a + b` is concatenating over `a`, then over `b`. */
  lemma {:induction false} ConcatAllAppend<X, Y, E>(f: X -> Result<seq<Y>, E>, a: seq<X>, b: seq<X>)
    requires ConcatAll(f, a).Success? && ConcatAll(f, b).Success?
    ensures ConcatAll(f, a + b) == Success(ConcatAll(f, a).value + ConcatAll(f, b).value)
  {
    if b == [] {
      assert a + b == a;
      assert ConcatAll(f, a).value + [] == ConcatAll(f, a).value;
    } else {
      var b0 := b[..|b| - 1];
      assert (a + b)[..|a + b| - 1] == a + b0;
      assert (a + b)[|a + b| - 1] == b[|b| - 1];
      ConcatAllAppend(f, a, b0);
      var x, y, z := ConcatAll(f, a).value, ConcatAll(f, b0).value, f(b[|b| - 1]).value;
      assert ConcatAll(f, b).value == y + z;
      assert (x + y) + z == x + (y + z);
    }
  }

  /** An element-wise property of every step's results holds of the whole concatenation. */
  lemma {:induction false} ConcatAllEvery<X, Y, E>(f: X -> Result<seq<Y>, E>, xs: seq<X>, p: Y -> bool)
    requires forall i :: 0 <= i < |xs| && f(xs[i]).Success? ==> forall y :: y in f(xs[i]).value ==> p(y)
    ensures ConcatAll(f, xs).Success? ==> forall y :: y in ConcatAll(f, xs).value ==> p(y)
  {
    if xs != [] {
      var init := xs[..|xs| - 1];
      assert forall i :: 0 <= i < |init| ==> init[i] == xs[i];
      ConcatAllEvery(f, init, p);
    }
  }

  /** One more step of the outer loop. */
  lemma ConcatAllStep<X, Y, E>(f: X -> Result<seq<Y>, E>, xs: seq<X>, i: nat)
    requires i < |xs|
    ensures ConcatAll(f, xs[..i + 1]) ==
            match ConcatAll(f, xs[..i])
            case Failure(e) => Failure(e)
            case Success(acc) => match f(xs[i]) case Failure(e) => Failure(e) case Success(ys) => Success(acc + ys)
  {
    assert xs[..i + 1][..i] == xs[..i];
  }

  /** Once the concatenation over a prefix fails, the whole one fails with the same error. */
  lemma {:induction false} ConcatAllFailureSticks<X, Y, E>(f: X -> Result<seq<Y>, E>, xs: seq<X>, k: nat)
    requires k <= |xs| && ConcatAll(f, xs[..k]).Failure?
    ensures ConcatAll(f, xs) == ConcatAll(f, xs[..k])
  {
    if k < |xs| {
      assert xs[..|xs| - 1][..k] == xs[..k];
      ConcatAllFailureSticks(f, xs[..|xs| - 1], k);
    } else {
      assert xs[..k] == xs;
    }
  }

  /** The sum of `g` over `xs`. */
  function Total<X>(g: X -> nat, xs: seq<X>): nat {
    if xs == [] then 0 else Total(g, xs[..|xs| - 1]) + g(xs[|xs| - 1])
  }

  /** When each element yields `g` of it many results, the concatenation has the total of `g` many. */
  lemma {:induction false} ConcatAllLength<X, Y, E>(f: X -> Result<seq<Y>, E>, xs: seq<X>, g: X -> nat)
    requires forall i :: 0 <= i < |xs| && f(xs[i]).Success? ==> |f(xs[i]).value| == g(xs[i])
    ensures ConcatAll(f, xs).Success? ==> |ConcatAll(f, xs).value| == Total(g, xs)
  {
    if xs != [] {
      var init := xs[..|xs| - 1];
      assert forall i :: 0 <= i < |init| ==> init[i] == xs[i];
      ConcatAllLength(f, init, g);
    }
  }

  /** Appending one element after a concatenation. */
  lemma AppendOne<T>(a: seq<T>, b: seq<T>, x: T)
    ensures a + (b + [x]) == (a + b) + [x]
  {
  }
}
