/** Optional values, and the order-preserving "keep what the step produced" fold that
    every `for x in xs: ... if ...: continue ... out.append(y)` loop of the generator
    amounts to. */
module Wrappers {

  datatype Option<+T> = None | Some(value: T)

  /** The results of `f` on `xs`, in order, with the `None`s dropped. Defined from the
      end so that a loop over `xs[..i]` can keep it as its invariant. */
  function FilterSome<X, Y>(f: X -> Option<Y>, xs: seq<X>): (ys: seq<Y>)
    ensures |ys| <= |xs|
    decreases |xs|
  {
    if xs == [] then []
    else
      var init := FilterSome(f, xs[..|xs| - 1]);
      match f(xs[|xs| - 1])
      case None => init
      case Some(y) => init + [y]
  }

  /** Every kept value comes from some input, and an input whose step produced
      nothing contributes nothing. */
  lemma {:induction false} FilterSomeSource<X, Y>(f: X -> Option<Y>, xs: seq<X>, k: nat)
    requires k < |FilterSome(f, xs)|
    ensures exists i :: 0 <= i < |xs| && f(xs[i]) == Some(FilterSome(f, xs)[k])
    decreases |xs|
  {
    var init := FilterSome(f, xs[..|xs| - 1]);
    if k < |init| {
      FilterSomeSource(f, xs[..|xs| - 1], k);
      var i :| 0 <= i < |xs| - 1 && f(xs[..|xs| - 1][i]) == Some(init[k]);
      assert xs[..|xs| - 1][i] == xs[i];
    } else {
      assert f(xs[|xs| - 1]) == Some(FilterSome(f, xs)[k]);
    }
  }

  /** Exactly one output per input whose step produced a value. */
  lemma {:induction false} FilterSomeAll<X, Y>(f: X -> Option<Y>, xs: seq<X>)
    requires forall i :: 0 <= i < |xs| ==> f(xs[i]).Some?
    ensures |FilterSome(f, xs)| == |xs|
    ensures forall i :: 0 <= i < |xs| ==> FilterSome(f, xs)[i] == f(xs[i]).value
    decreases |xs|
  {
    if xs != [] {
      var init := xs[..|xs| - 1];
      forall i | 0 <= i < |init| ensures f(init[i]).Some? { assert init[i] == xs[i]; }
      FilterSomeAll(f, init);
      forall i | 0 <= i < |init| ensures FilterSome(f, xs)[i] == f(xs[i]).value {
        assert init[i] == xs[i];
      }
    }
  }

  /** Nothing is kept when no step produces a value. */
  lemma {:induction false} FilterSomeNone<X, Y>(f: X -> Option<Y>, xs: seq<X>)
    requires forall i :: 0 <= i < |xs| ==> f(xs[i]).None?
    ensures FilterSome(f, xs) == []
    decreases |xs|
  {
    if xs != [] {
      var init := xs[..|xs| - 1];
      forall i | 0 <= i < |init| ensures f(init[i]).None? { assert init[i] == xs[i]; }
      FilterSomeNone(f, init);
    }
  }

  /** One more input: its step's value, if any, comes last. */
  lemma FilterSomeSnoc<X, Y>(f: X -> Option<Y>, xs: seq<X>, i: nat)
    requires i < |xs|
    ensures FilterSome(f, xs[..i + 1])
      == FilterSome(f, xs[..i]) + (if f(xs[i]).Some? then [f(xs[i]).value] else [])
  {
    assert xs[..i + 1][..i] == xs[..i];
  }

  /** Every value a step produces is kept. */
  lemma {:induction false} FilterSomeKeeps<X, Y>(f: X -> Option<Y>, xs: seq<X>, i: nat)
    requires i < |xs| && f(xs[i]).Some?
    ensures f(xs[i]).value in FilterSome(f, xs)
    decreases |xs|
  {
    if i < |xs| - 1 {
      FilterSomeKeeps(f, xs[..|xs| - 1], i);
      assert xs[..|xs| - 1][i] == xs[i];
    }
  }

  /** Nothing is kept exactly when no step produces a value. */
  lemma FilterSomeEmpty<X, Y>(f: X -> Option<Y>, xs: seq<X>)
    ensures FilterSome(f, xs) == [] <==> forall i :: 0 <= i < |xs| ==> f(xs[i]).None?
  {
    if forall i :: 0 <= i < |xs| ==> f(xs[i]).None? {
      FilterSomeNone(f, xs);
    } else {
      var i :| 0 <= i < |xs| && f(xs[i]).Some?;
      FilterSomeKeeps(f, xs, i);
    }
  }
}
