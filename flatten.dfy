/** Concatenating the outputs of a `for range` loop: each element of a
    sequence contributes a (possibly empty) run of items, in order. */
module Flatten {

  /** The items `f` produces for each element of `xs`, concatenated in order. */
  function FlatMap<T, R>(f: T -> seq<R>, xs: seq<T>): seq<R>
  {
    if xs == [] then [] else f(xs[0]) + FlatMap(f, xs[1..])
  }

  /** Flattening distributes over concatenation: the output for a sequence is
      the output for any prefix followed by the output for the rest. */
  lemma {:induction false} FlatMapConcat<T, R>(f: T -> seq<R>, xs: seq<T>, ys: seq<T>)
    ensures FlatMap(f, xs + ys) == FlatMap(f, xs) + FlatMap(f, ys)
  {
    if xs == [] {
      assert xs + ys == ys;
    } else {
      assert (xs + ys)[1..] == xs[1..] + ys;
      FlatMapConcat(f, xs[1..], ys);
    }
  }

  /** One more loop iteration appends exactly the next element's output. */
  lemma FlatMapSnoc<T, R>(f: T -> seq<R>, xs: seq<T>, j: nat)
    requires j < |xs|
    ensures FlatMap(f, xs[..j + 1]) == FlatMap(f, xs[..j]) + f(xs[j])
  {
    assert xs[..j + 1] == xs[..j] + [xs[j]];
    FlatMapConcat(f, xs[..j], [xs[j]]);
    assert FlatMap(f, [xs[j]]) == f(xs[j]) + FlatMap(f, []);
  }

  /** Element `k` splits the output into what comes before it, its own run
      and what comes after it. */
  lemma FlatMapSplit<T, R>(f: T -> seq<R>, xs: seq<T>, k: nat)
    requires k < |xs|
    ensures FlatMap(f, xs) == FlatMap(f, xs[..k]) + f(xs[k]) + FlatMap(f, xs[k + 1..])
  {
    assert xs == xs[..k + 1] + xs[k + 1..];
    FlatMapConcat(f, xs[..k + 1], xs[k + 1..]);
    FlatMapSnoc(f, xs, k);
  }

  /** When every element produces exactly one item, the output has one item
      per element, in the same positions. */
  lemma {:induction false} FlatMapSingletons<T, R>(f: T -> seq<R>, xs: seq<T>)
    requires forall i :: 0 <= i < |xs| ==> |f(xs[i])| == 1
    ensures |FlatMap(f, xs)| == |xs|
    ensures forall i :: 0 <= i < |xs| ==> FlatMap(f, xs)[i] == f(xs[i])[0]
  {
    if xs != [] {
      assert forall i :: 0 <= i < |xs[1..]| ==> xs[1..][i] == xs[i + 1];
      FlatMapSingletons(f, xs[1..]);
    }
  }

  /** A property that every element's output satisfies holds of every item of
      the whole output. */
  lemma {:induction false} FlatMapAll<T, R>(f: T -> seq<R>, xs: seq<T>, p: R -> bool)
    requires forall i, k :: 0 <= i < |xs| && 0 <= k < |f(xs[i])| ==> p(f(xs[i])[k])
    ensures forall k :: 0 <= k < |FlatMap(f, xs)| ==> p(FlatMap(f, xs)[k])
  {
    if xs != [] {
      assert forall i :: 0 <= i < |xs[1..]| ==> xs[1..][i] == xs[i + 1];
      FlatMapAll(f, xs[1..], p);
      assert forall k :: 0 <= k < |f(xs[0])| ==> p(f(xs[0])[k]);
    }
  }

  /** Two sequences whose elements produce the same output element by element
      produce the same flattened output. */
  lemma {:induction false} FlatMapPointwise<T, R>(f: T -> seq<R>, xs: seq<T>, ys: seq<T>)
    requires |xs| == |ys|
    requires forall i :: 0 <= i < |xs| ==> f(xs[i]) == f(ys[i])
    ensures FlatMap(f, xs) == FlatMap(f, ys)
  {
    if xs != [] {
      assert forall i :: 0 <= i < |xs[1..]| ==> xs[1..][i] == xs[i + 1] && ys[1..][i] == ys[i + 1];
      FlatMapPointwise(f, xs[1..], ys[1..]);
      assert f(xs[0]) == f(ys[0]);
    }
  }
}
