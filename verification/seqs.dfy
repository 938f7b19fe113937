/** Sequence combinators mirroring `Array.prototype.filter` and index-wise `map`. */
module Seqs {

  /**
    The elements of `xs` that satisfy `keep`, in their original order (see
    `FilterKeepsOrder`), each as many times as it occurs in `xs` (see `FilterCounts`).
  */
  function Filter<T>(xs: seq<T>, keep: T -> bool): (r: seq<T>)
    ensures |r| <= |xs|
    ensures forall i :: 0 <= i < |r| ==> r[i] in xs && keep(r[i])
    ensures forall i :: 0 <= i < |xs| && keep(xs[i]) ==> xs[i] in r
    decreases |xs|
  {
    if |xs| == 0 then []
    else
      assert xs == [xs[0]] + xs[1..];
      if keep(xs[0]) then [xs[0]] + Filter(xs[1..], keep) else Filter(xs[1..], keep)
  }

  /** A kept value occurs as often as in `xs`; any other value does not occur at all. */
  lemma {:induction false} FilterCounts<T>(xs: seq<T>, keep: T -> bool)
    ensures forall x :: multiset(Filter(xs, keep))[x] == if keep(x) then multiset(xs)[x] else 0
    decreases |xs|
  {
    if |xs| > 0 {
      assert xs == [xs[0]] + xs[1..];
      assert multiset(xs) == multiset([xs[0]]) + multiset(xs[1..]);
      FilterCounts(xs[1..], keep);
    }
  }

  /** Filtering commutes with concatenation, so kept elements keep their relative order. */
  lemma {:induction false} FilterAppend<T>(xs: seq<T>, ys: seq<T>, keep: T -> bool)
    ensures Filter(xs + ys, keep) == Filter(xs, keep) + Filter(ys, keep)
    decreases |xs|
  {
    if |xs| == 0 {
      assert xs + ys == ys;
    } else {
      assert (xs + ys)[0] == xs[0];
      assert (xs + ys)[1..] == xs[1..] + ys;
      FilterAppend(xs[1..], ys, keep);
    }
  }

  /**
    Filtering keeps relative order: any two kept elements come from two positions of
    `xs` in the same order.
  */
  lemma {:induction false} FilterKeepsOrder<T>(xs: seq<T>, keep: T -> bool, i: int, j: int) returns (a: int, b: int)
    requires 0 <= i < j < |Filter(xs, keep)|
    ensures 0 <= a < b < |xs|
    ensures xs[a] == Filter(xs, keep)[i] && xs[b] == Filter(xs, keep)[j]
    decreases |xs|
  {
    var rest := xs[1..];
    if keep(xs[0]) {
      assert Filter(xs, keep) == [xs[0]] + Filter(rest, keep);
      if i == 0 {
        var b' := FilterSource(rest, keep, j - 1);
        a, b := 0, b' + 1;
      } else {
        var a', b' := FilterKeepsOrder(rest, keep, i - 1, j - 1);
        a, b := a' + 1, b' + 1;
      }
    } else {
      assert Filter(xs, keep) == Filter(rest, keep);
      var a', b' := FilterKeepsOrder(rest, keep, i, j);
      a, b := a' + 1, b' + 1;
    }
  }

  /** Every kept element comes from some position of `xs`. */
  lemma {:induction false} FilterSource<T>(xs: seq<T>, keep: T -> bool, j: int) returns (b: int)
    requires 0 <= j < |Filter(xs, keep)|
    ensures 0 <= b < |xs| && xs[b] == Filter(xs, keep)[j]
    decreases |xs|
  {
    var rest := xs[1..];
    if keep(xs[0]) {
      assert Filter(xs, keep) == [xs[0]] + Filter(rest, keep);
      if j == 0 {
        b := 0;
      } else {
        var b' := FilterSource(rest, keep, j - 1);
        b := b' + 1;
      }
    } else {
      assert Filter(xs, keep) == Filter(rest, keep);
      var b' := FilterSource(rest, keep, j);
      b := b' + 1;
    }
  }

  /** Filtering keeps a sequence whose every element passes. */
  lemma {:induction false} FilterKeepsAll<T>(xs: seq<T>, keep: T -> bool)
    requires forall i :: 0 <= i < |xs| ==> keep(xs[i])
    ensures Filter(xs, keep) == xs
    decreases |xs|
  {
    if |xs| > 0 {
      FilterKeepsAll(xs[1..], keep);
    }
  }

  /** `xs` with every element satisfying `hit` replaced by `f` of itself (the `map(x => hit ? f(x) : x)` idiom). */
  function MapIf<T>(xs: seq<T>, hit: T -> bool, f: T -> T): (r: seq<T>)
    ensures |r| == |xs|
    ensures forall i :: 0 <= i < |xs| ==> r[i] == if hit(xs[i]) then f(xs[i]) else xs[i]
  {
    seq(|xs|, i requires 0 <= i < |xs| => if hit(xs[i]) then f(xs[i]) else xs[i])
  }

  /** `xs` with only the element at `idx` replaced by `f` of itself; unchanged when `idx` is out of range. */
  function UpdateAt<T>(xs: seq<T>, idx: int, f: T -> T): (r: seq<T>)
    ensures |r| == |xs|
    ensures forall i :: 0 <= i < |xs| && i != idx ==> r[i] == xs[i]
    ensures 0 <= idx < |xs| ==> r[idx] == f(xs[idx])
  {
    seq(|xs|, i requires 0 <= i < |xs| => if i == idx then f(xs[i]) else xs[i])
  }
}
