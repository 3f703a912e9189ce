/** Order-preserving sub-lists: what JavaScript's `Array.prototype.filter` returns. */
module Lists {
  /** `xs` is `ys` with some elements left out, the rest in their order. */
  predicate IsSublist<T(==)>(xs: seq<T>, ys: seq<T>)
    decreases |ys|
  {
    xs == []
    || (ys != [] && ((xs[0] == ys[0] && IsSublist(xs[1..], ys[1..])) || IsSublist(xs, ys[1..])))
  }

  /** The elements that satisfy `keep`, in their order. */
  function Filter<T>(xs: seq<T>, keep: T -> bool): (r: seq<T>)
    ensures |r| <= |xs|
    ensures forall x | x in r :: x in xs && keep(x)
    ensures forall i | 0 <= i < |xs| && keep(xs[i]) :: xs[i] in r
  {
    if xs == [] then []
    else (if keep(xs[0]) then [xs[0]] else []) + Filter(xs[1..], keep)
  }

  /** `filter` keeps every copy of a kept element and no copy of any other. */
  lemma {:induction false} FilterCounts<T>(xs: seq<T>, keep: T -> bool)
    ensures forall x :: multiset(Filter(xs, keep))[x] == if keep(x) then multiset(xs)[x] else 0
    decreases |xs|
  {
    if xs != [] {
      FilterCounts(xs[1..], keep);
      assert xs == [xs[0]] + xs[1..];
    }
  }

  /** `xs.map(f)`: `f` of each element, in order. */
  function Map<T, U>(xs: seq<T>, f: T -> U): (r: seq<U>)
    ensures |r| == |xs|
    ensures forall i | 0 <= i < |xs| :: r[i] == f(xs[i])
  {
    seq(|xs|, i requires 0 <= i < |xs| => f(xs[i]))
  }

  /** `filter` keeps its survivors in order. */
  lemma {:induction false} FilterIsSublist<T>(xs: seq<T>, keep: T -> bool)
    ensures IsSublist(Filter(xs, keep), xs)
    decreases |xs|
  {
    if xs != [] {
      FilterIsSublist(xs[1..], keep);
      var rest := Filter(xs[1..], keep);
      if keep(xs[0]) {
        assert Filter(xs, keep) == [xs[0]] + rest;
        assert ([xs[0]] + rest)[1..] == rest;
      } else {
        assert Filter(xs, keep) == rest;
      }
    }
  }

  /** Filtering with a condition every element meets changes nothing. */
  lemma {:induction false} FilterAll<T>(xs: seq<T>, keep: T -> bool)
    requires forall x | x in xs :: keep(x)
    ensures Filter(xs, keep) == xs
    decreases |xs|
  {
    if xs != [] {
      assert forall x | x in xs[1..] :: x in xs;
      FilterAll(xs[1..], keep);
      assert keep(xs[0]);
      assert Filter(xs, keep) == [xs[0]] + Filter(xs[1..], keep);
      assert [xs[0]] + xs[1..] == xs;
    }
  }

  /** Filtering twice with the same condition is filtering once. */
  lemma {:induction false} FilterIdempotent<T>(xs: seq<T>, keep: T -> bool)
    ensures Filter(Filter(xs, keep), keep) == Filter(xs, keep)
    decreases |xs|
  {
    FilterAll(Filter(xs, keep), keep);
  }

  /** Filtering a list with one more element in front. */
  lemma FilterCons<T>(x: T, xs: seq<T>, keep: T -> bool)
    ensures Filter([x] + xs, keep) == (if keep(x) then [x] else []) + Filter(xs, keep)
  {
    assert ([x] + xs)[1..] == xs;
  }

  /** Filtering a list extended by one element. */
  lemma {:induction false} FilterAppend<T>(xs: seq<T>, x: T, keep: T -> bool)
    ensures Filter(xs + [x], keep) == Filter(xs, keep) + (if keep(x) then [x] else [])
    decreases |xs|
  {
    var ys := xs + [x];
    if xs == [] {
      assert ys == [x] && ys[1..] == [];
    } else {
      assert ys[0] == xs[0];
      assert ys[1..] == xs[1..] + [x];
      FilterAppend(xs[1..], x, keep);
    }
  }
}
