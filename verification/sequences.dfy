/** `Array.prototype.filter` and `find`, and the subsequence relation
    filtering establishes. */
module Sequences {
  import opened Wrappers

  /** `xs` with `a` obtained by deleting elements of `b`, order kept. */
  predicate IsSubsequence<T(==)>(a: seq<T>, b: seq<T>)
    decreases |b|
  {
    if |a| == 0 then true
    else if |b| == 0 then false
    else (a[0] == b[0] && IsSubsequence(a[1..], b[1..])) || IsSubsequence(a, b[1..])
  }

  /** `xs.filter(keep)`: the elements that pass, each as often as in `xs`. */
  function Filter<T(==,!new)>(xs: seq<T>, keep: T -> bool): (r: seq<T>)
    ensures |r| <= |xs|
    ensures forall i :: 0 <= i < |r| ==> keep(r[i])
    ensures forall x :: x in r <==> x in xs && keep(x)
    ensures forall x :: multiset(r)[x] == if keep(x) then multiset(xs)[x] else 0
  {
    if xs == [] then []
    else
      assert xs == [xs[0]] + xs[1..];
      if keep(xs[0]) then [xs[0]] + Filter(xs[1..], keep) else Filter(xs[1..], keep)
  }

  /** A filter result lists its elements in their original order. */
  lemma {:induction false} FilterIsSubsequence<T(!new)>(xs: seq<T>, keep: T -> bool)
    ensures IsSubsequence(Filter(xs, keep), xs)
  {
    if xs != [] {
      FilterIsSubsequence(xs[1..], keep);
      var r := Filter(xs, keep);
      if keep(xs[0]) {
        assert r[1..] == Filter(xs[1..], keep);
      } else {
        SubsequenceOfTail(r, xs);
      }
    }
  }

  /** Dropping the head of the longer sequence keeps a subsequence. */
  lemma SubsequenceOfTail<T>(a: seq<T>, b: seq<T>)
    requires |b| > 0 && IsSubsequence(a, b[1..])
    ensures IsSubsequence(a, b)
  {
  }

  /** The filter keeps the whole sequence exactly when every element passes. */
  lemma {:induction false} FilterKeepsAll<T(!new)>(xs: seq<T>, keep: T -> bool)
    ensures Filter(xs, keep) == xs <==> forall i :: 0 <= i < |xs| ==> keep(xs[i])
  {
    if xs != [] {
      FilterKeepsAll(xs[1..], keep);
      if !keep(xs[0]) {
        assert |Filter(xs, keep)| < |xs|;
      }
    }
  }

  /** The filter drops everything exactly when no element passes. */
  lemma FilterEmpty<T(!new)>(xs: seq<T>, keep: T -> bool)
    ensures Filter(xs, keep) == [] <==> forall i :: 0 <= i < |xs| ==> !keep(xs[i])
  {
    var r := Filter(xs, keep);
    if r == [] {
      forall i | 0 <= i < |xs| ensures !keep(xs[i]) {
        assert xs[i] in xs;
      }
    } else {
      assert r[0] in xs;
    }
  }

  /** The position of the first element at or after `from` that passes
      `test`; `xs.findIndex(test)` for `from == 0`. */
  function FindFirst<T>(xs: seq<T>, test: T -> bool, from: nat): (r: Option<nat>)
    requires from <= |xs|
    ensures r.None? <==> forall i :: from <= i < |xs| ==> !test(xs[i])
    ensures r.Some? ==> from <= r.value < |xs| && test(xs[r.value])
    ensures r.Some? ==> forall j :: from <= j < r.value ==> !test(xs[j])
    decreases |xs| - from
  {
    if from == |xs| then None
    else if test(xs[from]) then Some(from)
    else FindFirst(xs, test, from + 1)
  }
}
