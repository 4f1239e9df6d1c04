/** Subsequences and filters: what is left of a sequence, in its order and with its repetitions. */
module Sequences {

  /** `xs` is `ys` with some elements left out. */
  predicate IsSubsequence<T(==)>(xs: seq<T>, ys: seq<T>) {
    || xs == []
    || (&& ys != []
        && (|| IsSubsequence(xs, ys[..|ys| - 1])
            || (xs[|xs| - 1] == ys[|ys| - 1] && IsSubsequence(xs[..|xs| - 1], ys[..|ys| - 1]))))
  }

  lemma SubsequenceGrows<T>(xs: seq<T>, ys: seq<T>, y: T)
    requires IsSubsequence(xs, ys)
    ensures IsSubsequence(xs, ys + [y]) && IsSubsequence(xs + [y], ys + [y])
  {
    assert (ys + [y])[..|ys|] == ys && (xs + [y])[..|xs|] == xs;
  }

  lemma {:induction false} SubsequenceReflexive<T>(xs: seq<T>)
    ensures IsSubsequence(xs, xs)
  {
    if xs == [] {
    } else {
      SubsequenceReflexive(xs[..|xs| - 1]);
    }
  }

  /** Leaving out one more element leaves a subsequence. */
  lemma {:induction false} SubsequenceLoses<T>(xs: seq<T>, ys: seq<T>, i: nat)
    requires IsSubsequence(xs, ys) && i < |xs|
    ensures IsSubsequence(xs[..i] + xs[i + 1..], ys)
  {
    var rest := xs[..i] + xs[i + 1..];
    var before := ys[..|ys| - 1];
    if IsSubsequence(xs, before) {
      SubsequenceLoses(xs, before, i);
    } else if i == |xs| - 1 {
      assert rest == xs[..|xs| - 1];
    } else {
      SubsequenceLoses(xs[..|xs| - 1], before, i);
      assert rest[|rest| - 1] == ys[|ys| - 1];
      assert rest[..|rest| - 1] == xs[..|xs| - 1][..i] + xs[..|xs| - 1][i + 1..];
    }
  }

  lemma {:induction false} SubsequenceElement<T>(xs: seq<T>, ys: seq<T>, x: T)
    requires IsSubsequence(xs, ys) && x in xs
    ensures x in ys
  {
    var before := ys[..|ys| - 1];
    if IsSubsequence(xs, before) {
      SubsequenceElement(xs, before, x);
    } else if x != xs[|xs| - 1] {
      assert xs == xs[..|xs| - 1] + [xs[|xs| - 1]];
      SubsequenceElement(xs[..|xs| - 1], before, x);
    }
  }

  function Filter<T>(xs: seq<T>, keep: T -> bool): seq<T> {
    if xs == [] then []
    else Filter(xs[..|xs| - 1], keep) + if keep(xs[|xs| - 1]) then [xs[|xs| - 1]] else []
  }

  /** A filter keeps its elements in their order. */
  lemma {:induction false} FilterIsSubsequence<T>(xs: seq<T>, keep: T -> bool)
    ensures IsSubsequence(Filter(xs, keep), xs)
  {
    if xs == [] {
    } else {
      var front, last := xs[..|xs| - 1], xs[|xs| - 1];
      FilterIsSubsequence(front, keep);
      SubsequenceGrows(Filter(front, keep), front, last);
      assert xs == front + [last];
      if !keep(last) { assert Filter(xs, keep) == Filter(front, keep); }
    }
  }

  /** A filter keeps exactly the elements asked for, each as often as it was there. */
  lemma {:induction false} FilterCounts<T>(xs: seq<T>, keep: T -> bool, x: T)
    ensures multiset(Filter(xs, keep))[x] == if keep(x) then multiset(xs)[x] else 0
    ensures x in Filter(xs, keep) <==> x in xs && keep(x)
  {
    if xs == [] {
    } else {
      var front, last := xs[..|xs| - 1], xs[|xs| - 1];
      FilterCounts(front, keep, x);
      assert xs == front + [last];
    }
  }
}
