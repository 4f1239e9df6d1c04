/** Sorting of distinct strings by code point, as the evaluator's report of stale topics needs it. */
module StringOrder {

  /** Strict lexicographic order. */
  predicate Less(a: string, b: string) {
    b != "" && (a == "" || a[0] < b[0] || (a[0] == b[0] && Less(a[1..], b[1..])))
  }

  /** After a common beginning of length `k`, `a` ends or has the smaller character. */
  predicate FirstDifference(a: string, b: string, k: nat) {
    && k <= |a| && k < |b| && a[..k] == b[..k]
    && (k == |a| || a[k] < b[k])
  }

  /** The order is the lexicographic one by code points. */
  lemma {:induction false} LessIsLexicographic(a: string, b: string)
    ensures Less(a, b) <==> exists k: nat :: FirstDifference(a, b, k)
  {
    if b == "" {
    } else if a == "" || a[0] < b[0] {
      assert FirstDifference(a, b, 0);
    } else if a[0] != b[0] {
      forall k: nat | k <= |a| && k < |b| ensures !FirstDifference(a, b, k) {
        if k > 0 { assert a[..k][0] == a[0] && b[..k][0] == b[0]; }
      }
    } else {
      LessIsLexicographic(a[1..], b[1..]);
      if k: nat :| FirstDifference(a[1..], b[1..], k) {
        assert a[..k + 1] == [a[0]] + a[1..][..k] && b[..k + 1] == [b[0]] + b[1..][..k];
        assert FirstDifference(a, b, k + 1);
      }
      if k: nat :| FirstDifference(a, b, k) {
        assert k > 0;
        assert a[1..][..k - 1] == a[..k][1..] && b[1..][..k - 1] == b[..k][1..];
        assert FirstDifference(a[1..], b[1..], k - 1);
      }
    }
  }

  lemma {:induction false} LessTransitive(a: string, b: string, c: string)
    requires Less(a, b) && Less(b, c)
    ensures Less(a, c)
  {
    if a != "" && a[0] == b[0] == c[0] { LessTransitive(a[1..], b[1..], c[1..]); }
  }

  lemma {:induction false} LessIsTotal(a: string, b: string)
    ensures Less(a, b) || Less(b, a) || a == b
    ensures !(Less(a, b) && Less(b, a)) && !Less(a, a)
  {
    if a != "" && b != "" {
      LessIsTotal(a[1..], b[1..]);
      if a[0] == b[0] && a[1..] == b[1..] { assert a == [a[0]] + a[1..] == b; }
    }
    if a != "" { LessIsTotal(a[1..], a[1..]); }
  }

  predicate Sorted(xs: seq<string>) {
    forall i, j | 0 <= i < j < |xs| :: Less(xs[i], xs[j])
  }

  /** `x` put into its place, unless it is there already. */
  function Insert(xs: seq<string>, x: string): seq<string> {
    if xs == [] then [x]
    else if x == xs[0] then xs
    else if Less(x, xs[0]) then [x] + xs
    else [xs[0]] + Insert(xs[1..], x)
  }

  function Sort(xs: seq<string>): seq<string> {
    if xs == [] then [] else Insert(Sort(xs[..|xs| - 1]), xs[|xs| - 1])
  }

  ghost predicate SameElements(xs: seq<string>, ys: seq<string>) {
    forall x :: x in xs <==> x in ys
  }

  lemma {:induction false} InsertElements(xs: seq<string>, x: string, y: string)
    ensures y in Insert(xs, x) <==> y in xs || y == x
  {
    if xs == [] {
    } else {
      InsertElements(xs[1..], x, y);
      assert xs == [xs[0]] + xs[1..];
    }
  }

  lemma {:induction false} InsertSorted(xs: seq<string>, x: string)
    requires Sorted(xs)
    ensures Sorted(Insert(xs, x))
  {
    if xs != [] && x != xs[0] {
      if Less(x, xs[0]) {
        forall j | 0 < j < |xs| ensures Less(x, xs[j]) { LessTransitive(x, xs[0], xs[j]); }
      } else {
        LessIsTotal(x, xs[0]);
        InsertSorted(xs[1..], x);
        var rest := Insert(xs[1..], x);
        forall j | 0 <= j < |rest| ensures Less(xs[0], rest[j]) {
          InsertElements(xs[1..], x, rest[j]);
        }
      }
    }
  }

  lemma {:induction false} SortWorks(xs: seq<string>)
    ensures Sorted(Sort(xs)) && SameElements(Sort(xs), xs)
  {
    if xs == [] {
    } else {
      var front, last := xs[..|xs| - 1], xs[|xs| - 1];
      SortWorks(front);
      InsertSorted(Sort(front), last);
      assert xs == front + [last];
      forall y ensures y in Sort(xs) <==> y in xs { InsertElements(Sort(front), last, y); }
    }
  }

  /** A set of strings has one sorted listing. */
  lemma {:induction false} SortedIsUnique(xs: seq<string>, ys: seq<string>)
    requires Sorted(xs) && Sorted(ys) && SameElements(xs, ys)
    ensures xs == ys
  {
    var y := if ys == [] then "" else ys[0];
    assert ys != [] ==> y in ys;
    if xs == [] {
    } else {
      assert xs[0] in ys;
      assert ys[0] in xs;
      HeadsAgree(xs, ys);
      forall x ensures x in xs[1..] <==> x in ys[1..] { TailElements(xs, x); TailElements(ys, x); }
      SortedIsUnique(xs[1..], ys[1..]);
    }
  }

  lemma HeadsAgree(xs: seq<string>, ys: seq<string>)
    requires Sorted(xs) && Sorted(ys) && xs != [] && ys != [] && xs[0] in ys && ys[0] in xs
    ensures xs[0] == ys[0]
  {
    LessIsTotal(xs[0], ys[0]);
  }

  lemma TailElements(xs: seq<string>, x: string)
    requires Sorted(xs) && xs != []
    ensures x in xs[1..] <==> x in xs && x != xs[0]
  {
    LessIsTotal(xs[0], xs[0]);
    assert xs == [xs[0]] + xs[1..];
  }
}
