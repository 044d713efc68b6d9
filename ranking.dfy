/** Ranking: sort_values(..., ascending=False), head(n) and iloc[::-1].

    pandas' default sort is not stable, so the order of equal keys is not
    fixed by the source.  This model fixes it: `SortDesc` is a stable
    insertion sort, so elements with equal keys keep the order they had
    before sorting (for a groupby result, ascending group key).  That is
    also the order nlargest(keep='first') gives. */
module Ranking {

  /** Non-increasing by v. */
  ghost predicate SortedDesc<T>(xs: seq<T>, v: T -> real) {
    forall i, j :: 0 <= i < j < |xs| ==> v(xs[i]) >= v(xs[j])
  }

  /** Put x in front of the first element whose value is not larger than its own. */
  function InsertDesc<T(==)>(x: T, xs: seq<T>, v: T -> real): (r: seq<T>)
    ensures |r| == |xs| + 1
    ensures multiset(r) == multiset(xs) + multiset{x}
    decreases |xs|
  {
    if xs == [] then [x]
    else if v(xs[0]) <= v(x) then [x] + xs
    else
      assert xs == [xs[0]] + xs[1..];
      [xs[0]] + InsertDesc(x, xs[1..], v)
  }

  /** An upper bound on x and on every element of xs bounds the result too. */
  lemma {:induction false} InsertDescBounded<T>(x: T, xs: seq<T>, v: T -> real, b: real)
    requires v(x) <= b && forall k :: 0 <= k < |xs| ==> v(xs[k]) <= b
    ensures forall k :: 0 <= k < |InsertDesc(x, xs, v)| ==> v(InsertDesc(x, xs, v)[k]) <= b
    decreases |xs|
  {
    if xs != [] && v(xs[0]) > v(x) {
      InsertDescBounded(x, xs[1..], v, b);
      var t := InsertDesc(x, xs[1..], v);
      assert InsertDesc(x, xs, v) == [xs[0]] + t;
    }
  }

  /** An element no smaller than anything in a descending sequence can go in front of it. */
  lemma ConsSorted<T>(h: T, t: seq<T>, v: T -> real)
    requires SortedDesc(t, v)
    requires forall k :: 0 <= k < |t| ==> v(t[k]) <= v(h)
    ensures SortedDesc([h] + t, v)
  {
    var r := [h] + t;
    forall i, j | 0 <= i < j < |r| ensures v(r[i]) >= v(r[j]) {
      assert r[j] == t[j - 1];
      if i > 0 {
        assert r[i] == t[i - 1];
      }
    }
  }

  /** Dropping the first element keeps a sequence descending. */
  lemma TailSorted<T>(xs: seq<T>, v: T -> real)
    requires xs != [] && SortedDesc(xs, v)
    ensures SortedDesc(xs[1..], v)
  {
    forall i, j | 0 <= i < j < |xs[1..]| ensures v(xs[1..][i]) >= v(xs[1..][j]) {
      assert xs[1..][i] == xs[i + 1] && xs[1..][j] == xs[j + 1];
    }
  }

  lemma {:induction false} InsertDescSorted<T>(x: T, xs: seq<T>, v: T -> real)
    requires SortedDesc(xs, v)
    ensures SortedDesc(InsertDesc(x, xs, v), v)
    decreases |xs|
  {
    if xs != [] && v(xs[0]) > v(x) {
      var t := InsertDesc(x, xs[1..], v);
      TailSorted(xs, v);
      InsertDescSorted(x, xs[1..], v);
      assert forall k :: 0 <= k < |xs[1..]| ==> v(xs[1..][k]) <= v(xs[0]) by {
        forall k | 0 <= k < |xs[1..]| ensures v(xs[1..][k]) <= v(xs[0]) {
          assert xs[1..][k] == xs[k + 1];
        }
      }
      InsertDescBounded(x, xs[1..], v, v(xs[0]));
      ConsSorted(xs[0], t, v);
      assert InsertDesc(x, xs, v) == [xs[0]] + t;
    } else if xs != [] {
      ConsSorted(x, xs, v);
    }
  }

  /** sort_values(v, ascending=False), ties kept in input order. */
  function SortDesc<T(==)>(xs: seq<T>, v: T -> real): (r: seq<T>)
    ensures |r| == |xs|
    ensures multiset(r) == multiset(xs)
    decreases |xs|
  {
    if xs == [] then []
    else
      assert xs == [xs[0]] + xs[1..];
      InsertDesc(xs[0], SortDesc(xs[1..], v), v)
  }

  /** The sorted sequence is non-increasing. */
  lemma {:induction false} SortDescSorted<T>(xs: seq<T>, v: T -> real)
    ensures SortedDesc(SortDesc(xs, v), v)
    decreases |xs|
  {
    if xs != [] {
      SortDescSorted(xs[1..], v);
      InsertDescSorted(xs[0], SortDesc(xs[1..], v), v);
    }
  }

  /** Sorting keeps exactly the elements it was given. */
  lemma SortDescMembers<T>(xs: seq<T>, v: T -> real)
    ensures forall x :: x in SortDesc(xs, v) <==> x in xs
  {
    var r := SortDesc(xs, v);
    forall x ensures x in r <==> x in xs {
      assert x in r <==> x in multiset(r);
      assert x in xs <==> x in multiset(xs);
    }
  }

  /** head(n): the first n elements, or all of them when there are fewer. */
  function Take<T>(xs: seq<T>, n: nat): (r: seq<T>)
    ensures |r| == if |xs| <= n then |xs| else n
    ensures forall i :: 0 <= i < |r| ==> r[i] == xs[i]
  {
    if |xs| <= n then xs else xs[..n]
  }

  /** The elements head(n) leaves out. */
  function Drop<T>(xs: seq<T>, n: nat): (r: seq<T>)
    ensures Take(xs, n) + r == xs
  {
    if |xs| <= n then [] else xs[n..]
  }

  /** sort_values(ascending=False).head(n), and nlargest(n). */
  function TopN<T(==)>(xs: seq<T>, v: T -> real, n: nat): seq<T> {
    Take(SortDesc(xs, v), n)
  }

  /** The top n are at most n elements of the input, non-increasing, and each is at
      least as large as every element left out. */
  lemma TopNKeepsLargest<T(!new)>(xs: seq<T>, v: T -> real, n: nat)
    ensures var top := TopN(xs, v, n);
      && |top| == (if |xs| <= n then |xs| else n)
      && SortedDesc(top, v)
      && multiset(top) <= multiset(xs)
      && (forall x :: x in multiset(xs) - multiset(top) ==> forall y :: y in top ==> v(y) >= v(x))
  {
    var s := SortDesc(xs, v);
    var top := TopN(xs, v, n);
    var rest := Drop(s, n);
    SortDescSorted(xs, v);
    assert s == top + rest;
    assert multiset(s) == multiset(top) + multiset(rest);
    forall x | x in multiset(xs) - multiset(top) ensures forall y :: y in top ==> v(y) >= v(x) {
      assert x in multiset(rest);
      var j :| 0 <= j < |rest| && rest[j] == x;
      assert s[|top| + j] == x;
      forall y | y in top ensures v(y) >= v(x) {
        var i :| 0 <= i < |top| && top[i] == y;
        assert s[i] == y;
      }
    }
  }

  /** Every element of the top n comes from the input. */
  lemma TopNMembers<T>(xs: seq<T>, v: T -> real, n: nat)
    ensures forall x :: x in TopN(xs, v, n) ==> x in xs
  {
    var s := SortDesc(xs, v);
    SortDescMembers(xs, v);
    assert TopN(xs, v, n) == Take(s, n);
    forall x | x in TopN(xs, v, n) ensures x in xs {
      var i :| 0 <= i < |TopN(xs, v, n)| && TopN(xs, v, n)[i] == x;
      assert s[i] == x && s[i] in s;
    }
  }

  /** Anything larger than the smallest of the top n is in the top n. */
  lemma TopNAbove<T(!new)>(xs: seq<T>, v: T -> real, n: nat, x: T)
    requires x in xs && |TopN(xs, v, n)| > 0
    requires v(x) > v(TopN(xs, v, n)[|TopN(xs, v, n)| - 1])
    ensures x in TopN(xs, v, n)
  {
    var top := TopN(xs, v, n);
    TopNKeepsLargest(xs, v, n);
    assert x in multiset(xs);
    assert top[|top| - 1] in top;
    assert x in multiset(top);
  }

  /** The first of the top n is an element of xs, and none of xs is larger. */
  lemma TopNFirstIsMax<T>(xs: seq<T>, v: T -> real, n: nat)
    requires |TopN(xs, v, n)| > 0
    ensures TopN(xs, v, n)[0] in xs
    ensures forall x :: x in xs ==> v(x) <= v(TopN(xs, v, n)[0])
  {
    var s := SortDesc(xs, v);
    SortDescSorted(xs, v);
    assert TopN(xs, v, n)[0] == s[0];
    assert s[0] in multiset(s);
    forall x | x in xs ensures v(x) <= v(s[0]) {
      assert x in multiset(xs);
      var k :| 0 <= k < |s| && s[k] == x;
      if k > 0 { assert v(s[0]) >= v(s[k]); }
    }
  }

  /** iloc[::-1]: the display order of the horizontal bar charts. */
  function Reverse<T>(xs: seq<T>): (r: seq<T>)
    ensures |r| == |xs|
    ensures forall i :: 0 <= i < |xs| ==> r[i] == xs[|xs| - 1 - i]
  {
    seq(|xs|, i requires 0 <= i < |xs| => xs[|xs| - 1 - i])
  }

  /** Reversing the display order twice gives back the ranking. */
  lemma ReverseReverse<T>(xs: seq<T>)
    ensures Reverse(Reverse(xs)) == xs
  {
  }

  /** Column sum: Series.sum() of v over xs. */
  function SumBy<T>(xs: seq<T>, v: T -> real): real
    decreases |xs|
  {
    if xs == [] then 0.0 else v(xs[0]) + SumBy(xs[1..], v)
  }

  lemma {:induction false} SumByAppend<T>(a: seq<T>, b: seq<T>, v: T -> real)
    ensures SumBy(a + b, v) == SumBy(a, v) + SumBy(b, v)
    decreases |a|
  {
    if a == [] {
      assert a + b == b;
    } else {
      assert (a + b)[1..] == a[1..] + b;
      SumByAppend(a[1..], b, v);
    }
  }

  lemma SumByRemove<T>(b: seq<T>, k: nat, v: T -> real)
    requires k < |b|
    ensures SumBy(b, v) == v(b[k]) + SumBy(b[..k] + b[k + 1..], v)
  {
    assert b == b[..k] + ([b[k]] + b[k + 1..]);
    SumByAppend(b[..k], [b[k]] + b[k + 1..], v);
    SumByAppend(b[..k], b[k + 1..], v);
  }

  lemma MultisetRemove<T>(b: seq<T>, k: nat)
    requires k < |b|
    ensures multiset(b[..k] + b[k + 1..]) == multiset(b) - multiset{b[k]}
  {
    assert b == b[..k] + [b[k]] + b[k + 1..];
  }

  /** A column sum does not depend on the order of the rows. */
  lemma {:induction false} SumByPermutation<T>(a: seq<T>, b: seq<T>, v: T -> real)
    requires multiset(a) == multiset(b)
    ensures SumBy(a, v) == SumBy(b, v)
    decreases |a|
  {
    if a == [] {
      assert |b| == |multiset(b)| == 0;
    } else {
      var x := a[0];
      assert x in multiset(b);
      var k :| 0 <= k < |b| && b[k] == x;
      assert a == [x] + a[1..];
      assert multiset(a[1..]) == multiset(a) - multiset{x};
      MultisetRemove(b, k);
      SumByPermutation(a[1..], b[..k] + b[k + 1..], v);
      SumByRemove(b, k, v);
    }
  }

  /** Sorting does not change a column sum. */
  lemma SumBySorted<T>(xs: seq<T>, key: T -> real, v: T -> real)
    ensures SumBy(SortDesc(xs, key), v) == SumBy(xs, v)
  {
    SumByPermutation(SortDesc(xs, key), xs, v);
  }

  /** Non-negative values have a non-negative sum. */
  lemma {:induction false} SumByNonNegative<T>(xs: seq<T>, v: T -> real)
    requires forall i :: 0 <= i < |xs| ==> v(xs[i]) >= 0.0
    ensures SumBy(xs, v) >= 0.0
    decreases |xs|
  {
    if xs != [] {
      assert forall i :: 0 <= i < |xs[1..]| ==> xs[1..][i] == xs[i + 1];
      SumByNonNegative(xs[1..], v);
    }
  }

  /** Of non-negative values, the first n sum to at most the whole and at least 0. */
  lemma SumByTakeBounded<T>(xs: seq<T>, v: T -> real, n: nat)
    requires forall i :: 0 <= i < |xs| ==> v(xs[i]) >= 0.0
    ensures 0.0 <= SumBy(Take(xs, n), v) <= SumBy(xs, v)
  {
    if |xs| <= n {
      SumByNonNegative(xs, v);
    } else {
      var t, d := xs[..n], xs[n..];
      assert xs == t + d;
      SumByAppend(t, d, v);
      assert forall i :: 0 <= i < |t| ==> t[i] == xs[i];
      assert forall i :: 0 <= i < |d| ==> d[i] == xs[n + i];
      SumByNonNegative(t, v);
      SumByNonNegative(d, v);
    }
  }

  /** Reversing a non-empty sequence puts its head last. */
  lemma ReverseUnfold<T>(xs: seq<T>)
    requires xs != []
    ensures Reverse(xs) == Reverse(xs[1..]) + [xs[0]]
  {
    var r, t := Reverse(xs), Reverse(xs[1..]) + [xs[0]];
    assert |r| == |t|;
    forall i | 0 <= i < |r| ensures r[i] == t[i] {
      if i < |xs| - 1 {
        assert t[i] == Reverse(xs[1..])[i] == xs[1..][|xs| - 2 - i];
      }
    }
  }

  lemma {:induction false} SumByReverse<T>(xs: seq<T>, v: T -> real)
    ensures SumBy(Reverse(xs), v) == SumBy(xs, v)
    decreases |xs|
  {
    if xs != [] {
      SumByReverse(xs[1..], v);
      ReverseUnfold(xs);
      SumByAppend(Reverse(xs[1..]), [xs[0]], v);
    }
  }
}
