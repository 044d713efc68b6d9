/** Orders on the key types the dashboard groups by.

    pandas' groupby returns its groups in ascending key order; these
    predicates fix that order: strings compare by code point
    (lexicographically, as Python compares str), tuples compare
    component by component, periods by year and then month. */
module Order {

  /** A strict total order: irreflexive, transitive and connected. */
  ghost predicate IsStrictTotalOrder<K(!new)>(lt: (K, K) -> bool) {
    && (forall a :: !lt(a, a))
    && (forall a, b, c :: lt(a, b) && lt(b, c) ==> lt(a, c))
    && (forall a, b :: a != b ==> lt(a, b) || lt(b, a))
  }

  /** Python's `<` on str: lexicographic by code point, a proper prefix first. */
  predicate StrLt(a: string, b: string)
    decreases |a|
  {
    if |a| == 0 then |b| > 0
    else if |b| == 0 then false
    else if a[0] != b[0] then a[0] < b[0]
    else StrLt(a[1..], b[1..])
  }

  lemma {:induction false} StrLtIrreflexive(a: string)
    ensures !StrLt(a, a)
    decreases |a|
  {
    if |a| > 0 { StrLtIrreflexive(a[1..]); }
  }

  lemma {:induction false} StrLtTransitive(a: string, b: string, c: string)
    requires StrLt(a, b) && StrLt(b, c)
    ensures StrLt(a, c)
    decreases |a|
  {
    if |a| > 0 && |b| > 0 && |c| > 0 && a[0] == b[0] && b[0] == c[0] {
      StrLtTransitive(a[1..], b[1..], c[1..]);
    }
  }

  lemma {:induction false} StrLtConnected(a: string, b: string)
    requires a != b
    ensures StrLt(a, b) || StrLt(b, a)
    decreases |a|
  {
    if |a| > 0 && |b| > 0 && a[0] == b[0] {
      assert a == [a[0]] + a[1..] && b == [b[0]] + b[1..];
      StrLtConnected(a[1..], b[1..]);
    }
  }

  lemma StrLtIsStrictTotalOrder()
    ensures IsStrictTotalOrder(StrLt)
  {
    forall a { StrLtIrreflexive(a); }
    forall a, b, c | StrLt(a, b) && StrLt(b, c) { StrLtTransitive(a, b, c); }
    forall a, b | a != b { StrLtConnected(a, b); }
  }

  /** Comparing two strings that start with prefixes of the same length:
      the prefixes decide unless they are equal. */
  lemma {:induction false} StrLtConcat(a: string, b: string, s: string, t: string)
    requires |a| == |b|
    ensures StrLt(a + s, b + t) == if a == b then StrLt(s, t) else StrLt(a, b)
    decreases |a|
  {
    if |a| > 0 {
      assert (a + s)[0] == a[0] && (b + t)[0] == b[0];
      assert (a + s)[1..] == a[1..] + s && (b + t)[1..] == b[1..] + t;
      StrLtConcat(a[1..], b[1..], s, t);
      if a[0] == b[0] && a[1..] == b[1..] {
        assert a == [a[0]] + a[1..] && b == [b[0]] + b[1..];
      }
    } else {
      assert a == [] && b == [];
      assert a + s == s && b + t == t;
    }
  }

  /** Order on (ITEM CODE, ITEM DESCRIPTION) keys. */
  predicate PairLt(a: (string, string), b: (string, string)) {
    StrLt(a.0, b.0) || (a.0 == b.0 && StrLt(a.1, b.1))
  }

  /** Order on (ITEM CODE, ITEM DESCRIPTION, ITEM TYPE) keys. */
  predicate TripleLt(a: (string, string, string), b: (string, string, string)) {
    StrLt(a.0, b.0) || (a.0 == b.0 && (StrLt(a.1, b.1) || (a.1 == b.1 && StrLt(a.2, b.2))))
  }

  /** Order on integer keys (YEAR, MONTH). */
  predicate IntLt(a: int, b: int) { a < b }

  lemma PairLtIsStrictTotalOrder()
    ensures IsStrictTotalOrder(PairLt)
  {
    StrLtIsStrictTotalOrder();
  }

  lemma TripleLtIsStrictTotalOrder()
    ensures IsStrictTotalOrder(TripleLt)
  {
    StrLtIsStrictTotalOrder();
  }

  lemma IntLtIsStrictTotalOrder()
    ensures IsStrictTotalOrder(IntLt)
  {
  }
}
