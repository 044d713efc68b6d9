/** The transaction table and the group-by-and-sum primitive every metric is built on.

    A row is one line of the sales file.  `Agg` holds what the endpoints
    ever ask of a group: its row count and the sums of the three amount
    columns.  `GroupBy` returns one group per distinct key, in ascending
    key order (pandas' default `sort=True`), each holding the sums over
    exactly the rows with that key; `GroupByConserves` proves that the
    groups together hold the whole table's totals. */
module Table {
  import opened Order

  datatype Period = Period(year: int, month: int)

  /** Chronological order of (YEAR, MONTH): the order of sort_values(['YEAR', 'MONTH']). */
  predicate PeriodLt(p: Period, q: Period) {
    p.year < q.year || (p.year == q.year && p.month < q.month)
  }

  lemma PeriodLtIsStrictTotalOrder()
    ensures IsStrictTotalOrder(PeriodLt)
  {
  }

  datatype Row = Row(
    year: int,
    month: int,
    supplier: string,
    itemCode: string,
    itemDescription: string,
    itemType: string,
    retailSales: real,
    retailTransfers: real,
    warehouseSales: real)

  // The grouping keys the endpoints use.
  function PeriodOf(r: Row): Period { Period(r.year, r.month) }
  function YearOf(r: Row): int { r.year }
  function MonthOf(r: Row): int { r.month }
  function ItemTypeOf(r: Row): string { r.itemType }
  function SupplierOf(r: Row): string { r.supplier }
  function ItemCodeOf(r: Row): string { r.itemCode }
  /** (ITEM CODE, ITEM DESCRIPTION) */
  function ItemOf(r: Row): (string, string) { (r.itemCode, r.itemDescription) }
  /** (ITEM CODE, ITEM DESCRIPTION, ITEM TYPE) */
  function ItemWithTypeOf(r: Row): (string, string, string) { (r.itemCode, r.itemDescription, r.itemType) }

  /** Row count and column sums of a set of rows. */
  datatype Agg = Agg(count: nat, retail: real, transfers: real, warehouse: real) {
    function Plus(other: Agg): Agg {
      Agg(count + other.count, retail + other.retail, transfers + other.transfers, warehouse + other.warehouse)
    }
    /** RETAIL SALES + RETAIL TRANSFERS + WAREHOUSE SALES */
    function Volume(): real { retail + transfers + warehouse }
  }

  const NoRows := Agg(0, 0.0, 0.0, 0.0)

  function RowAgg(r: Row): Agg {
    Agg(1, r.retailSales, r.retailTransfers, r.warehouseSales)
  }

  /** Column sums over a sequence (an empty sequence sums to zero). */
  function Total<T>(xs: seq<T>, val: T -> Agg): Agg
    decreases |xs|
  {
    if xs == [] then NoRows else val(xs[0]).Plus(Total(xs[1..], val))
  }

  lemma {:induction false} TotalAppend<T>(a: seq<T>, b: seq<T>, val: T -> Agg)
    ensures Total(a + b, val) == Total(a, val).Plus(Total(b, val))
    decreases |a|
  {
    if a == [] {
      assert a + b == b;
    } else {
      assert (a + b)[0] == a[0] && (a + b)[1..] == a[1..] + b;
      TotalAppend(a[1..], b, val);
    }
  }

  lemma {:induction false} TotalCount(rows: seq<Row>)
    ensures Total(rows, RowAgg).count == |rows|
    decreases |rows|
  {
    if rows != [] { TotalCount(rows[1..]); }
  }

  /** The elements whose key is k, in their original order. */
  function Where<T(==,!new), K(==)>(xs: seq<T>, key: T -> K, k: K): (r: seq<T>)
    ensures |r| <= |xs|
    ensures forall x :: x in r <==> x in xs && key(x) == k
    decreases |xs|
  {
    if xs == [] then [] else (if key(xs[0]) == k then [xs[0]] else []) + Where(xs[1..], key, k)
  }

  /** The elements satisfying p, in their original order. */
  function Filter<T(==,!new)>(xs: seq<T>, p: T -> bool): (r: seq<T>)
    ensures |r| <= |xs|
    ensures forall x :: x in r <==> x in xs && p(x)
    ensures multiset(r) <= multiset(xs)
    decreases |xs|
  {
    if xs == [] then []
    else
      assert xs == [xs[0]] + xs[1..];
      (if p(xs[0]) then [xs[0]] else []) + Filter(xs[1..], p)
  }

  /** How many elements satisfy p. */
  function Count<T(==,!new)>(xs: seq<T>, p: T -> bool): (n: nat)
    ensures n == |Filter(xs, p)|
    ensures n <= |xs|
    decreases |xs|
  {
    if xs == [] then 0 else (if p(xs[0]) then 1 else 0) + Count(xs[1..], p)
  }

  lemma {:induction false} CountMonotone<T(!new)>(xs: seq<T>, p: T -> bool, q: T -> bool)
    requires forall x :: x in xs && p(x) ==> q(x)
    ensures Count(xs, p) <= Count(xs, q)
    decreases |xs|
  {
    if xs != [] {
      assert forall x :: x in xs[1..] ==> x in xs;
      CountMonotone(xs[1..], p, q);
    }
  }

  /** Two conditions no element meets together count at most the elements there are. */
  lemma {:induction false} CountDisjoint<T(!new)>(xs: seq<T>, p: T -> bool, q: T -> bool)
    requires forall x :: x in xs ==> !(p(x) && q(x))
    ensures Count(xs, p) + Count(xs, q) <= |xs|
    decreases |xs|
  {
    if xs != [] {
      assert forall x :: x in xs[1..] ==> x in xs;
      assert xs[0] in xs;
      CountDisjoint(xs[1..], p, q);
    }
  }

  ghost predicate Distinct<K>(ks: seq<K>) {
    forall i, j :: 0 <= i < j < |ks| ==> ks[i] != ks[j]
  }

  ghost predicate StrictlyAscending<K>(ks: seq<K>, lt: (K, K) -> bool) {
    forall i, j :: 0 <= i < j < |ks| ==> lt(ks[i], ks[j])
  }

  /** Insert k into an ascending list of distinct keys, unless it is there already. */
  function InsertKey<K(==,!new)>(k: K, ks: seq<K>, lt: (K, K) -> bool): (r: seq<K>)
    ensures forall e :: e in r <==> e == k || e in ks
    decreases |ks|
  {
    if ks == [] then [k]
    else if k == ks[0] then ks
    else if lt(k, ks[0]) then [k] + ks
    else [ks[0]] + InsertKey(k, ks[1..], lt)
  }

  lemma {:induction false} InsertKeyAscending<K(!new)>(k: K, ks: seq<K>, lt: (K, K) -> bool)
    requires IsStrictTotalOrder(lt) && StrictlyAscending(ks, lt)
    ensures StrictlyAscending(InsertKey(k, ks, lt), lt)
    decreases |ks|
  {
    if ks != [] && k != ks[0] && !lt(k, ks[0]) {
      assert lt(ks[0], k);
      InsertKeyAscending(k, ks[1..], lt);
      var r := InsertKey(k, ks, lt);
      var t := InsertKey(k, ks[1..], lt);
      assert r == [ks[0]] + t;
      forall e | e in t ensures lt(ks[0], e) {
        if e != k {
          var j :| 0 <= j < |ks[1..]| && ks[1..][j] == e;
          assert ks[j + 1] == e;
        }
      }
      forall i, j | 0 <= i < j < |r| ensures lt(r[i], r[j]) {
        if i == 0 {
          assert r[j] == t[j - 1] && t[j - 1] in t;
        } else {
          assert r[i] == t[i - 1] && r[j] == t[j - 1];
        }
      }
    }
  }

  /** The distinct keys of xs in ascending order: the group index pandas builds. */
  function SortedKeys<T, K(==,!new)>(xs: seq<T>, key: T -> K, lt: (K, K) -> bool): (ks: seq<K>)
    ensures forall k :: k in ks <==> exists i :: 0 <= i < |xs| && key(xs[i]) == k
    decreases |xs|
  {
    if xs == [] then []
    else
      var ks := InsertKey(key(xs[0]), SortedKeys(xs[1..], key, lt), lt);
      assert forall k :: k in ks ==> exists i :: 0 <= i < |xs| && key(xs[i]) == k by {
        forall k | k in ks ensures exists i :: 0 <= i < |xs| && key(xs[i]) == k {
          if k != key(xs[0]) {
            var i :| 0 <= i < |xs[1..]| && key(xs[1..][i]) == k;
            assert key(xs[i + 1]) == k;
          }
        }
      }
      assert forall i :: 0 <= i < |xs| ==> key(xs[i]) in ks by {
        forall i | 0 <= i < |xs| ensures key(xs[i]) in ks {
          if i > 0 { assert key(xs[1..][i - 1]) == key(xs[i]); }
        }
      }
      ks
  }

  lemma {:induction false} SortedKeysAscending<T, K(!new)>(xs: seq<T>, key: T -> K, lt: (K, K) -> bool)
    requires IsStrictTotalOrder(lt)
    ensures StrictlyAscending(SortedKeys(xs, key, lt), lt)
    ensures Distinct(SortedKeys(xs, key, lt))
    decreases |xs|
  {
    if xs != [] {
      SortedKeysAscending(xs[1..], key, lt);
      InsertKeyAscending(key(xs[0]), SortedKeys(xs[1..], key, lt), lt);
    }
  }

  datatype Group<K> = Group(key: K, agg: Agg)

  function GroupAgg<K>(g: Group<K>): Agg { g.agg }
  function GroupKey<K>(g: Group<K>): K { g.key }

  /** One group per key of ks, holding the sums over the elements with that key. */
  function GroupsFor<T(==,!new), K(==,!new)>(ks: seq<K>, xs: seq<T>, key: T -> K, val: T -> Agg): (gs: seq<Group<K>>)
    ensures |gs| == |ks|
    ensures forall i :: 0 <= i < |ks| ==> gs[i] == Group(ks[i], Total(Where(xs, key, ks[i]), val))
    decreases |ks|
  {
    if ks == [] then [] else [Group(ks[0], Total(Where(xs, key, ks[0]), val))] + GroupsFor(ks[1..], xs, key, val)
  }

  /** df.groupby(key).agg('sum'): one group per key present, each summing exactly its own elements. */
  function GroupBy<T(==,!new), K(==,!new)>(xs: seq<T>, key: T -> K, val: T -> Agg, lt: (K, K) -> bool): (gs: seq<Group<K>>)
    ensures forall j :: 0 <= j < |gs| ==> gs[j].agg == Total(Where(xs, key, gs[j].key), val)
  {
    GroupsFor(SortedKeys(xs, key, lt), xs, key, val)
  }

  /** Every group's key is the key of some element. */
  lemma GroupByKeysOccur<T(!new), K(!new)>(xs: seq<T>, key: T -> K, val: T -> Agg, lt: (K, K) -> bool)
    ensures forall j :: 0 <= j < |GroupBy(xs, key, val, lt)| ==>
      exists i :: 0 <= i < |xs| && key(xs[i]) == GroupBy(xs, key, val, lt)[j].key
  {
    var ks := SortedKeys(xs, key, lt);
    var gs := GroupBy(xs, key, val, lt);
    forall j | 0 <= j < |gs| ensures exists i :: 0 <= i < |xs| && key(xs[i]) == gs[j].key {
      assert gs[j].key == ks[j] && ks[j] in ks;
    }
  }

  /** Every element's key has its group. */
  lemma GroupByCovers<T(!new), K(!new)>(xs: seq<T>, key: T -> K, val: T -> Agg, lt: (K, K) -> bool)
    ensures forall i :: 0 <= i < |xs| ==>
      exists j :: 0 <= j < |GroupBy(xs, key, val, lt)| && GroupBy(xs, key, val, lt)[j].key == key(xs[i])
  {
    var ks := SortedKeys(xs, key, lt);
    var gs := GroupBy(xs, key, val, lt);
    forall i | 0 <= i < |xs| ensures exists j :: 0 <= j < |gs| && gs[j].key == key(xs[i]) {
      assert key(xs[i]) in ks;
      var j :| 0 <= j < |ks| && ks[j] == key(xs[i]);
      assert gs[j].key == key(xs[i]);
    }
  }

  lemma {:induction false} GroupsForEmpty<T(!new), K(!new)>(ks: seq<K>, key: T -> K, val: T -> Agg)
    ensures Total(GroupsFor(ks, [], key, val), GroupAgg) == NoRows
    decreases |ks|
  {
    if ks != [] {
      GroupsForEmpty(ks[1..], key, val);
      assert GroupsFor(ks, [], key, val)[1..] == GroupsFor(ks[1..], [], key, val);
    }
  }

  lemma AggShuffle(i0: Agg, a: Agg, i1: Agg, b: Agg)
    ensures i0.Plus(a).Plus(i1.Plus(b)) == i0.Plus(i1).Plus(a.Plus(b))
  {
  }

  lemma AggUnit(a: Agg)
    ensures NoRows.Plus(a) == a && a.Plus(NoRows) == a
  {
  }

  /** The sum over the elements with key k of [x] + rest. */
  lemma WhereCons<T(!new), K(!new)>(x: T, rest: seq<T>, key: T -> K, val: T -> Agg, k: K)
    ensures Total(Where([x] + rest, key, k), val)
         == (if key(x) == k then val(x) else NoRows).Plus(Total(Where(rest, key, k), val))
  {
    var xs := [x] + rest;
    assert xs[0] == x && xs[1..] == rest;
    var w := Where(rest, key, k);
    if key(x) == k {
      assert Where(xs, key, k) == [x] + w;
      assert ([x] + w)[0] == x && ([x] + w)[1..] == w;
    } else {
      assert Where(xs, key, k) == [] + w == w;
      AggUnit(Total(w, val));
    }
  }

  lemma DistinctTail<K>(ks: seq<K>)
    requires Distinct(ks) && ks != []
    ensures Distinct(ks[1..]) && ks[0] !in ks[1..]
  {
    forall i, j | 0 <= i < j < |ks[1..]| ensures ks[1..][i] != ks[1..][j] {
      assert ks[1..][i] == ks[i + 1] && ks[1..][j] == ks[j + 1];
    }
    forall j | 0 <= j < |ks[1..]| ensures ks[1..][j] != ks[0] {
      assert ks[1..][j] == ks[j + 1];
    }
  }

  lemma GroupsForUnfold<T(!new), K(!new)>(ks: seq<K>, xs: seq<T>, key: T -> K, val: T -> Agg)
    requires ks != []
    ensures Total(GroupsFor(ks, xs, key, val), GroupAgg)
         == Total(Where(xs, key, ks[0]), val).Plus(Total(GroupsFor(ks[1..], xs, key, val), GroupAgg))
  {
    assert GroupsFor(ks, xs, key, val)[1..] == GroupsFor(ks[1..], xs, key, val);
  }

  /** Adding one element in front adds its amounts to its own group only. */
  lemma {:induction false} GroupsForCons<T(!new), K(!new)>(ks: seq<K>, x: T, rest: seq<T>, key: T -> K, val: T -> Agg)
    requires Distinct(ks)
    ensures Total(GroupsFor(ks, [x] + rest, key, val), GroupAgg)
         == (if key(x) in ks then val(x) else NoRows).Plus(Total(GroupsFor(ks, rest, key, val), GroupAgg))
    decreases |ks|
  {
    if ks == [] {
      AggUnit(Total(GroupsFor(ks, rest, key, val), GroupAgg));
    } else {
      var xs := [x] + rest;
      DistinctTail(ks);
      GroupsForCons(ks[1..], x, rest, key, val);
      GroupsForUnfold(ks, xs, key, val);
      GroupsForUnfold(ks, rest, key, val);
      WhereCons(x, rest, key, val, ks[0]);
      var i0 := if key(x) == ks[0] then val(x) else NoRows;
      var i1 := if key(x) in ks[1..] then val(x) else NoRows;
      AggShuffle(i0, Total(Where(rest, key, ks[0]), val), i1, Total(GroupsFor(ks[1..], rest, key, val), GroupAgg));
      MemberSplit(key(x), ks);
      AggUnit(val(x));
    }
  }

  lemma MemberSplit<K>(k: K, ks: seq<K>)
    requires ks != []
    ensures (k in ks) == (k == ks[0] || k in ks[1..])
  {
    assert ks == [ks[0]] + ks[1..];
  }

  lemma {:induction false} GroupsForConserve<T(!new), K(!new)>(ks: seq<K>, xs: seq<T>, key: T -> K, val: T -> Agg)
    requires Distinct(ks)
    requires forall i :: 0 <= i < |xs| ==> key(xs[i]) in ks
    ensures Total(GroupsFor(ks, xs, key, val), GroupAgg) == Total(xs, val)
    decreases |xs|
  {
    if xs == [] {
      GroupsForEmpty(ks, key, val);
    } else {
      assert xs == [xs[0]] + xs[1..];
      GroupsForCons(ks, xs[0], xs[1..], key, val);
      assert forall i :: 0 <= i < |xs[1..]| ==> key(xs[1..][i]) == key(xs[i + 1]);
      GroupsForConserve(ks, xs[1..], key, val);
    }
  }

  /** The groups come in strictly ascending key order, so no key is repeated. */
  lemma GroupByAscending<T(!new), K(!new)>(xs: seq<T>, key: T -> K, val: T -> Agg, lt: (K, K) -> bool)
    requires IsStrictTotalOrder(lt)
    ensures var gs := GroupBy(xs, key, val, lt);
      forall i, j :: 0 <= i < j < |gs| ==> lt(gs[i].key, gs[j].key)
  {
    SortedKeysAscending(xs, key, lt);
  }

  /** Nothing is lost or counted twice: the groups together hold the totals of the whole input. */
  lemma GroupByConserves<T(!new), K(!new)>(xs: seq<T>, key: T -> K, val: T -> Agg, lt: (K, K) -> bool)
    requires IsStrictTotalOrder(lt)
    ensures Total(GroupBy(xs, key, val, lt), GroupAgg) == Total(xs, val)
  {
    SortedKeysAscending(xs, key, lt);
    GroupsForConserve(SortedKeys(xs, key, lt), xs, key, val);
  }

  /** A non-empty table has at least one group. */
  lemma GroupByNonEmpty<T(!new), K(!new)>(xs: seq<T>, key: T -> K, val: T -> Agg, lt: (K, K) -> bool)
    requires |xs| > 0
    ensures |GroupBy(xs, key, val, lt)| > 0
  {
    assert key(xs[0]) in SortedKeys(xs, key, lt);
  }

  /** The sum of one group, by key: df[df[key] == k] summed. */
  function SumWhere<K(==,!new)>(rows: seq<Row>, key: Row -> K, k: K): Agg {
    Total(Where(rows, key, k), RowAgg)
  }

  /** A key no row has selects nothing and sums to zero. */
  lemma {:induction false} SumWhereAbsent<K(!new)>(rows: seq<Row>, key: Row -> K, k: K)
    requires forall i :: 0 <= i < |rows| ==> key(rows[i]) != k
    ensures SumWhere(rows, key, k) == NoRows
    decreases |rows|
  {
    if rows != [] {
      assert forall i :: 0 <= i < |rows[1..]| ==> rows[1..][i] == rows[i + 1];
      SumWhereAbsent(rows[1..], key, k);
      assert Where(rows, key, k) == [] + Where(rows[1..], key, k);
    }
  }
}
