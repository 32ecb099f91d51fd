// The keys the window functions compare (keysEqual and the sort comparator in internal/exec/window.go), and
// writing each row's value once (computeWindow).

module WindowKeys {
  import opened Option
  import opened Fold
  import opened ValueOrder
  import opened Tds
  import opened Rows
  import opened Grouping
  import opened Window

  // ---------- One ORDER BY ----------

  datatype Term = Term(desc: bool, exact: bool)

  type SortKey = seq<Value>

  // keysEqual: every column compares, and equal.
  predicate KeysEqual(coerce: Coercion, order: seq<Term>, a: SortKey, b: SortKey) {
    |a| == |b| && forall j :: 0 <= j < |a| ==>
      Compare(coerce, a[j], b[j], j < |order| && order[j].exact) == Some(0)
  }

  // The sort's less: the first column that compares unequal decides; one that does not compare is skipped.
  function Less(coerce: Coercion, order: seq<Term>, a: SortKey, b: SortKey): bool
    requires |a| == |b| == |order|
  {
    if order == [] then false
    else
      match Compare(coerce, a[0], b[0], order[0].exact)
      case None => Less(coerce, order[1..], a[1..], b[1..])
      case Some(c) =>
        if c == 0 then Less(coerce, order[1..], a[1..], b[1..])
        else if order[0].desc then c > 0 else c < 0
  }

  // Both together: the sign of the first column that differs.
  function KeyCompare(coerce: Coercion, order: seq<Term>, a: SortKey, b: SortKey): int {
    if order == [] || a == [] || b == [] then 0
    else
      match Compare(coerce, a[0], b[0], order[0].exact)
      case None => 0
      case Some(c) =>
        if c == 0 then KeyCompare(coerce, order[1..], a[1..], b[1..]) else if order[0].desc then -c else c
  }

  // ---------- Order on keys ----------

  ghost predicate SameKinds(a: SortKey, b: SortKey) {
    |a| == |b| && forall j :: 0 <= j < |a| ==> SameKind(a[j], b[j])
  }

  lemma SameKindsTail(a: SortKey, b: SortKey)
    requires SameKinds(a, b) && a != []
    ensures SameKinds(a[1..], b[1..]) && SameKind(a[0], b[0])
  {
  }

  lemma {:induction false} KeyCompareOrders(coerce: Coercion, order: seq<Term>, a: SortKey, b: SortKey, c: SortKey)
    requires SameKinds(a, b) && SameKinds(b, c) && |a| == |order|
    ensures KeyCompare(coerce, order, b, a) == -KeyCompare(coerce, order, a, b)
    ensures var ab, bc := KeyCompare(coerce, order, a, b), KeyCompare(coerce, order, b, c);
      var ac := KeyCompare(coerce, order, a, c);
      ab <= 0 && bc <= 0 ==> ac <= 0 && (ab < 0 || bc < 0 ==> ac < 0)
  {
    hide Compare, SameKind;
    if order != [] {
      SameKindsTail(a, b);
      SameKindsTail(b, c);
      ValuesOrdered(coerce, order[0].exact, a[0], b[0], c[0]);
      KeyCompareOrders(coerce, order[1..], a[1..], b[1..], c[1..]);
    }
  }

  lemma ValueTies(coerce: Coercion, exact: bool, a: Value, b: Value)
    requires SameKind(a, b)
    ensures Compare(coerce, a, b, exact).Some?
  {
  }

  // less is the order's strict part and keysEqual its tie.
  lemma {:induction false} LessAndEqual(coerce: Coercion, order: seq<Term>, a: SortKey, b: SortKey)
    requires SameKinds(a, b) && |a| == |order|
    ensures Less(coerce, order, a, b) <==> KeyCompare(coerce, order, a, b) < 0
    ensures KeysEqual(coerce, order, a, b) <==> KeyCompare(coerce, order, a, b) == 0
  {
    hide Compare, SameKind;
    if order != [] {
      SameKindsTail(a, b);
      ValueTies(coerce, order[0].exact, a[0], b[0]);
      LessAndEqual(coerce, order[1..], a[1..], b[1..]);
      EqualTail(coerce, order, a, b);
    }
  }

  lemma EqualTail(coerce: Coercion, order: seq<Term>, a: SortKey, b: SortKey)
    requires |a| == |b| == |order| > 0
    ensures KeysEqual(coerce, order, a, b) <==>
      Compare(coerce, a[0], b[0], order[0].exact) == Some(0) && KeysEqual(coerce, order[1..], a[1..], b[1..])
  {
    hide Compare;
    if Compare(coerce, a[0], b[0], order[0].exact) == Some(0) && KeysEqual(coerce, order[1..], a[1..], b[1..]) {
      forall j | 0 <= j < |a| ensures Compare(coerce, a[j], b[j], j < |order| && order[j].exact) == Some(0) {
        if j > 0 { assert a[1..][j - 1] == a[j] && b[1..][j - 1] == b[j] && order[1..][j - 1] == order[j]; }
      }
    }
    if KeysEqual(coerce, order, a, b) {
      assert Compare(coerce, a[0], b[0], 0 < |order| && order[0].exact) == Some(0);
      forall j | 0 <= j < |a| - 1
        ensures Compare(coerce, a[1..][j], b[1..][j], j < |order[1..]| && order[1..][j].exact) == Some(0)
      {
        assert Compare(coerce, a[j + 1], b[j + 1], j + 1 < |order| && order[j + 1].exact) == Some(0);
      }
    }
  }

  // One kind in each column and no NULL, and sorted: no later row is less than an earlier one.
  ghost predicate Clean(coerce: Coercion, order: seq<Term>, ks: seq<SortKey>) {
    && (forall i :: 0 <= i < |ks| ==> |ks[i]| == |order|)
    && (forall i, j :: 0 <= i < |ks| && 0 <= j < |ks| ==> SameKinds(ks[i], ks[j]))
    && (forall i, j :: 0 <= i < j < |ks| ==> !Less(coerce, order, ks[j], ks[i]))
  }

  function Comparison(coerce: Coercion, order: seq<Term>): Cmp<SortKey> { (a, b) => KeyCompare(coerce, order, a, b) }

  function Equality(coerce: Coercion, order: seq<Term>): (SortKey, SortKey) -> bool {
    (a, b) => KeysEqual(coerce, order, a, b)
  }

  lemma CleanPair(coerce: Coercion, order: seq<Term>, ks: seq<SortKey>, i: nat, j: nat)
    requires Clean(coerce, order, ks) && i < |ks| && j < |ks|
    ensures var cmp := Comparison(coerce, order);
      && (cmp(ks[i], ks[j]) < 0 <==> cmp(ks[j], ks[i]) > 0)
      && (Equality(coerce, order)(ks[i], ks[j]) <==> cmp(ks[i], ks[j]) == 0)
      && (i < j ==> cmp(ks[i], ks[j]) <= 0)
  {
    hide KeyCompare, KeysEqual, Less, SameKinds;
    KeyCompareOrders(coerce, order, ks[i], ks[j], ks[i]);
    LessAndEqual(coerce, order, ks[i], ks[j]);
    LessAndEqual(coerce, order, ks[j], ks[i]);
  }

  lemma CleanTriple(coerce: Coercion, order: seq<Term>, ks: seq<SortKey>, i: nat, j: nat, l: nat)
    requires Clean(coerce, order, ks) && i < |ks| && j < |ks| && l < |ks|
    ensures var cmp := Comparison(coerce, order);
      cmp(ks[i], ks[j]) <= 0 && cmp(ks[j], ks[l]) <= 0 ==>
        cmp(ks[i], ks[l]) <= 0 && (cmp(ks[i], ks[j]) < 0 || cmp(ks[j], ks[l]) < 0 ==> cmp(ks[i], ks[l]) < 0)
  {
    hide KeyCompare, Less, SameKinds;
    KeyCompareOrders(coerce, order, ks[i], ks[j], ks[l]);
  }

  // Then the loops of Window apply.
  lemma CleanIsOrdered(coerce: Coercion, order: seq<Term>, ks: seq<SortKey>)
    requires Clean(coerce, order, ks)
    ensures Ordered(ks, Comparison(coerce, order), Equality(coerce, order))
  {
    hide TwoWay, Transitive, Sorted, TiesBy;
    PairsOrdered(coerce, order, ks);
    TriplesOrdered(coerce, order, ks);
  }

  lemma PairsOrdered(coerce: Coercion, order: seq<Term>, ks: seq<SortKey>)
    requires Clean(coerce, order, ks)
    ensures TwoWay(ks, Comparison(coerce, order)) && Sorted(ks, Comparison(coerce, order))
    ensures TiesBy(ks, Comparison(coerce, order), Equality(coerce, order))
  {
    hide Comparison, Equality, Clean;
    var cmp, eq := Comparison(coerce, order), Equality(coerce, order);
    forall i, j | 0 <= i < |ks| && 0 <= j < |ks|
      ensures cmp(ks[i], ks[j]) < 0 <==> cmp(ks[j], ks[i]) > 0
      ensures eq(ks[i], ks[j]) <==> cmp(ks[i], ks[j]) == 0
      ensures i < j ==> cmp(ks[i], ks[j]) <= 0
    {
      CleanPair(coerce, order, ks, i, j);
    }
  }

  lemma TriplesOrdered(coerce: Coercion, order: seq<Term>, ks: seq<SortKey>)
    requires Clean(coerce, order, ks)
    ensures Transitive(ks, Comparison(coerce, order))
  {
    hide Comparison, Clean;
    var cmp := Comparison(coerce, order);
    forall i, j, l | 0 <= i < |ks| && 0 <= j < |ks| && 0 <= l < |ks| && cmp(ks[i], ks[j]) <= 0 && cmp(ks[j], ks[l]) <= 0
      ensures cmp(ks[i], ks[l]) <= 0 && (cmp(ks[i], ks[j]) < 0 || cmp(ks[j], ks[l]) < 0 ==> cmp(ks[i], ks[l]) < 0)
    {
      CleanTriple(coerce, order, ks, i, j, l);
    }
  }

  // ---------- Exactly the keys that are ordered ----------

  // One kind or NULL in each column, and sorted.
  ghost predicate SortedKeys(coerce: Coercion, order: seq<Term>, ks: seq<SortKey>) {
    && (forall i :: 0 <= i < |ks| ==> |ks[i]| == |order|)
    && (forall i, j :: 0 <= i < |ks| && 0 <= j < |ks| ==> KindsOrNull(ks[i], ks[j]))
    && (forall i, j :: 0 <= i < j < |ks| ==> !Less(coerce, order, ks[j], ks[i]))
  }

  ghost predicate KindsOrNull(a: SortKey, b: SortKey) {
    |a| == |b| && forall j :: 0 <= j < |a| ==> a[j] == Null || b[j] == Null || SameKind(a[j], b[j])
  }

  ghost predicate NoNulls(ks: seq<SortKey>) { forall i :: 0 <= i < |ks| ==> Null !in ks[i] }

  lemma NoNullsIsClean(coerce: Coercion, order: seq<Term>, ks: seq<SortKey>)
    requires SortedKeys(coerce, order, ks) && NoNulls(ks)
    ensures Clean(coerce, order, ks)
  {
    hide Less, SameKind;
    forall i, j | 0 <= i < |ks| && 0 <= j < |ks| ensures SameKinds(ks[i], ks[j]) {
      assert KindsOrNull(ks[i], ks[j]);
      forall c | 0 <= c < |ks[i]| ensures SameKind(ks[i][c], ks[j][c]) {
        assert ks[i][c] in ks[i] && ks[j][c] in ks[j];
      }
    }
  }

  // Every key ties with itself in an order; a key with a NULL does not in keysEqual.
  lemma NullTiesWithNothing(coerce: Coercion, order: seq<Term>, a: SortKey, b: SortKey)
    requires Null in a
    ensures !KeysEqual(coerce, order, a, b) && !KeysEqual(coerce, order, b, a)
  {
    var j :| 0 <= j < |a| && a[j] == Null;
    if |a| == |b| {
      assert Compare(coerce, a[j], b[j], j < |order| && order[j].exact) == None;
      assert Compare(coerce, b[j], a[j], j < |order| && order[j].exact) == None;
    }
  }

  predicate TiesWithItself(coerce: Coercion, order: seq<Term>, a: SortKey) { KeysEqual(coerce, order, a, a) }

  lemma OrderTies<K>(ks: seq<K>, cmp: Cmp<K>, eq: (K, K) -> bool, i: nat)
    requires Ordered(ks, cmp, eq) && i < |ks|
    ensures eq(ks[i], ks[i])
  {
    assert cmp(ks[i], ks[i]) < 0 <==> cmp(ks[i], ks[i]) > 0;
  }

  // Sorted keys are ordered, as the loops of Window need them, exactly when no key has a NULL.
  lemma OrderedExactly(coerce: Coercion, order: seq<Term>, ks: seq<SortKey>)
    requires SortedKeys(coerce, order, ks)
    ensures Ordered(ks, Comparison(coerce, order), Equality(coerce, order)) <==> NoNulls(ks)
  {
    hide KeyCompare, KeysEqual, SortedKeys, Transitive, Sorted;
    if NoNulls(ks) {
      NoNullsIsClean(coerce, order, ks);
      CleanIsOrdered(coerce, order, ks);
    }
    forall i | 0 <= i < |ks| && Null in ks[i] ensures !TiesWithItself(coerce, order, ks[i]) {
      NullTiesWithNothing(coerce, order, ks[i], ks[i]);
    }
    if Ordered(ks, Comparison(coerce, order), Equality(coerce, order)) {
      forall i | 0 <= i < |ks| ensures TiesWithItself(coerce, order, ks[i]) {
        OrderTies(ks, Comparison(coerce, order), Equality(coerce, order), i);
      }
    }
  }

  // RANK over real keys.
  method RankKeys(coerce: Coercion, order: seq<Term>, ks: seq<SortKey>, dense: bool) returns (out: seq<nat>)
    ensures |out| == |ks|
    ensures SortedKeys(coerce, order, ks) && NoNulls(ks) && !dense ==> forall i :: 0 <= i < |ks| ==>
      out[i] == 1 + Smaller(ks, Comparison(coerce, order), i)
    ensures SortedKeys(coerce, order, ks) && NoNulls(ks) && dense ==> forall i :: 0 <= i < |ks| ==>
      out[i] == 1 + Different(ks, Comparison(coerce, order), Smaller(ks, Comparison(coerce, order), i))
  {
    hide Smaller, Ordered, Different, Comparison, SortedKeys, NoNulls, RankAt;
    out := Rank(ks, Equality(coerce, order), dense);
    if SortedKeys(coerce, order, ks) && NoNulls(ks) {
      OrderedExactly(coerce, order, ks);
      forall i | 0 <= i < |ks|
        ensures RankAt(ks, Equality(coerce, order), false, i) == 1 + Smaller(ks, Comparison(coerce, order), i)
        ensures RankAt(ks, Equality(coerce, order), true, i) ==
          1 + Different(ks, Comparison(coerce, order), Smaller(ks, Comparison(coerce, order), i))
      {
        RankCounts(ks, Comparison(coerce, order), Equality(coerce, order), i);
      }
    }
  }

  // ---------- RANK over one column ----------

  predicate Precedes(coerce: Coercion, order: seq<Term>, a: SortKey, b: SortKey) {
    |a| == |b| == |order| && Less(coerce, order, a, b)
  }

  // How many rows the sort puts strictly before a row.
  ghost function Before(coerce: Coercion, order: seq<Term>, ks: seq<SortKey>, i: nat): nat
    requires i < |ks|
  {
    Count(|ks|, j => 0 <= j < |ks| && Precedes(coerce, order, ks[j], ks[i]))
  }

  ghost predicate RanksRight(coerce: Coercion, order: seq<Term>, ks: seq<SortKey>) {
    forall i :: 0 <= i < |ks| ==> RankAt(ks, Equality(coerce, order), false, i) == 1 + Before(coerce, order, ks, i)
  }

  lemma BeforeIsSmaller(coerce: Coercion, order: seq<Term>, ks: seq<SortKey>, i: nat)
    requires Clean(coerce, order, ks) && i < |ks|
    ensures Before(coerce, order, ks, i) == Smaller(ks, Comparison(coerce, order), i)
  {
    hide Less, KeyCompare, SameKinds;
    var cmp := Comparison(coerce, order);
    forall j | 0 <= j < |ks| ensures Precedes(coerce, order, ks[j], ks[i]) == (cmp(ks[j], ks[i]) < 0) {
      LessAndEqual(coerce, order, ks[j], ks[i]);
    }
    SmallerIs(ks, cmp, j => 0 <= j < |ks| && Precedes(coerce, order, ks[j], ks[i]), i);
  }

  lemma NothingBefore(coerce: Coercion, order: seq<Term>, ks: seq<SortKey>, i: nat)
    requires i < |ks| && forall j :: 0 <= j < |ks| ==> !Precedes(coerce, order, ks[j], ks[i])
    ensures Before(coerce, order, ks, i) == 0
  {
    CountBelow(|ks|, j => 0 <= j < |ks| && Precedes(coerce, order, ks[j], ks[i]), 0);
  }

  lemma NullDoesNotPrecede(coerce: Coercion, order: seq<Term>, a: SortKey, b: SortKey)
    requires |a| == |b| == |order| == 1 && (a[0] == Null || b[0] == Null)
    ensures !Precedes(coerce, order, a, b)
  {
    assert Compare(coerce, a[0], b[0], order[0].exact) == None;
    assert !Less(coerce, order[1..], a[1..], b[1..]);
  }

  // Sorted by one column, RANK counts the rows before exactly when no key is NULL, or there is one row at most.
  lemma RankExactly(coerce: Coercion, order: seq<Term>, ks: seq<SortKey>)
    requires SortedKeys(coerce, order, ks) && |order| == 1
    ensures RanksRight(coerce, order, ks) <==> |ks| <= 1 || NoNulls(ks)
  {
    hide Less, KeysEqual, Before, KeyCompare, SortedKeys;
    if NoNulls(ks) {
      NoNullsIsClean(coerce, order, ks);
      CleanIsOrdered(coerce, order, ks);
      forall i | 0 <= i < |ks|
        ensures RankAt(ks, Equality(coerce, order), false, i) == 1 + Before(coerce, order, ks, i)
      {
        RankCounts(ks, Comparison(coerce, order), Equality(coerce, order), i);
        BeforeIsSmaller(coerce, order, ks, i);
      }
    } else if |ks| <= 1 {
      OneRowRanks(coerce, order, ks);
    } else {
      var k :| 0 <= k < |ks| && Null in ks[k];
      NullRanksWrong(coerce, order, ks, k);
    }
  }

  lemma OneRowRanks(coerce: Coercion, order: seq<Term>, ks: seq<SortKey>)
    requires SortedKeys(coerce, order, ks) && |order| == 1 && |ks| <= 1 && !NoNulls(ks)
    ensures RanksRight(coerce, order, ks)
  {
    hide Less, Before;
    NullDoesNotPrecede(coerce, order, ks[0], ks[0]);
    NothingBefore(coerce, order, ks, 0);
  }

  // A NULL row ties with no neighbour and has no row before it: its rank, or its successor's, is too large.
  lemma NullRanksWrong(coerce: Coercion, order: seq<Term>, ks: seq<SortKey>, k: nat)
    requires SortedKeys(coerce, order, ks) && |order| == 1 && |ks| > 1 && k < |ks| && Null in ks[k]
    ensures !RanksRight(coerce, order, ks)
  {
    hide Less, KeysEqual, Before;
    var i := if k > 0 then k else 1;
    NullTiesWithNothing(coerce, order, ks[k], ks[if k > 0 then k - 1 else 1]);
    forall j | 0 <= j < |ks| ensures !Precedes(coerce, order, ks[j], ks[i]) {
      if k > 0 || j == 0 {
        NullDoesNotPrecede(coerce, order, ks[j], ks[i]);
      } else if j == i {
        NeverBeforeItself(coerce, order, ks[i]);
      }
    }
    NothingBefore(coerce, order, ks, i);
    assert RankAt(ks, Equality(coerce, order), false, i) == i + 1;
  }

  lemma NeverBeforeItself(coerce: Coercion, order: seq<Term>, a: SortKey)
    requires |order| == 1
    ensures !Precedes(coerce, order, a, a)
  {
    if |a| == 1 {
      assert !Less(coerce, order[1..], a[1..], a[1..]);
      if a[0] == Null {
        NullDoesNotPrecede(coerce, order, a, a);
      } else {
        ValuesOrdered(coerce, order[0].exact, a[0], a[0], a[0]);
      }
    }
  }

  // Two NULL rows, which the sort holds level, rank 1 and 2.
  lemma NullsRankApart(coerce: Coercion, term: Term)
    ensures var ks := [[Null], [Null]];
      && RankAt(ks, Equality(coerce, [term]), false, 0) == 1 && RankAt(ks, Equality(coerce, [term]), false, 1) == 2
      && Before(coerce, [term], ks, 0) == 0 && Before(coerce, [term], ks, 1) == 0
  {
    hide Before, KeysEqual, Less;
    var ks: seq<SortKey> := [[Null], [Null]];
    NullTiesWithNothing(coerce, [term], [Null], [Null]);
    NullDoesNotPrecede(coerce, [term], [Null], [Null]);
    NothingBefore(coerce, [term], ks, 0);
    NothingBefore(coerce, [term], ks, 1);
  }

  // ---------- computeWindow ----------

  // A window's parts: the partition key of each row, the sort of a partition, and the function over it.
  datatype Spec<V> = Spec(part: nat -> string, sort: seq<nat> -> seq<nat>, apply: seq<nat> -> seq<V>)

  // Sorting permutes; the function gives one value for each member.
  ghost predicate Sound<V>(w: Spec<V>) {
    && (forall ms: seq<nat> {:trigger w.sort(ms)} :: multiset(w.sort(ms)) == multiset(ms))
    && (forall ms: seq<nat> {:trigger w.apply(ms)} :: |w.apply(ms)| == |ms|)
  }

  function RowNumbers(n: nat): seq<nat> { if n == 0 then [] else RowNumbers(n - 1) + [n - 1] }

  function Partition<V>(w: Spec<V>, n: nat, k: string): seq<nat> { w.sort(Members(w.part, RowNumbers(n), k)) }

  // The rows of the partition of k hold its values, in the sorted order.
  ghost predicate Written<V>(w: Spec<V>, n: nat, k: string, out: seq<Option<V>>)
    requires Sound(w)
  {
    var ms := Partition(w, n, k);
    assert |w.apply(ms)| == |ms|;
    |out| == n && forall i :: 0 <= i < |ms| ==> ms[i] < n && out[ms[i]] == Some(w.apply(ms)[i])
  }

  lemma {:induction false} FilterIsPart<T>(keep: T -> bool, rows: seq<T>)
    ensures multiset(Filter(keep, rows)) <= multiset(rows)
  {
    if rows != [] {
      FilterIsPart(keep, rows[1..]);
      assert rows == [rows[0]] + rows[1..];
    }
  }

  lemma MembersArePart<T>(key: T -> string, rows: seq<T>, k: string)
    ensures multiset(Members(key, rows, k)) <= multiset(rows)
  {
    FilterIsPart(r => key(r) == k, rows);
  }

  lemma MembersHold<T>(key: T -> string, rows: seq<T>, k: string, x: T)
    ensures x in Members(key, rows, k) <==> x in rows && key(x) == k
  {
    if x in rows && key(x) == k { FilterHas(r => key(r) == k, rows, x); }
  }

  lemma {:induction false} NumbersOnce(n: nat)
    ensures forall x: nat :: multiset(RowNumbers(n))[x] == if x < n then 1 else 0
    ensures forall x <- RowNumbers(n) :: x < n
    ensures |RowNumbers(n)| == n && forall x: nat :: x < n ==> x in RowNumbers(n)
  {
    if n > 0 { NumbersOnce(n - 1); }
  }

  // A partition holds exactly the rows with its key, each once.
  lemma PartitionHolds<V>(w: Spec<V>, n: nat, k: string)
    requires Sound(w)
    ensures forall x: nat :: x in Partition(w, n, k) <==> x < n && w.part(x) == k
    ensures forall i, j :: 0 <= i < j < |Partition(w, n, k)| ==> Partition(w, n, k)[i] != Partition(w, n, k)[j]
  {
    var rows := RowNumbers(n);
    var kept, ms := Members(w.part, rows, k), Partition(w, n, k);
    NumbersOnce(n);
    MembersArePart(w.part, rows, k);
    assert multiset(ms) == multiset(kept);
    forall x: nat ensures x in ms <==> x < n && w.part(x) == k {
      assert x in ms <==> x in multiset(ms);
      assert x in kept <==> x in multiset(kept);
      MembersHold(w.part, rows, k, x);
    }
    forall i, j | 0 <= i < j < |ms| ensures ms[i] != ms[j] {
      assert multiset(ms)[ms[i]] == multiset(kept)[ms[i]] <= multiset(rows)[ms[i]] <= 1;
      if ms[i] == ms[j] { Twice(ms, i, j); }
    }
  }

  lemma Twice(ms: seq<nat>, i: nat, j: nat)
    requires i < j < |ms| && ms[i] == ms[j]
    ensures multiset(ms)[ms[i]] >= 2
  {
    assert ms == ms[..j] + ms[j..];
    assert ms[..j][i] == ms[i] && ms[j..][0] == ms[j];
    assert multiset(ms) == multiset(ms[..j]) + multiset(ms[j..]);
    assert ms[i] in multiset(ms[..j]) && ms[i] in multiset(ms[j..]);
  }

  // Values of one partition leave the others alone.
  lemma OthersStay<V>(w: Spec<V>, n: nat, k: string, other: string, before: seq<Option<V>>, after: seq<Option<V>>)
    requires Sound(w) && k != other && Written(w, n, other, before) && |after| == n
    requires forall x :: 0 <= x < n && w.part(x) != k ==> after[x] == before[x]
    ensures Written(w, n, other, after)
  {
    PartitionHolds(w, n, other);
  }

  // One partition's values.
  method WritePartition<V>(w: Spec<V>, n: nat, k: string, ms: seq<nat>, out: array<Option<V>>)
    requires Sound(w) && out.Length == n && ms == Partition(w, n, k)
    modifies out
    ensures Written(w, n, k, out[..])
    ensures forall x :: 0 <= x < n && w.part(x) != k ==> out[x] == old(out[x])
  {
    PartitionHolds(w, n, k);
    var vals := w.apply(ms);
    for i := 0 to |ms|
      invariant forall j :: 0 <= j < i ==> ms[j] < n && out[ms[j]] == Some(vals[j])
      invariant forall x :: 0 <= x < n && w.part(x) != k ==> out[x] == old(out[x])
    {
      assert ms[i] in ms;
      out[ms[i]] := Some(vals[i]);
    }
  }

  // computeWindow: every row gets exactly one value, its partition's.
  method ComputeWindow<V>(w: Spec<V>, n: nat) returns (out: array<Option<V>>)
    requires Sound(w)
    ensures out.Length == n
    ensures forall k :: k in KeyOrder(w.part, RowNumbers(n)) ==> Written(w, n, k, out[..])
    ensures forall r :: 0 <= r < n ==> out[r].Some? && r in Partition(w, n, w.part(r))
  {
    hide KeyOrder, Members, Written;
    out := new Option<V>[n](_ => None);
    var order, groups := GroupRows(w.part, RowNumbers(n));
    KeysAreDistinct(w.part, RowNumbers(n));
    for p := 0 to |order|
      invariant forall q :: 0 <= q < p ==> Written(w, n, order[q], out[..])
    {
      var k := order[p];
      ghost var before := out[..];
      WritePartition(w, n, k, w.sort(groups[k]), out);
      forall q | 0 <= q < p ensures Written(w, n, order[q], out[..]) {
        OthersStay(w, n, k, order[q], before, out[..]);
      }
    }
    forall r | 0 <= r < n ensures out[r].Some? && r in Partition(w, n, w.part(r)) { RowIsWritten(w, n, r, out[..]); }
  }

  lemma RowIsWritten<V>(w: Spec<V>, n: nat, r: nat, out: seq<Option<V>>)
    requires Sound(w) && r < n && |out| == n
    requires forall k :: k in KeyOrder(w.part, RowNumbers(n)) ==> Written(w, n, k, out)
    ensures out[r].Some? && r in Partition(w, n, w.part(r))
  {
    NumbersOnce(n);
    KeyIsListed(w.part, RowNumbers(n), r);
    PartitionHolds(w, n, w.part(r));
    var ms := Partition(w, n, w.part(r));
    var i :| 0 <= i < |ms| && ms[i] == r;
    assert Written(w, n, w.part(r), out);
    assert out[ms[i]] == Some(w.apply(ms)[i]);
  }
}
