// Grouping (groupOneSet and groupingValue in internal/exec/aggregate.go, with the same loop in window.go and
// pivot.go) and the grouping sets of ROLLUP and CUBE (internal/tsql/parser.go).

module Grouping {
  import opened Arithmetic
  import opened Fold
  import opened Rows

  // ---------- Groups in order of appearance ----------

  // The keys, each where it first appears.
  function KeyOrder<T>(key: T -> string, rows: seq<T>): seq<string> {
    if rows == [] then []
    else
      var init, k := KeyOrder(key, rows[..|rows| - 1]), key(rows[|rows| - 1]);
      if k in init then init else init + [k]
  }

  function Members<T>(key: T -> string, rows: seq<T>, k: string): seq<T> { Filter(r => key(r) == k, rows) }

  ghost predicate Grouped<T(!new)>(key: T -> string, rows: seq<T>, order: seq<string>, groups: map<string, seq<T>>) {
    && order == KeyOrder(key, rows)
    && (forall k :: k in groups <==> k in order)
    && (forall k :: k in groups ==> groups[k] == Members(key, rows, k))
  }

  lemma MembersTurn<T>(key: T -> string, rows: seq<T>, i: nat, k: string)
    requires i < |rows|
    ensures Members(key, rows[..i + 1], k) == Members(key, rows[..i], k) + (if key(rows[i]) == k then [rows[i]] else [])
  {
    assert rows[..i + 1] == rows[..i] + [rows[i]];
    FilterAppend(r => key(r) == k, rows[..i], [rows[i]]);
    assert [rows[i]][1..] == [];
  }

  lemma {:induction false} NoMembers<T>(key: T -> string, rows: seq<T>, k: string)
    requires k !in KeyOrder(key, rows)
    ensures Members(key, rows, k) == []
    decreases |rows|
  {
    if rows != [] {
      var n := |rows| - 1;
      NoMembers(key, rows[..n], k);
      MembersTurn(key, rows, n, k);
      assert rows[..n + 1] == rows;
    }
  }

  lemma GroupTurn<T(!new)>(key: T -> string, rows: seq<T>, i: nat, order: seq<string>, groups: map<string, seq<T>>)
    requires i < |rows| && Grouped(key, rows[..i], order, groups)
    ensures var k := key(rows[i]);
      Grouped(key, rows[..i + 1], if k in groups then order else order + [k],
        groups[k := (if k in groups then groups[k] else []) + [rows[i]]])
  {
    var k := key(rows[i]);
    assert rows[..i + 1][..i] == rows[..i];
    forall x ensures Members(key, rows[..i + 1], x) == Members(key, rows[..i], x) + (if k == x then [rows[i]] else []) {
      MembersTurn(key, rows, i, x);
    }
    if k !in groups { NoMembers(key, rows[..i], k); }
  }

  method GroupRows<T(!new)>(key: T -> string, rows: seq<T>) returns (order: seq<string>, groups: map<string, seq<T>>)
    ensures Grouped(key, rows, order, groups)
  {
    hide KeyOrder, Members;
    order, groups := [], map[];
    GroupStarts(key, rows);
    for i := 0 to |rows|
      invariant Grouped(key, rows[..i], order, groups)
    {
      var k := key(rows[i]);
      GroupTurn(key, rows, i, order, groups);
      if k !in groups {
        order := order + [k];
      }
      groups := groups[k := (if k in groups then groups[k] else []) + [rows[i]]];
    }
    assert rows[..|rows|] == rows;
  }

  lemma GroupStarts<T(!new)>(key: T -> string, rows: seq<T>)
    ensures Grouped(key, rows[..0], [], map[])
  {
  }

  lemma {:induction false} KeysAreDistinct<T>(key: T -> string, rows: seq<T>)
    ensures forall i, j :: 0 <= i < j < |KeyOrder(key, rows)| ==> KeyOrder(key, rows)[i] != KeyOrder(key, rows)[j]
    decreases |rows|
  {
    if rows != [] { KeysAreDistinct(key, rows[..|rows| - 1]); }
  }

  lemma {:induction false} KeyIsListed<T>(key: T -> string, rows: seq<T>, r: T)
    requires r in rows
    ensures key(r) in KeyOrder(key, rows)
    decreases |rows|
  {
    if r != rows[|rows| - 1] { KeyIsListed(key, rows[..|rows| - 1], r); }
  }

  // All groups, one after the other.
  function AllGroups<T>(key: T -> string, rows: seq<T>, keys: seq<string>): seq<T> {
    if keys == [] then [] else Members(key, rows, keys[0]) + AllGroups(key, rows, keys[1..])
  }

  // A row more is one more in its own group and nowhere else.
  lemma {:induction false} OneRowMore<T>(key: T -> string, rows: seq<T>, i: nat, keys: seq<string>)
    requires i < |rows| && forall a, b :: 0 <= a < b < |keys| ==> keys[a] != keys[b]
    ensures multiset(AllGroups(key, rows[..i + 1], keys)) ==
      multiset(AllGroups(key, rows[..i], keys)) + (if key(rows[i]) in keys then multiset{rows[i]} else multiset{})
  {
    if keys != [] {
      MembersTurn(key, rows, i, keys[0]);
      OneRowMore(key, rows, i, keys[1..]);
      assert keys == [keys[0]] + keys[1..];
    }
  }

  lemma {:induction false} AllGroupsAppend<T>(key: T -> string, rows: seq<T>, keys: seq<string>, k: string)
    ensures AllGroups(key, rows, keys + [k]) == AllGroups(key, rows, keys) + Members(key, rows, k)
  {
    if keys == [] {
      assert [k][1..] == [] && keys + [k] == [k];
      assert Members(key, rows, k) + [] == Members(key, rows, k);
    } else {
      assert (keys + [k])[1..] == keys[1..] + [k];
      AllGroupsAppend(key, rows, keys[1..], k);
    }
  }

  // The groups partition the rows: together they hold each row as often as the input does.
  lemma {:induction false} GroupsPartition<T>(key: T -> string, rows: seq<T>)
    ensures multiset(AllGroups(key, rows, KeyOrder(key, rows))) == multiset(rows)
    decreases |rows|
  {
    if rows != [] {
      var n := |rows| - 1;
      var r, init := rows[n], KeyOrder(key, rows[..n]);
      assert rows[..n + 1] == rows && rows == rows[..n] + [r];
      GroupsPartition(key, rows[..n]);
      KeysAreDistinct(key, rows[..n]);
      OneRowMore(key, rows, n, init);
      if key(r) !in init {
        AllGroupsAppend(key, rows, init, key(r));
        NoMembers(key, rows[..n], key(r));
        MembersTurn(key, rows, n, key(r));
      }
    }
  }

  // ---------- One grouping set ----------

  function EachGroup(key: Row -> string, rows: seq<Row>, keys: seq<string>): seq<seq<Row>> {
    if keys == [] then [] else EachGroup(key, rows, keys[..|keys| - 1]) + [Members(key, rows, keys[|keys| - 1])]
  }

  // An empty set of columns makes one group even of no rows.
  function GroupsOf(key: Row -> string, everything: bool, rows: seq<Row>): seq<seq<Row>> {
    if everything && rows == [] then [[]] else EachGroup(key, rows, KeyOrder(key, rows))
  }

  method GroupOneSet(key: Row -> string, everything: bool, rows: seq<Row>) returns (out: seq<seq<Row>>)
    ensures out == GroupsOf(key, everything, rows)
  {
    hide KeyOrder, Members;
    var order, groups := GroupRows(key, rows);
    if |order| == 0 {
      EmptyOrder(key, rows);
      if everything { return [[]]; }
    }
    NoKeys(key);
    out := [];
    for i := 0 to |order|
      invariant out == EachGroup(key, rows, order[..i])
    {
      assert order[..i + 1][..i] == order[..i];
      out := out + [groups[order[i]]];
    }
    assert order[..|order|] == order;
  }

  lemma NoKeys(key: Row -> string)
    ensures KeyOrder(key, []) == []
  {
  }

  // The groups of a set partition the rows.
  lemma GroupsOfPartition(key: Row -> string, everything: bool, rows: seq<Row>)
    ensures multiset(Flat(g => g, GroupsOf(key, everything, rows))) == multiset(rows)
    ensures Counts(GroupsOf(key, everything, rows)) == |rows|
  {
    hide KeyOrder, Members;
    var none: seq<Row> := [];
    FlatOne(none);
    FlatEach(key, rows, KeyOrder(key, rows));
    GroupsPartition(key, rows);
    CountStarAddsUp(GroupsOf(key, everything, rows), rows);
  }

  lemma {:induction false} FlatEach(key: Row -> string, rows: seq<Row>, keys: seq<string>)
    ensures Flat(g => g, EachGroup(key, rows, keys)) == AllGroups(key, rows, keys)
    decreases |keys|
  {
    hide Members;
    if keys != [] {
      var n := |keys| - 1;
      FlatEach(key, rows, keys[..n]);
      FlatAppend(g => g, EachGroup(key, rows, keys[..n]), [Members(key, rows, keys[n])]);
      FlatOne(Members(key, rows, keys[n]));
      AllGroupsAppend(key, rows, keys[..n], keys[n]);
      assert keys == keys[..n] + [keys[n]];
    }
  }

  // Grouping by nothing keeps all rows together, in order.
  lemma GroupByNothing(key: Row -> string, rows: seq<Row>)
    requires forall r :: key(r) == "__all__"
    ensures GroupsOf(key, true, rows) == [rows]
  {
    hide Members;
    if rows != [] {
      WholeGroup(key, rows);
      var none: seq<seq<Row>> := [];
      assert ["__all__"][..0] == [] && EachGroup(key, rows, []) == none && none + [rows] == [rows];
    }
  }

  lemma FlatOne<T>(g: seq<T>)
    ensures Flat((x: seq<T>) => x, [g]) == g
  {
    assert [g][1..] == [] && g + [] == g;
  }

  lemma EmptyOrder<T>(key: T -> string, rows: seq<T>)
    requires KeyOrder(key, rows) == []
    ensures rows == []
  {
    if rows != [] { KeyIsListed(key, rows, rows[0]); }
  }

  lemma {:induction false} WholeGroup(key: Row -> string, rows: seq<Row>)
    requires forall r :: key(r) == "__all__"
    ensures rows != [] ==> KeyOrder(key, rows) == ["__all__"]
    ensures Members(key, rows, "__all__") == rows
    decreases |rows|
  {
    if rows != [] {
      var n := |rows| - 1;
      WholeGroup(key, rows[..n]);
      MembersTurn(key, rows, n, "__all__");
      assert rows[..n + 1] == rows && rows == rows[..n] + [rows[n]];
      if n == 0 { assert rows[..n] == []; }
    }
  }

  function Counts(groups: seq<seq<Row>>): nat { if groups == [] then 0 else |groups[0]| + Counts(groups[1..]) }

  // COUNT(*) over the groups of a set adds up to the rows.
  lemma {:induction false} CountsAddUp(groups: seq<seq<Row>>)
    ensures Counts(groups) == |Flat(g => g, groups)|
  {
    if groups != [] { CountsAddUp(groups[1..]); }
  }

  lemma CountStarAddsUp(groups: seq<seq<Row>>, rows: seq<Row>)
    requires multiset(Flat(g => g, groups)) == multiset(rows)
    ensures Counts(groups) == |rows|
  {
    CountsAddUp(groups);
    assert |multiset(rows)| == |rows| && |multiset(Flat(g => g, groups))| == |Flat(g => g, groups)|;
  }

  // ---------- ROLLUP and CUBE ----------

  // ROLLUP: every prefix, the longest first.
  method RollupSets(cols: seq<string>) returns (sets: seq<seq<string>>)
    ensures |sets| == |cols| + 1
    ensures forall k :: 0 <= k <= |cols| ==> sets[k] == cols[..|cols| - k]
  {
    sets := [];
    var n := |cols|;
    while n >= 0
      invariant -1 <= n <= |cols| && |sets| == |cols| - n
      invariant forall k :: 0 <= k < |sets| ==> sets[k] == cols[..|cols| - k]
    {
      sets := sets + [cols[..n]];
      n := n - 1;
    }
  }

  function Pow2(n: nat): (p: nat)
    ensures p > 0
  {
    if n == 0 then 1 else 2 * Pow2(n - 1)
  }

  // The columns whose bit is set, the first column's bit the highest.
  function Chosen(cols: seq<string>, mask: nat): seq<string>
    requires mask < Pow2(|cols|)
  {
    if cols == [] then []
    else
      var half := Pow2(|cols| - 1);
      if mask >= half then [cols[0]] + Chosen(cols[1..], mask - half) else Chosen(cols[1..], mask)
  }

  // GROUPING_ID: the columns left out of a set, the first column's bit the highest.
  function GroupingId(cols: seq<string>, chosen: set<string>): (id: nat)
    ensures id < Pow2(|cols|)
  {
    if cols == [] then 0
    else (if cols[0] in chosen then 0 else Pow2(|cols| - 1)) + GroupingId(cols[1..], chosen)
  }

  ghost predicate AllDistinct(cols: seq<string>) { forall i, j :: 0 <= i < j < |cols| ==> cols[i] != cols[j] }

  // groupingValue for GROUPING_ID: shift and set.
  method GroupingValue(cols: seq<string>, chosen: set<string>) returns (mask: nat)
    ensures mask == GroupingId(cols, chosen)
  {
    mask := 0;
    assert cols[..0] == [];
    for i := 0 to |cols|
      invariant mask == GroupingId(cols[..i], chosen)
    {
      IdTurn(cols[..i], cols[i], chosen);
      assert cols[..i + 1] == cols[..i] + [cols[i]];
      mask := mask * 2;
      if cols[i] !in chosen { mask := mask + 1; }
    }
    assert cols[..|cols|] == cols;
  }

  lemma {:induction false} IdTurn(cols: seq<string>, c: string, chosen: set<string>)
    ensures GroupingId(cols + [c], chosen) == 2 * GroupingId(cols, chosen) + if c in chosen then 0 else 1
  {
    if cols == [] {
      assert cols + [c] == [c] && [c][1..] == [];
      assert Pow2(0) == 1;
    } else {
      assert (cols + [c])[1..] == cols[1..] + [c];
      IdTurn(cols[1..], c, chosen);
      assert Pow2(|cols|) == 2 * Pow2(|cols| - 1);
    }
  }

  // The bit of the i-th column in a mask.
  predicate Bit(mask: nat, n: nat, i: nat)
    requires i < n
  {
    mask / Pow2(n - 1 - i) % 2 == 1
  }

  lemma BitTurn(mask: nat, n: nat, i: nat)
    requires i < n
    ensures var p := Pow2(n - 1 - i);
      && Pow2(n - i) == 2 * p
      && mask % p == mask % (2 * p) - (if Bit(mask, n, i) then p else 0)
      && (Bit(mask, n, i) <==> mask % (2 * p) >= p)
  {
    HalfTurn(mask, Pow2(n - 1 - i));
  }

  // The quotient by p is odd just when the remainder by 2p reaches p.
  lemma HalfTurn(mask: nat, p: nat)
    requires p > 0
    ensures mask % p == mask % (2 * p) - (if mask / p % 2 == 1 then p else 0)
    ensures mask / p % 2 == 1 <==> mask % (2 * p) >= p
  {
    var q, r := mask / (2 * p), mask % (2 * p);
    assert mask == p * (2 * q) + r by { assert (2 * p) * q == p * (2 * q); }
    if r < p {
      Quotient(mask, p, 2 * q, r);
    } else {
      assert mask == p * (2 * q + 1) + (r - p) by { assert p * (2 * q + 1) == p * (2 * q) + p; }
      Quotient(mask, p, 2 * q + 1, r - p);
    }
  }

  lemma ChosenTurn(cols: seq<string>, mask: nat)
    requires cols != [] && mask < Pow2(|cols|)
    ensures var half := Pow2(|cols| - 1);
      Pow2(|cols|) == 2 * half &&
      Chosen(cols, mask) == if mask >= half then [cols[0]] + Chosen(cols[1..], mask - half) else Chosen(cols[1..], mask)
  {
  }

  lemma ChosenOver(mask: nat)
    requires mask < Pow2(0)
    ensures Chosen([], mask) == []
  {
  }

  // CUBE: one set for each mask, counting down.
  method CubeSets(cols: seq<string>) returns (sets: seq<seq<string>>)
    ensures |sets| == Pow2(|cols|)
    ensures forall k :: 0 <= k < |sets| ==> sets[k] == Chosen(cols, Pow2(|cols|) - 1 - k)
  {
    hide Chosen, Pow2;
    var n := |cols|;
    sets := [];
    var mask := Pow2(n) - 1;
    while mask >= 0
      invariant -1 <= mask < Pow2(n) && |sets| == Pow2(n) - 1 - mask
      invariant forall k :: 0 <= k < |sets| ==> sets[k] == Chosen(cols, Pow2(n) - 1 - k)
    {
      var chosen := MaskSet(cols, mask);
      sets := sets + [chosen];
      mask := mask - 1;
    }
  }

  // The inner loop: one mask.
  method MaskSet(cols: seq<string>, mask: nat) returns (chosen: seq<string>)
    requires mask < Pow2(|cols|)
    ensures chosen == Chosen(cols, mask)
  {
    hide Chosen, Pow2;
    chosen := [];
    var n := |cols|;
    assert cols[0..] == cols;
    ghost var rest: nat := mask;
    for i := 0 to n
      invariant rest < Pow2(n - i) && rest == mask % Pow2(n - i)
      invariant Chosen(cols, mask) == chosen + Chosen(cols[i..], rest)
    {
      BitTurn(mask, n, i);
      ChosenTurn(cols[i..], rest);
      assert cols[i..][1..] == cols[i + 1..];
      if Bit(mask, n, i) {
        chosen := chosen + [cols[i]];
        rest := rest - Pow2(n - 1 - i);
      }
    }
    assert cols[n..] == [];
    ChosenOver(rest);
  }

  // ---------- What CUBE lists ----------

  function Columns(cols: seq<string>): set<string> { set c | c in cols }

  // The k-th set CUBE lists.
  function CubeSet(cols: seq<string>, k: nat): seq<string>
    requires k < Pow2(|cols|)
  {
    Chosen(cols, Pow2(|cols|) - 1 - k)
  }

  lemma {:induction false} IdIgnores(cols: seq<string>, c: string, chosen: set<string>)
    requires c !in cols
    ensures GroupingId(cols, chosen + {c}) == GroupingId(cols, chosen)
  {
    if cols != [] { IdIgnores(cols[1..], c, chosen); }
  }

  lemma {:induction false} ChosenAreColumns(cols: seq<string>, mask: nat)
    requires mask < Pow2(|cols|)
    ensures Columns(Chosen(cols, mask)) <= Columns(cols)
  {
    if cols != [] {
      ChosenTurn(cols, mask);
      var half := Pow2(|cols| - 1);
      var rest := if mask >= half then mask - half else mask;
      ChosenAreColumns(cols[1..], rest);
      forall c | c in Chosen(cols, mask) ensures c in cols {
        if c != cols[0] { assert c in Columns(Chosen(cols[1..], rest)) && c in Columns(cols[1..]); }
      }
    }
  }

  // GROUPING_ID of the set a mask chooses is what the mask leaves out.
  lemma {:induction false} ChosenId(cols: seq<string>, mask: nat)
    requires AllDistinct(cols) && mask < Pow2(|cols|)
    ensures GroupingId(cols, Columns(Chosen(cols, mask))) == Pow2(|cols|) - 1 - mask
  {
    if cols == [] {
      assert Pow2(0) == 1;
    } else {
      var half, c, tail := Pow2(|cols| - 1), cols[0], cols[1..];
      ChosenTurn(cols, mask);
      var rest := if mask >= half then mask - half else mask;
      ChosenId(tail, rest);
      ChosenAreColumns(tail, rest);
      assert c !in tail;
      var inner := Columns(Chosen(tail, rest));
      if mask >= half {
        assert Columns([c] + Chosen(tail, rest)) == inner + {c};
        IdIgnores(tail, c, inner);
      }
    }
  }

  // And the mask that GROUPING_ID leaves out of a subset chooses that subset.
  lemma {:induction false} IdChooses(cols: seq<string>, subset: set<string>)
    requires AllDistinct(cols) && subset <= Columns(cols)
    ensures Columns(CubeSet(cols, GroupingId(cols, subset))) == subset
  {
    if cols == [] {
      ChosenOver(Pow2(0) - 1 - GroupingId(cols, subset));
    } else {
      var c, tail, half := cols[0], cols[1..], Pow2(|cols| - 1);
      var inner := subset - {c};
      assert c !in tail;
      IdIgnores(tail, c, inner);
      assert c in subset ==> inner + {c} == subset;
      assert c !in subset ==> inner == subset;
      IdChooses(tail, inner);
      var k := GroupingId(cols, subset);
      ChosenTurn(cols, Pow2(|cols|) - 1 - k);
      var chosen := CubeSet(tail, GroupingId(tail, inner));
      if c in subset { assert Columns([c] + chosen) == {c} + Columns(chosen); }
    }
  }

  // CUBE lists every subset of its columns exactly once, and the k-th set's GROUPING_ID is k.
  lemma CubeListsEachSubsetOnce(cols: seq<string>, subset: set<string>, k: nat)
    requires AllDistinct(cols) && subset <= Columns(cols) && k < Pow2(|cols|)
    ensures Columns(CubeSet(cols, GroupingId(cols, subset))) == subset
    ensures Columns(CubeSet(cols, k)) == subset <==> k == GroupingId(cols, subset)
    ensures GroupingId(cols, Columns(CubeSet(cols, k))) == k
  {
    hide Chosen, Pow2;
    IdChooses(cols, subset);
    ChosenId(cols, Pow2(|cols|) - 1 - k);
  }
}
