// PIVOT and UNPIVOT (internal/exec/pivot.go): with MAX the one undoes the other.

module Pivot {
  import opened Option
  import opened Fold
  import opened ValueOrder
  import opened Rows
  import opened Grouping

  function Cell(r: Row, i: nat): Value { if i < |r| then r[i] else Null }

  // Some columns of a row.
  function Parts(r: Row, idx: seq<nat>): (p: Row)
    ensures |p| == |idx|
  {
    seq(|idx|, j requires 0 <= j < |idx| => Cell(r, idx[j]))
  }

  // ---------- UNPIVOT ----------

  // What one row gives: its kept columns with the name and value of each listed cell from the n-th on that is
  // not NULL.
  function Rotated(r: Row, keep: seq<nat>, up: seq<nat>, names: seq<string>, n: nat): seq<Row>
    requires |up| == |names| && n <= |up|
    decreases |up| - n
  {
    if n == |up| then []
    else
      (if Cell(r, up[n]) == Null then [] else [Parts(r, keep) + [Str(names[n]), Cell(r, up[n])]]) +
      Rotated(r, keep, up, names, n + 1)
  }

  function Unpivoted(rows: seq<Row>, keep: seq<nat>, up: seq<nat>, names: seq<string>): seq<Row>
    requires |up| == |names|
  {
    Flat(r => Rotated(r, keep, up, names, 0), rows)
  }

  method Unpivot(rows: seq<Row>, keep: seq<nat>, up: seq<nat>, names: seq<string>) returns (out: seq<Row>)
    requires |up| == |names|
    ensures out == Unpivoted(rows, keep, up, names)
  {
    out := [];
    for i := 0 to |rows|
      invariant out == Flat(r => Rotated(r, keep, up, names, 0), rows[..i])
    {
      var row := rows[i];
      ghost var before := out;
      FlatTurn(r => Rotated(r, keep, up, names, 0), rows, i);
      for n := 0 to |up|
        invariant out + Rotated(row, keep, up, names, n) == before + Rotated(row, keep, up, names, 0)
      {
        if Cell(row, up[n]) == Null { continue; }
        out := out + [Parts(row, keep) + [Str(names[n]), Cell(row, up[n])]];
      }
      assert Rotated(row, keep, up, names, |up|) == [];
    }
    assert rows[..|rows|] == rows;
  }

  // ---------- PIVOT ----------

  // fold.Equal.
  predicate SameText(a: string, b: string) { CompareText(Key(Pad(a)), Key(Pad(b))) == 0 }

  // MAX over a column: NULL is skipped, and so is what does not compare.
  function MaxOf(coerce: Coercion, rows: seq<Row>, val: nat): Value {
    if rows == [] then Null
    else
      var best, v := MaxOf(coerce, rows[..|rows| - 1], val), Cell(rows[|rows| - 1], val);
      if v == Null then best
      else if best == Null then v
      else match Compare(coerce, v, best, false)
        case Some(c) => if c > 0 then v else best
        case None => best
  }

  datatype Spec = Spec(group: seq<nat>, piv: nat, val: nat, names: seq<string>,
                       key: Row -> string, text: Value -> string, coerce: Coercion)

  function GroupKey(s: Spec): Row -> string { r => s.key(Parts(r, s.group)) }

  // The rows of a group under one pivot name.
  function Under(s: Spec, rows: seq<Row>, name: string): seq<Row> {
    Filter(r => SameText(s.text(Cell(r, s.piv)), name), rows)
  }

  // The pivoted columns from the n-th on.
  function Spread(s: Spec, rows: seq<Row>, n: nat): Row
    requires n <= |s.names|
    decreases |s.names| - n
  {
    if n == |s.names| then []
    else [MaxOf(s.coerce, Under(s, rows, s.names[n]), s.val)] + Spread(s, rows, n + 1)
  }

  // A group's row: the grouping columns of its first row, then one column for each name.
  function PivotRow(s: Spec, rows: seq<Row>): Row {
    (if rows == [] then [] else Parts(rows[0], s.group)) + Spread(s, rows, 0)
  }

  function PivotEach(s: Spec, rows: seq<Row>, keys: seq<string>): seq<Row> {
    if keys == [] then []
    else PivotEach(s, rows, keys[..|keys| - 1]) + [PivotRow(s, Members(GroupKey(s), rows, keys[|keys| - 1]))]
  }

  function Pivoted(s: Spec, rows: seq<Row>): seq<Row> { PivotEach(s, rows, KeyOrder(GroupKey(s), rows)) }

  method RunMax(coerce: Coercion, rows: seq<Row>, val: nat) returns (best: Value)
    ensures best == MaxOf(coerce, rows, val)
    ensures OneKind(rows, val) ==> forall r <- rows :: Tops(coerce, best, Cell(r, val))
    ensures OneKind(rows, val) && best != Null ==> exists r :: r in rows && Cell(r, val) == best
  {
    best := Null;
    for i := 0 to |rows|
      invariant best == MaxOf(coerce, rows[..i], val)
    {
      assert rows[..i + 1][..i] == rows[..i];
      var v := Cell(rows[i], val);
      if v == Null { continue; }
      if best == Null {
        best := v;
        continue;
      }
      var c := Compare(coerce, v, best, false);
      if c.Some? && c.value > 0 { best := v; }
    }
    assert rows[..|rows|] == rows;
    if OneKind(rows, val) { MaxIsLargest(coerce, rows, val); }
  }

  method RunUnder(s: Spec, rows: seq<Row>, name: string) returns (matched: seq<Row>)
    ensures matched == Under(s, rows, name)
  {
    matched := [];
    for i := 0 to |rows|
      invariant matched == Under(s, rows[..i], name)
    {
      UnderTurn(s, rows, i, name);
      if SameText(s.text(Cell(rows[i], s.piv)), name) { matched := matched + [rows[i]]; }
    }
    assert rows[..|rows|] == rows;
  }

  lemma UnderTurn(s: Spec, rows: seq<Row>, i: nat, name: string)
    requires i < |rows|
    ensures Under(s, rows[..i + 1], name) ==
      Under(s, rows[..i], name) + (if SameText(s.text(Cell(rows[i], s.piv)), name) then [rows[i]] else [])
    ensures Under(s, rows[..0], name) == []
  {
    assert rows[..i + 1] == rows[..i] + [rows[i]] && [rows[i]][1..] == [];
    FilterAppend(r => SameText(s.text(Cell(r, s.piv)), name), rows[..i], [rows[i]]);
  }

  method RunPivotRow(s: Spec, rows: seq<Row>) returns (out: Row)
    requires rows != []
    ensures out == PivotRow(s, rows)
  {
    hide Under, MaxOf;
    out := Parts(rows[0], s.group);
    ghost var head := out;
    for n := 0 to |s.names|
      invariant out + Spread(s, rows, n) == head + Spread(s, rows, 0)
    {
      var matched := RunUnder(s, rows, s.names[n]);
      var agg := RunMax(s.coerce, matched, s.val);
      assert out + Spread(s, rows, n) == (out + [agg]) + Spread(s, rows, n + 1);
      out := out + [agg];
    }
    assert out + [] == out;
  }

  method RunPivot(s: Spec, rows: seq<Row>) returns (out: seq<Row>)
    ensures out == Pivoted(s, rows)
  {
    hide KeyOrder, Members, PivotRow;
    var order, groups := GroupRows(GroupKey(s), rows);
    out := [];
    for i := 0 to |order|
      invariant out == PivotEach(s, rows, order[..i])
    {
      assert order[..i + 1][..i] == order[..i];
      GroupIsNotEmpty(GroupKey(s), rows, order[i]);
      var row := RunPivotRow(s, groups[order[i]]);
      out := out + [row];
    }
    assert order[..|order|] == order;
  }

  lemma {:induction false} GroupIsNotEmpty<T>(key: T -> string, rows: seq<T>, k: string)
    requires k in KeyOrder(key, rows)
    ensures Members(key, rows, k) != []
    decreases |rows|
  {
    var n := |rows| - 1;
    MembersTurn(key, rows, n, k);
    assert rows[..n + 1] == rows;
    if key(rows[n]) != k { GroupIsNotEmpty(key, rows[..n], k); }
  }

  // ---------- PIVOT undoes UNPIVOT ----------

  function FirstColumns(n: nat): seq<nat> { seq(n, i => i) }

  // PIVOT with MAX over what UNPIVOT makes: the name and value columns stand behind the kept ones.
  function Undo(keep: seq<nat>, names: seq<string>, key: Row -> string, text: Value -> string, coerce: Coercion): Spec {
    Spec(FirstColumns(|keep|), |keep|, |keep| + 1, names, key, text, coerce)
  }

  // An unpivoted table: which columns, and its rows.
  datatype Table = Table(keep: seq<nat>, up: seq<nat>, names: seq<string>, spec: Spec) {
    ghost predicate Valid() {
      && |up| == |names|
      && spec == Undo(keep, names, spec.key, spec.text, spec.coerce)
      && (forall x: string :: spec.text(Str(x)) == x)
      // distinct names under folding
      && (forall a, b :: 0 <= a < |names| && 0 <= b < |names| ==> (SameText(names[a], names[b]) <==> a == b))
    }

    function Block(r: Row): seq<Row>
      requires |up| == |names|
    {
      Rotated(r, keep, up, names, 0)
    }

    function KeyOf(r: Row): string { spec.key(Parts(r, keep)) }

    function Whole(r: Row): Row { Parts(r, keep) + Parts(r, up) }
  }

  function Line(t: Table, r: Row, n: nat): Row
    requires n < |t.up| == |t.names|
  {
    Parts(r, t.keep) + [Str(t.names[n]), Cell(r, t.up[n])]
  }

  lemma LineReads(t: Table, r: Row, n: nat)
    requires t.Valid() && n < |t.up|
    ensures var x := Line(t, r, n);
      Parts(x, t.spec.group) == Parts(r, t.keep) && Cell(x, t.spec.piv) == Str(t.names[n]) &&
        Cell(x, t.spec.val) == Cell(r, t.up[n])
  {
  }

  // Every line of a row's block has the row's kept columns.
  lemma {:induction false} BlockKeys(t: Table, r: Row, n: nat)
    requires t.Valid() && n <= |t.up|
    ensures forall x <- Rotated(r, t.keep, t.up, t.names, n) ::
      Parts(x, t.spec.group) == Parts(r, t.keep) && GroupKey(t.spec)(x) == t.KeyOf(r)
    decreases |t.up| - n
  {
    hide Parts, Cell;
    if n < |t.up| {
      BlockKeys(t, r, n + 1);
      LineReads(t, r, n);
    }
  }

  lemma {:induction false} BlockNotEmpty(t: Table, r: Row, n: nat, m: nat)
    requires t.Valid() && n <= m < |t.up| && Cell(r, t.up[m]) != Null
    ensures Rotated(r, t.keep, t.up, t.names, n) != []
    decreases m - n
  {
    if n < m { BlockNotEmpty(t, r, n + 1, m); }
  }

  lemma FilterCons<T>(keep: T -> bool, x: T, xs: seq<T>)
    ensures Filter(keep, [x] + xs) == (if keep(x) then [x] else []) + Filter(keep, xs)
  {
    assert ([x] + xs)[1..] == xs;
  }

  lemma UnderCons(s: Spec, x: Row, xs: seq<Row>, name: string)
    ensures Under(s, [x] + xs, name) ==
      (if SameText(s.text(Cell(x, s.piv)), name) then [x] else []) + Under(s, xs, name)
    ensures Under(s, [], name) == []
  {
    FilterCons(r => SameText(s.text(Cell(r, s.piv)), name), x, xs);
  }

  // Under a name there is the one line of that name, if its cell was not NULL.
  lemma {:induction false} BlockUnder(t: Table, r: Row, n: nat, m: nat)
    requires t.Valid() && n <= |t.up| && m < |t.up|
    ensures Under(t.spec, Rotated(r, t.keep, t.up, t.names, n), t.names[m]) ==
      if n <= m && Cell(r, t.up[m]) != Null then [Line(t, r, m)] else []
    decreases |t.up| - n
  {
    hide Parts, Cell, Under, SameText;
    UnderCons(t.spec, r, [], t.names[m]);
    if n < |t.up| {
      var rest := Rotated(r, t.keep, t.up, t.names, n + 1);
      BlockUnder(t, r, n + 1, m);
      LineReads(t, r, n);
      UnderCons(t.spec, Line(t, r, n), rest, t.names[m]);
      assert t.spec.text(Str(t.names[n])) == t.names[n] && (SameText(t.names[n], t.names[m]) <==> n == m);
      assert [Line(t, r, n)] + [] == [Line(t, r, n)];
      if Cell(r, t.up[n]) == Null {
        assert Rotated(r, t.keep, t.up, t.names, n) == rest;
      } else {
        assert Rotated(r, t.keep, t.up, t.names, n) == [Line(t, r, n)] + rest;
      }
    }
  }

  lemma MaxOfOne(coerce: Coercion, x: Row, val: nat)
    ensures MaxOf(coerce, [x], val) == Cell(x, val) && MaxOf(coerce, [], val) == Null
  {
    assert [x][..0] == [];
  }

  lemma {:induction false} BlockSpread(t: Table, r: Row, m: nat)
    requires t.Valid() && m <= |t.up|
    ensures Spread(t.spec, t.Block(r), m) == Parts(r, t.up)[m..]
    decreases |t.up| - m
  {
    hide Under, MaxOf, Rotated, Cell;
    if m < |t.up| {
      BlockSpread(t, r, m + 1);
      BlockUnder(t, r, 0, m);
      LineReads(t, r, m);
      MaxOfOne(t.spec.coerce, Line(t, r, m), t.spec.val);
    }
  }

  // A row's block pivots back to the row.
  lemma BlockPivots(t: Table, r: Row, m: nat)
    requires t.Valid() && m < |t.up| && Cell(r, t.up[m]) != Null
    ensures PivotRow(t.spec, t.Block(r)) == t.Whole(r)
  {
    hide Parts, Cell, Spread, Rotated;
    BlockNotEmpty(t, r, 0, m);
    BlockKeys(t, r, 0);
    BlockSpread(t, r, 0);
    assert Parts(r, t.up)[0..] == Parts(r, t.up);
  }

  // ---------- The groups are the blocks ----------

  // A stretch of rows with a new key is a new group at the end.
  lemma {:induction false} OrderAppend<T>(key: T -> string, rows: seq<T>, block: seq<T>, k: string)
    requires forall x <- block :: key(x) == k
    requires k !in KeyOrder(key, rows)
    ensures KeyOrder(key, rows + block) == KeyOrder(key, rows) + (if block == [] then [] else [k])
    decreases |block|
  {
    if block == [] {
      assert rows + block == rows;
    } else {
      var n := |block| - 1;
      assert (rows + block)[..|rows| + n] == rows + block[..n];
      OrderAppend(key, rows, block[..n], k);
    }
  }

  lemma MembersAppend<T>(key: T -> string, rows: seq<T>, block: seq<T>, k: string, other: string)
    requires forall x <- block :: key(x) == k
    ensures Members(key, rows + block, other) == Members(key, rows, other) + (if other == k then block else [])
  {
    FilterAppend(r => key(r) == other, rows, block);
    if other == k { FilterAll(r => key(r) == other, block); } else { FilterNone(r => key(r) == other, block); }
  }

  function Keys(t: Table, rows: seq<Row>): seq<string> { seq(|rows|, i requires 0 <= i < |rows| => t.KeyOf(rows[i])) }

  function Lines(t: Table, rows: seq<Row>): seq<Row>
    requires |t.up| == |t.names|
  {
    Unpivoted(rows, t.keep, t.up, t.names)
  }

  predicate HasCell(t: Table, r: Row) { exists m :: 0 <= m < |t.up| && Cell(r, t.up[m]) != Null }

  ghost predicate DistinctKeys(t: Table, rows: seq<Row>) {
    forall i, j :: 0 <= i < j < |rows| ==> t.KeyOf(rows[i]) != t.KeyOf(rows[j])
  }

  // The kept columns tell the rows apart, and every row has a listed cell that is not NULL.
  ghost predicate Recoverable(t: Table, rows: seq<Row>) {
    DistinctKeys(t, rows) && forall i :: 0 <= i < |rows| ==> HasCell(t, rows[i])
  }

  lemma LinesTurn(t: Table, rows: seq<Row>, i: nat)
    requires |t.up| == |t.names| && i < |rows|
    ensures Lines(t, rows[..i + 1]) == Lines(t, rows[..i]) + t.Block(rows[i])
  {
    FlatTurn(r => Rotated(r, t.keep, t.up, t.names, 0), rows, i);
  }

  lemma {:induction false} GroupsAreBlocks(t: Table, rows: seq<Row>, i: nat)
    requires t.Valid() && Recoverable(t, rows) && i <= |rows|
    ensures KeyOrder(GroupKey(t.spec), Lines(t, rows[..i])) == Keys(t, rows[..i])
    ensures forall j :: 0 <= j < i ==>
      Members(GroupKey(t.spec), Lines(t, rows[..i]), t.KeyOf(rows[j])) == t.Block(rows[j])
  {
    hide Members, Rotated, Parts, Cell, KeyOrder, Unpivoted;
    if i == 0 {
      NoLines(t, rows);
      NoKeys(GroupKey(t.spec));
    } else {
      GroupsAreBlocks(t, rows, i - 1);
      OneBlockMore(t, rows, i - 1);
      assert Keys(t, rows[..i]) == Keys(t, rows[..i - 1]) + [t.KeyOf(rows[i - 1])];
    }
  }

  lemma NoLines(t: Table, rows: seq<Row>)
    requires |t.up| == |t.names|
    ensures Lines(t, rows[..0]) == []
  {
  }

  lemma OneBlockMore(t: Table, rows: seq<Row>, i: nat)
    requires t.Valid() && Recoverable(t, rows) && i < |rows|
    requires KeyOrder(GroupKey(t.spec), Lines(t, rows[..i])) == Keys(t, rows[..i])
    requires forall j :: 0 <= j < i ==>
      Members(GroupKey(t.spec), Lines(t, rows[..i]), t.KeyOf(rows[j])) == t.Block(rows[j])
    ensures KeyOrder(GroupKey(t.spec), Lines(t, rows[..i + 1])) == Keys(t, rows[..i]) + [t.KeyOf(rows[i])]
    ensures forall j :: 0 <= j <= i ==>
      Members(GroupKey(t.spec), Lines(t, rows[..i + 1]), t.KeyOf(rows[j])) == t.Block(rows[j])
  {
    hide Members, Rotated, Parts, Cell, KeyOrder, Unpivoted;
    var r, key, k := rows[i], GroupKey(t.spec), t.KeyOf(rows[i]);
    var before := Lines(t, rows[..i]);
    LinesTurn(t, rows, i);
    BlockKeys(t, r, 0);
    var m :| 0 <= m < |t.up| && Cell(r, t.up[m]) != Null;
    BlockNotEmpty(t, r, 0, m);
    assert k !in Keys(t, rows[..i]);
    OrderAppend(key, before, t.Block(r), k);
    NoMembers(key, before, k);
    forall j | 0 <= j <= i ensures Members(key, Lines(t, rows[..i + 1]), t.KeyOf(rows[j])) == t.Block(rows[j]) {
      MembersAppend(key, before, t.Block(r), k, t.KeyOf(rows[j]));
    }
  }

  function Wholes(t: Table, rows: seq<Row>): seq<Row> { seq(|rows|, i requires 0 <= i < |rows| => t.Whole(rows[i])) }

  lemma {:induction false} BlocksPivot(t: Table, rows: seq<Row>, i: nat)
    requires t.Valid() && Recoverable(t, rows) && i <= |rows|
    ensures PivotEach(t.spec, Lines(t, rows), Keys(t, rows)[..i]) == Wholes(t, rows[..i])
  {
    hide Members, PivotRow, Parts, Cell, Lines, KeyOrder;
    if i > 0 {
      BlocksPivot(t, rows, i - 1);
      GroupsAreBlocks(t, rows, |rows|);
      assert rows[..|rows|] == rows;
      var r := rows[i - 1];
      var m :| 0 <= m < |t.up| && Cell(r, t.up[m]) != Null;
      BlockPivots(t, r, m);
      assert Keys(t, rows)[..i][..i - 1] == Keys(t, rows)[..i - 1] && Keys(t, rows)[..i][i - 1] == t.KeyOf(r);
      assert Wholes(t, rows[..i]) == Wholes(t, rows[..i - 1]) + [t.Whole(r)];
    }
  }

  // PIVOT with MAX of an unpivoted table is the table with its listed columns moved last; the NULL cells that
  // UNPIVOT dropped come back as NULL.
  lemma PivotUndoesUnpivot(t: Table, rows: seq<Row>)
    requires t.Valid() && Recoverable(t, rows)
    ensures Pivoted(t.spec, Unpivoted(rows, t.keep, t.up, t.names)) == Wholes(t, rows)
  {
    hide PivotEach, KeyOrder, Unpivoted, Recoverable;
    GroupsAreBlocks(t, rows, |rows|);
    BlocksPivot(t, rows, |rows|);
    assert rows[..|rows|] == rows && Keys(t, rows)[..|rows|] == Keys(t, rows);
  }

  // ---------- Exactly the rows that come back ----------

  function Kept(t: Table, rows: seq<Row>): seq<Row> { Filter(r => HasCell(t, r), rows) }

  // A row whose listed cells are all NULL gives nothing.
  lemma {:induction false} RowOfNullsIsLost(t: Table, r: Row, n: nat)
    requires |t.up| == |t.names| && n <= |t.up| && !HasCell(t, r)
    ensures Rotated(r, t.keep, t.up, t.names, n) == []
    decreases |t.up| - n
  {
    if n < |t.up| { RowOfNullsIsLost(t, r, n + 1); }
  }

  lemma LinesOfKept(t: Table, rows: seq<Row>)
    requires |t.up| == |t.names|
    ensures Lines(t, Kept(t, rows)) == Lines(t, rows)
  {
    hide Rotated, HasCell;
    var f := (r: Row) => Rotated(r, t.keep, t.up, t.names, 0);
    forall r <- rows | !HasCell(t, r) ensures f(r) == [] { RowOfNullsIsLost(t, r, 0); }
    FlatSkips(f, r => HasCell(t, r), rows);
  }

  // Keys that tell all rows apart tell the kept ones apart.
  lemma {:induction false} KeptKeys(t: Table, rows: seq<Row>)
    requires DistinctKeys(t, rows)
    ensures DistinctKeys(t, Kept(t, rows))
  {
    hide HasCell;
    if rows != [] {
      KeptKeys(t, rows[1..]);
      forall r <- Kept(t, rows[1..]) ensures t.KeyOf(r) != t.KeyOf(rows[0]) {
        var i :| 0 <= i < |rows[1..]| && rows[1..][i] == r;
        assert rows[i + 1] == r;
      }
    }
  }

  lemma {:induction false} KeptAll(t: Table, rows: seq<Row>)
    ensures |Kept(t, rows)| <= |rows|
    ensures |Kept(t, rows)| == |rows| <==> forall r <- rows :: HasCell(t, r)
    ensures |Kept(t, rows)| == |rows| ==> Kept(t, rows) == rows
  {
    hide HasCell;
    if rows != [] { KeptAll(t, rows[1..]); }
  }

  lemma WholesLength(t: Table, rows: seq<Row>)
    ensures |Wholes(t, rows)| == |rows|
  {
  }

  // Where the kept columns are keys, PIVOT with MAX gives back the rows with a listed cell that is not NULL, and
  // no others: it undoes UNPIVOT exactly when every row has one.
  lemma RoundTripExactly(t: Table, rows: seq<Row>)
    requires t.Valid() && DistinctKeys(t, rows)
    ensures var back := Pivoted(t.spec, Unpivoted(rows, t.keep, t.up, t.names));
      && back == Wholes(t, Kept(t, rows))
      && (back == Wholes(t, rows) <==> forall r <- rows :: HasCell(t, r))
  {
    hide Pivoted, Unpivoted, DistinctKeys, HasCell, Wholes;
    var kept := Kept(t, rows);
    KeptKeys(t, rows);
    assert Recoverable(t, kept) by {
      forall i | 0 <= i < |kept| ensures HasCell(t, kept[i]) {
        var r := kept[i];
        assert r in kept;
      }
    }
    PivotUndoesUnpivot(t, kept);
    LinesOfKept(t, rows);
    KeptAll(t, rows);
    WholesLength(t, kept);
    WholesLength(t, rows);
  }

  // ---------- MAX ----------

  // A value that best does not fall short of.
  predicate Tops(coerce: Coercion, best: Value, v: Value) {
    v == Null || (Compare(coerce, best, v, false).Some? && Compare(coerce, best, v, false).value >= 0)
  }

  ghost predicate OneKind(rows: seq<Row>, val: nat) {
    forall a, b :: a in rows && b in rows && Cell(a, val) != Null && Cell(b, val) != Null ==>
      SameKind(Cell(a, val), Cell(b, val))
  }

  lemma LargerStays(coerce: Coercion, best: Value, v: Value, x: Value)
    requires SameKind(best, v) && SameKind(v, x) && Tops(coerce, best, x)
    ensures var c := Compare(coerce, v, best, false);
      c.Some? && Tops(coerce, if c.value > 0 then v else best, x) && Tops(coerce, if c.value > 0 then v else best, v)
  {
    hide Compare;
    ValuesOrdered(coerce, false, v, best, x);
    ValuesOrdered(coerce, false, v, v, v);
  }

  // Over a column of one kind or NULL, MAX is the largest of its values, NULL only where there is none.
  lemma {:induction false} MaxIsLargest(coerce: Coercion, rows: seq<Row>, val: nat)
    requires OneKind(rows, val)
    ensures var best := MaxOf(coerce, rows, val);
      && (best == Null <==> forall r <- rows :: Cell(r, val) == Null)
      && (best != Null ==> exists r :: r in rows && Cell(r, val) == best)
      && (forall r <- rows :: Tops(coerce, best, Cell(r, val)))
  {
    hide Compare, Tops, Cell, SameKind;
    if rows != [] {
      var n := |rows| - 1;
      var v, before := Cell(rows[n], val), MaxOf(coerce, rows[..n], val);
      assert rows == rows[..n] + [rows[n]];
      MaxIsLargest(coerce, rows[..n], val);
      forall r <- rows ensures Tops(coerce, MaxOf(coerce, rows, val), Cell(r, val)) {
        MaxTurn(coerce, rows, val, r);
      }
    }
  }

  lemma MaxTurn(coerce: Coercion, rows: seq<Row>, val: nat, r: Row)
    requires rows != [] && r in rows && OneKind(rows, val)
    requires var init := rows[..|rows| - 1];
      var before := MaxOf(coerce, init, val);
      && (before != Null ==> exists x :: x in init && Cell(x, val) == before)
      && (before == Null ==> forall x <- init :: Cell(x, val) == Null)
      && (forall x <- init :: Tops(coerce, before, Cell(x, val)))
    ensures Tops(coerce, MaxOf(coerce, rows, val), Cell(r, val))
  {
    hide Compare, Cell;
    var n := |rows| - 1;
    var v, before := Cell(rows[n], val), MaxOf(coerce, rows[..n], val);
    assert rows == rows[..n] + [rows[n]];
    if v != Null && Cell(r, val) != Null {
      if before == Null {
        ValuesOrdered(coerce, false, v, v, v);
      } else {
        var x :| x in rows[..n] && Cell(x, val) == before;
        assert x in rows && rows[n] in rows;
        LargerStays(coerce, before, v, before);
        if r in rows[..n] { LargerStays(coerce, before, v, Cell(r, val)); }
      }
    }
  }
}
