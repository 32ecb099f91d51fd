// When the planner's reading of column names is right, and what goes wrong when it is not.

module Names {
  import opened Option
  import opened Fold
  import opened Tds
  import opened Exec
  import opened Rows
  import opened JoinExec
  import opened Planner
  import opened Pushdown

  predicate DotFree(s: string) { '.' !in s }

  // ---------- Qualified names ----------

  lemma {:induction false} AfterDotOf(a: string, c: string)
    requires DotFree(c)
    ensures AfterDot(a + "." + c) == |a| + 1
    ensures ShortName(a + "." + c) == c
    decreases |c|
  {
    var name := a + "." + c;
    if c == "" {
      assert name[|name| - 1] == '.';
    } else {
      var shorter := c[..|c| - 1];
      assert name[|name| - 1] == c[|c| - 1] && c[|c| - 1] in c;
      assert name[..|name| - 1] == a + "." + shorter;
      AfterDotOf(a, shorter);
    }
  }

  lemma {:induction false} AfterDotNone(c: string)
    requires DotFree(c)
    ensures AfterDot(c) == 0
  {
    if c != "" {
      assert c[|c| - 1] in c;
      AfterDotNone(c[..|c| - 1]);
    }
  }

  lemma ShortIsDotFree(name: string)
    ensures DotFree(ShortName(name))
  {
  }

  lemma QualifierSplits(a: string, c: string, b: string, d: string)
    requires DotFree(a) && DotFree(b) && a + "." + c == b + "." + d
    ensures a == b && c == d
  {
    var x := a + "." + c;
    assert x[|a|] == '.' && x[|b|] == '.';
    if |a| < |b| || |b| < |a| { assert false; }
    assert x[..|a|] == a && x[..|b|] == b && x[|a| + 1..] == c && x[|b| + 1..] == d;
  }

  // singleTableWhere gives the column owner.c to the source alias/table exactly when the qualifier is
  // that source's alias or its table name, whoever the column really belongs to.
  lemma AttributionExactly(owner: string, c: string, alias: string, table: string)
    requires DotFree(owner) && DotFree(alias) && DotFree(table)
    ensures QualifiedBy(owner + "." + c, alias, table) <==> (owner == alias || owner == table)
  {
    var col := owner + "." + c;
    forall q | q == alias || q == table ensures (q + "." <= col) == (owner == q) {
      if q + "." <= col {
        assert col == q + "." + col[|q| + 1..];
        QualifierSplits(owner, c, q, col[|q| + 1..]);
      }
      if owner == q { assert col[..|q| + 1] == q + "."; }
    }
  }

  // ---------- Indexes of distinct names ----------

  lemma {:induction false} FullNamesAt(cols: seq<string>, i: nat)
    requires i < |cols| && forall j :: i < j < |cols| ==> cols[j] != cols[i]
    ensures cols[i] in FullNames(cols) && FullNames(cols)[cols[i]] == i
  {
    if i < |cols| - 1 {
      FullNamesAt(cols[..|cols| - 1], i);
    }
  }

  lemma {:induction false} FullNamesKeys(cols: seq<string>)
    ensures forall x :: x in FullNames(cols) ==> x in cols
  {
    if cols != [] {
      FullNamesKeys(cols[..|cols| - 1]);
    }
  }

  lemma {:induction false} ShortNamesKeep(cols: seq<string>, i: nat, m: Index, dup: set<string>, x: string)
    requires i <= |cols| && x in m
    requires forall d :: d in dup ==> DotFree(d)
    ensures var (m', dup') := ShortNames(cols, i, m, dup);
      x in m' && m'[x] == m[x] && forall d :: d in dup' ==> DotFree(d)
    decreases |cols| - i
  {
    if i < |cols| {
      var short := ShortName(cols[i]);
      ShortIsDotFree(cols[i]);
      if AfterDot(cols[i]) == 0 {
        ShortNamesKeep(cols, i + 1, m, dup, x);
      } else if short in m {
        ShortNamesKeep(cols, i + 1, m, dup + {short}, x);
      } else {
        ShortNamesKeep(cols, i + 1, m[short := i], dup, x);
      }
    }
  }

  lemma {:induction false} ShortNamesNone(cols: seq<string>, i: nat, m: Index, dup: set<string>)
    requires i <= |cols| && forall j :: 0 <= j < |cols| ==> DotFree(cols[j])
    ensures ShortNames(cols, i, m, dup) == (m, dup)
    decreases |cols| - i
  {
    if i < |cols| {
      AfterDotNone(cols[i]);
      ShortNamesNone(cols, i + 1, m, dup);
    }
  }

  // A dotted column name that occurs once resolves to its own column.
  lemma JoinedResolves(cols: seq<string>, i: nat)
    requires i < |cols| && '.' in cols[i] && forall j :: i < j < |cols| ==> cols[j] != cols[i]
    ensures ResolveCol(IndexCols(cols), cols[i]) == Some(i)
  {
    FullNamesAt(cols, i);
    ShortNamesKeep(cols, 0, FullNames(cols), {}, cols[i]);
  }

  // In the scan of a table with plain column names, a.c resolves to c.
  lemma ScanResolves(cols: seq<string>, a: string, k: nat)
    requires k < |cols| && forall j :: 0 <= j < |cols| ==> DotFree(cols[j])
    requires forall j :: k < j < |cols| ==> cols[j] != cols[k]
    ensures ResolveCol(IndexCols(cols), a + "." + cols[k]) == Some(k)
    ensures ResolveCol(IndexCols(cols), cols[k]) == Some(k)
  {
    ShortNamesNone(cols, 0, FullNames(cols), {});
    FullNamesAt(cols, k);
    FullNamesKeys(cols);
    AfterDotOf(a, cols[k]);
    var name := a + "." + cols[k];
    assert name[|a|] == '.';
    assert name !in cols;
  }

  // Where the short name x is found among the columns from i on, given where it was found before.
  lemma {:induction false} ShortNameFound(cols: seq<string>, i: nat, m: Index, dup: set<string>, x: string)
    requires i <= |cols| && forall j :: 0 <= j < |cols| ==> AfterDot(cols[j]) > 0
    ensures var m' := ShortNames(cols, i, m, dup).0;
      if x in m then x in m' && m'[x] == m[x]
      else x in m' <==> exists j :: i <= j < |cols| && ShortName(cols[j]) == x
    ensures var (m', dup') := ShortNames(cols, i, m, dup);
      x in m ==> (x in dup' <==> x in dup || exists j :: i <= j < |cols| && ShortName(cols[j]) == x)
    ensures var (m', dup') := ShortNames(cols, i, m, dup);
      x !in m && x in m' ==>
        && i <= m'[x] < |cols| && ShortName(cols[m'[x]]) == x
        && (forall j :: i <= j < m'[x] ==> ShortName(cols[j]) != x)
        && (x !in dup ==> (x in dup' <==> exists j :: m'[x] < j < |cols| && ShortName(cols[j]) == x))
    decreases |cols| - i
  {
    hide ShortName, AfterDot;
    if i < |cols| {
      var short := ShortName(cols[i]);
      if short in m {
        ShortNameFound(cols, i + 1, m, dup + {short}, x);
      } else {
        ShortNameFound(cols, i + 1, m[short := i], dup, x);
      }
    }
  }

  // Among joined columns a bare name is the column that bears it, exactly when only one does.
  lemma BareNameExactly(cols: seq<string>, x: string, i: nat)
    requires DotFree(x) && forall j :: 0 <= j < |cols| ==> '.' in cols[j]
    ensures ResolveCol(IndexCols(cols), x) == Some(i) <==>
      i < |cols| && ShortName(cols[i]) == x && forall j :: 0 <= j < |cols| && j != i ==> ShortName(cols[j]) != x
  {
    hide ShortNames, FullNames, ShortName;
    AfterDotNone(x);
    FullNamesKeys(cols);
    assert forall j :: 0 <= j < |cols| ==> AfterDot(cols[j]) > 0;
    ShortNameFound(cols, 0, FullNames(cols), {}, x);
    assert x !in FullNames(cols);
  }

  // ---------- A naming discipline under which every plan is read right ----------

  // Aliases are distinct and plain, no source's table name is another source's alias, and the columns
  // of each source are distinct and plain.
  ghost predicate NamesApart(w: World, p: Plan) {
    && (forall i :: -1 <= i < |p.joins| ==>
        var s := SourceAt(p, i);
        && DotFree(EffAlias(s)) && (s.Named? ==> DotFree(s.table))
        && (forall k :: 0 <= k < |BareCols(w, s)| ==> DotFree(BareCols(w, s)[k]))
        && (forall k, l :: 0 <= k < l < |BareCols(w, s)| ==> BareCols(w, s)[k] != BareCols(w, s)[l]))
    && (forall i, j :: -1 <= i < |p.joins| && -1 <= j < |p.joins| && i != j ==>
        && EffAlias(SourceAt(p, i)) != EffAlias(SourceAt(p, j))
        && (SourceAt(p, i).Named? ==> SourceAt(p, i).table != EffAlias(SourceAt(p, j))))
  }

  // A column written alias.name of a source at or before step n.
  ghost predicate Exposed(w: World, p: Plan, n: int, name: string) {
    exists i: int, k: nat :: ExposedAt(w, p, n, name, i, k)
  }

  ghost predicate ExposedAt(w: World, p: Plan, n: int, name: string, i: int, k: nat) {
    && -1 <= i <= n && i < |p.joins| && k < |BareCols(w, SourceAt(p, i))|
    && name == EffAlias(SourceAt(p, i)) + "." + BareCols(w, SourceAt(p, i))[k]
  }

  // Column k of the source at i sits at its offset among the columns before n.
  lemma {:induction false} ColumnAt(w: World, p: Plan, n: nat, i: int, k: nat)
    requires n <= |p.joins| && -1 <= i < n && k < |BareCols(w, SourceAt(p, i))|
    ensures OffsetOf(w, p, i) + k < |ColsBefore(w, p, n)|
    ensures ColsBefore(w, p, n)[OffsetOf(w, p, i) + k] ==
      EffAlias(SourceAt(p, i)) + "." + BareCols(w, SourceAt(p, i))[k]
  {
    if i < n - 1 { ColumnAt(w, p, n - 1, i, k); }
  }

  // Every column before n is some source's.
  lemma {:induction false} ColumnOf(w: World, p: Plan, n: nat, c: nat) returns (i: int, k: nat)
    requires n <= |p.joins| && c < |ColsBefore(w, p, n)|
    ensures -1 <= i < n && k < |BareCols(w, SourceAt(p, i))| && c == OffsetOf(w, p, i) + k
    ensures ColsBefore(w, p, n)[c] == EffAlias(SourceAt(p, i)) + "." + BareCols(w, SourceAt(p, i))[k]
  {
    if n == 0 {
      i, k := -1, c;
    } else if c < |ColsBefore(w, p, n - 1)| {
      i, k := ColumnOf(w, p, n - 1, c);
    } else {
      i, k := n - 1, c - |ColsBefore(w, p, n - 1)|;
    }
  }

  lemma ExposedResolves(w: World, p: Plan, n: nat, name: string, i: int, k: nat)
    requires NamesApart(w, p) && n <= |p.joins| && ExposedAt(w, p, n - 1, name, i, k)
    ensures ResolveCol(IndexCols(ColsBefore(w, p, n)), name) == Some(OffsetOf(w, p, i) + k)
  {
    var cols, at := ColsBefore(w, p, n), OffsetOf(w, p, i) + k;
    ColumnAt(w, p, n, i, k);
    forall j | at < j < |cols| ensures cols[j] != cols[at] {
      var i', k' := ColumnOf(w, p, n, j);
      if cols[j] == cols[at] {
        QualifierSplits(EffAlias(SourceAt(p, i)), BareCols(w, SourceAt(p, i))[k],
          EffAlias(SourceAt(p, i')), BareCols(w, SourceAt(p, i'))[k']);
      }
    }
    assert name[|EffAlias(SourceAt(p, i))|] == '.';
    JoinedResolves(cols, at);
  }

  lemma ExposedInScan(w: World, p: Plan, i: int, k: nat)
    requires NamesApart(w, p) && -1 <= i < |p.joins| && k < |BareCols(w, SourceAt(p, i))|
    ensures var cols := BareCols(w, SourceAt(p, i));
      && ResolveCol(IndexCols(cols), EffAlias(SourceAt(p, i)) + "." + cols[k]) == Some(k)
      && ResolveCol(IndexCols(cols), cols[k]) == Some(k)
  {
    ScanResolves(BareCols(w, SourceAt(p, i)), EffAlias(SourceAt(p, i)), k);
  }

  // Under the discipline an exposed column is attributed to its own source alone.
  lemma OwnColumn(w: World, p: Plan, n: int, x: string, j: int, k: nat, i: int)
    requires NamesApart(w, p) && n < |p.joins| && ExposedAt(w, p, n, x, j, k)
    requires -1 <= i < |p.joins| && SourceAt(p, i).Named?
    ensures QualifiedBy(x, EffAlias(SourceAt(p, i)), SourceAt(p, i).table) <==> i == j
  {
    var s := SourceAt(p, i);
    AttributionExactly(EffAlias(SourceAt(p, j)), BareCols(w, SourceAt(p, j))[k], EffAlias(s), s.table);
  }

  // A column attributed to a source is that source's, in the joined row and in the scan.
  lemma AttributedIsOwn(w: World, p: Plan, i: int, x: string)
    requires NamesApart(w, p) && -1 <= i < |p.joins| && SourceAt(p, i).Named?
    requires Exposed(w, p, |p.joins| - 1, x) && QualifiedBy(x, EffAlias(SourceAt(p, i)), SourceAt(p, i).table)
    ensures SameColumn(IndexCols(ColsBefore(w, p, |p.joins|)), IndexCols(BareCols(w, SourceAt(p, i))),
      OffsetOf(w, p, i), |BareCols(w, SourceAt(p, i))|, x)
  {
    hide NamesApart, QualifiedBy, IndexCols, ColsBefore;
    var j: int, k: nat :| ExposedAt(w, p, |p.joins| - 1, x, j, k);
    OwnColumn(w, p, |p.joins| - 1, x, j, k, i);
    ExposedResolves(w, p, |p.joins|, x, i, k);
    ExposedInScan(w, p, i, k);
  }

  // What a conjunct pushed to the source at i may be: over exposed columns, without subqueries. Conjuncts that are
  // not pushed may be anything.
  ghost predicate PushedExposed(w: World, p: Plan, i: int)
    requires -1 <= i < |p.joins|
  {
    var s := SourceAt(p, i);
    s.Named? ==> forall c :: c in Conjuncts(p.where) && Attributed(EffAlias(s), s.table)(c) ==>
      LocalExpr(c, false) && forall x :: x in ExprCols(c) ==> Exposed(w, p, |p.joins| - 1, x)
  }

  // Under the discipline, a WHERE clause is pushed only where it belongs.
  lemma NamesScope(w: World, p: Plan, i: int)
    requires NamesApart(w, p) && -1 <= i < |p.joins| && PushedExposed(w, p, i)
    ensures PartsScoped(w, p, i)
  {
    var s := SourceAt(p, i);
    if s.Named? {
      var all, own := IndexCols(ColsBefore(w, p, |p.joins|)), IndexCols(BareCols(w, s));
      var parts := HintParts(w, p, i, s.table, EffAlias(s));
      assert forall c :: c in parts ==> c in Conjuncts(p.where) && Attributed(EffAlias(s), s.table)(c);
      hide NamesApart, HintParts, IndexCols, ColsBefore, LocalExpr, ExprCols, Conjuncts, QualifiedBy, Exposed,
        SameColumn;
      forall c, x | c in parts && x in ExprCols(c)
        ensures SameColumn(all, own, OffsetOf(w, p, i), |BareCols(w, s)|, x)
      {
        var j :| 0 <= j < |ExprCols(c)| && ExprCols(c)[j] == x;
        AttributedIsOwn(w, p, i, x);
      }
    }
  }

  // What an ON that the planner takes for an equi-join may be: one-sided as the parser builds it, between exposed
  // columns of one kind.
  ghost predicate KeysExposed(w: World, p: Plan, n: nat)
    requires n < |p.joins|
  {
    var st := p.joins[n];
    st.source.Named? && JoinKeys(st.on, EffAlias(st.source), st.source.table).Some? ==>
      var (lk, rk) := JoinKeys(st.on, EffAlias(st.source), st.source.table).value;
      && st.on.value.pred.sub.None? && (st.on.value.pred.column == "" || st.on.value.pred.leftExpr.None?)
      && Exposed(w, p, n, lk) && Exposed(w, p, n, rk)
      && forall i: int, k: nat, k': nat :: ExposedAt(w, p, n, lk, i, k) && ExposedAt(w, p, n, rk, n, k') && i < n ==>
           KindAt(w, p, i, k) == KindAt(w, p, n, k')
  }

  ghost function KindAt(w: World, p: Plan, i: int, k: nat): Option<Kind>
    requires -1 <= i < |p.joins|
  {
    if k < |KindsOf(w, SourceAt(p, i))| then Some(KindsOf(w, SourceAt(p, i))[k]) else None
  }

  ghost predicate AllTyped(w: World, p: Plan) { forall i :: -1 <= i < |p.joins| ==> SourceTyped(w, SourceAt(p, i)) }

  // The kinds stand where the columns do.
  lemma {:induction false} KindsAlign(w: World, p: Plan, n: nat, i: int, k: nat)
    requires AllTyped(w, p) && n <= |p.joins| && -1 <= i < n && k < |BareCols(w, SourceAt(p, i))|
    ensures |ColsBefore(w, p, n)| == |KindsBefore(w, p, n)|
    ensures OffsetOf(w, p, i) + k < |KindsBefore(w, p, n)|
    ensures KindsBefore(w, p, n)[OffsetOf(w, p, i) + k] == KindsOf(w, SourceAt(p, i))[k]
  {
    hide Typed;
    assert SourceTyped(w, SourceAt(p, i)) && SourceTyped(w, SourceAt(p, n - 1));
    TypedWidth(w, p, n);
    if n > 0 { TypedWidth(w, p, n - 1); }
    if i < n - 1 { KindsAlign(w, p, n - 1, i, k); }
  }

  lemma {:induction false} TypedWidth(w: World, p: Plan, n: nat)
    requires AllTyped(w, p) && n <= |p.joins|
    ensures |ColsBefore(w, p, n)| == |KindsBefore(w, p, n)|
  {
    hide Typed;
    assert SourceTyped(w, SourceAt(p, n - 1));
    if n > 0 { TypedWidth(w, p, n - 1); }
  }

  // And an equality between exposed columns of one kind is a semi-join between exactly those columns.
  lemma NamesScopeKeys(w: World, p: Plan, n: nat)
    requires NamesApart(w, p) && AllTyped(w, p) && n < |p.joins| && KeysExposed(w, p, n)
    ensures KeysScoped(w, p, n)
  {
    hide ColsBefore, KindsBefore, KeysMeet, NamesApart, Exposed, ExposedAt, KeyIndex, QualifiedBy, AllTyped, OffsetOf,
      KindAt;
    var st := p.joins[n];
    var s := st.source;
    if s.Named? {
      var keys := JoinKeys(st.on, EffAlias(s), s.table);
      if keys.Some? {
        KeysAreSided(st.on, EffAlias(s), s.table);
        MeetKeys(w, p, n, keys.value.0, keys.value.1);
      }
    }
  }

  lemma MeetKeys(w: World, p: Plan, n: nat, lk: string, rk: string)
    requires NamesApart(w, p) && AllTyped(w, p) && n < |p.joins| && p.joins[n].source.Named?
    requires Exposed(w, p, n, lk) && Exposed(w, p, n, rk)
    requires var s := p.joins[n].source;
      QualifiedBy(rk, EffAlias(s), s.table) && !QualifiedBy(lk, EffAlias(s), s.table)
    requires forall i: int, k: nat, k': nat ::
      ExposedAt(w, p, n, lk, i, k) && ExposedAt(w, p, n, rk, n, k') && i < n ==>
      KindAt(w, p, i, k) == KindAt(w, p, n, k')
    ensures KeysMeet(w, p, n, lk, rk)
  {
    hide NamesApart, Exposed, QualifiedBy, IndexCols, ColsBefore, KindsBefore, ResolveCol, KeyIndex, ShortName,
      OffsetOf, AllTyped;
    var i, k := LeftKey(w, p, n, lk);
    var k' := RightKey(w, p, n, rk);
    assert KindAt(w, p, i, k) == KindAt(w, p, n, k');
    KindsAlign(w, p, n, i, k);
    assert SourceAt(p, n) == p.joins[n].source && SourceTyped(w, SourceAt(p, n)) by { TypedAt(w, p, n); }
    TypedAt(w, p, i);
  }

  lemma TypedAt(w: World, p: Plan, i: int)
    requires AllTyped(w, p) && -1 <= i < |p.joins|
    ensures SourceTyped(w, SourceAt(p, i))
  {
  }

  lemma KeysAreSided(on: Option<Expr>, alias: string, table: string)
    requires JoinKeys(on, alias, table).Some?
    ensures var (lk, rk) := JoinKeys(on, alias, table).value;
      QualifiedBy(rk, alias, table) && !QualifiedBy(lk, alias, table)
  {
  }

  lemma LeftKey(w: World, p: Plan, n: nat, lk: string) returns (i: int, k: nat)
    requires NamesApart(w, p) && n < |p.joins| && p.joins[n].source.Named?
    requires Exposed(w, p, n, lk)
    requires var s := p.joins[n].source; !QualifiedBy(lk, EffAlias(s), s.table)
    ensures i < n && ExposedAt(w, p, n, lk, i, k)
    ensures KeyIndex(ColsBefore(w, p, n), lk) == Some(OffsetOf(w, p, i) + k)
    ensures ResolveCol(IndexCols(ColsBefore(w, p, n + 1)), lk) == Some(OffsetOf(w, p, i) + k)
  {
    hide NamesApart, QualifiedBy, IndexCols, ResolveCol, KeyIndex, ColsBefore;
    i, k :| ExposedAt(w, p, n, lk, i, k);
    OwnColumn(w, p, n, lk, i, k, n);
    ExposedResolves(w, p, n + 1, lk, i, k);
    KeyIndexIsExact(w, p, n, lk, i, k);
  }

  lemma RightKey(w: World, p: Plan, n: nat, rk: string) returns (k: nat)
    requires NamesApart(w, p) && n < |p.joins| && p.joins[n].source.Named?
    requires Exposed(w, p, n, rk)
    requires var s := p.joins[n].source; QualifiedBy(rk, EffAlias(s), s.table)
    ensures ExposedAt(w, p, n, rk, n, k)
    ensures ResolveCol(IndexCols(BareCols(w, p.joins[n].source)), ShortName(rk)) == Some(k)
    ensures ResolveCol(IndexCols(ColsBefore(w, p, n + 1)), rk) == Some(|ColsBefore(w, p, n)| + k)
  {
    hide NamesApart, QualifiedBy, IndexCols, ResolveCol, ColsBefore;
    var j;
    j, k :| ExposedAt(w, p, n, rk, j, k);
    OwnColumn(w, p, n, rk, j, k, n);
    ShortOfExposed(w, p, n, k);
    ExposedResolves(w, p, n + 1, rk, n, k);
    ExposedInScan(w, p, n, k);
  }

  lemma ShortOfExposed(w: World, p: Plan, i: int, k: nat)
    requires NamesApart(w, p) && -1 <= i < |p.joins| && k < |BareCols(w, SourceAt(p, i))|
    ensures ShortName(EffAlias(SourceAt(p, i)) + "." + BareCols(w, SourceAt(p, i))[k]) == BareCols(w, SourceAt(p, i))[k]
  {
    AfterDotOf(EffAlias(SourceAt(p, i)), BareCols(w, SourceAt(p, i))[k]);
  }

  lemma KeyIndexIsExact(w: World, p: Plan, n: nat, lk: string, i: int, k: nat)
    requires NamesApart(w, p) && n < |p.joins| && i < n && ExposedAt(w, p, n - 1, lk, i, k)
    ensures KeyIndex(ColsBefore(w, p, n), lk) == Some(OffsetOf(w, p, i) + k)
  {
    var cols, at := ColsBefore(w, p, n), OffsetOf(w, p, i) + k;
    ColumnAt(w, p, n, i, k);
    var found := FirstWhere(cols, (c: string) => c == lk, 0);
    if found.Some? {
      var i', k' := ColumnOf(w, p, n, found.value);
      QualifierSplits(EffAlias(SourceAt(p, i)), BareCols(w, SourceAt(p, i))[k],
        EffAlias(SourceAt(p, i')), BareCols(w, SourceAt(p, i'))[k']);
      assert i == i';
    }
  }

  // A plan whose names keep apart is read right.
  lemma ApartIsReadable(w: World, p: Plan)
    requires NamesApart(w, p) && AllTyped(w, p) && !p.from.Lateral?
    requires forall n :: 0 <= n < |p.joins| && p.joins[n].source.Lateral? ==>
      !ExtendsLeft(p.joins[n].jt) && !ExtendsRight(p.joins[n].jt)
    requires forall i :: -1 <= i < |p.joins| ==> PushedExposed(w, p, i)
    requires forall n :: 0 <= n < |p.joins| ==> KeysExposed(w, p, n)
    ensures Readable(w, p)
  {
    hide NamesApart, SourceTyped, PartsScoped, KeysScoped, PushedExposed, KeysExposed;
    assert SourceAt(p, -1) == p.from;
    TypedAt(w, p, -1);
    NamesScope(w, p, -1);
    forall n | 0 <= n < |p.joins|
      ensures SourceTyped(w, p.joins[n].source) && PartsScoped(w, p, n) && KeysScoped(w, p, n)
    {
      assert SourceAt(p, n) == p.joins[n].source;
      TypedAt(w, p, n);
      NamesScope(w, p, n);
      NamesScopeKeys(w, p, n);
    }
  }

  // And meets the pushdown theorem's terms where no pushed condition is TRUE of a row of NULLs.
  lemma ApartIsSound(w: World, p: Plan)
    requires NamesApart(w, p) && AllTyped(w, p) && !p.from.Lateral?
    requires forall n :: 0 <= n < |p.joins| && p.joins[n].source.Lateral? ==>
      !ExtendsLeft(p.joins[n].jt) && !ExtendsRight(p.joins[n].jt)
    requires forall i :: -1 <= i < |p.joins| ==> PushedExposed(w, p, i) && NullsFail(w, p, i)
    requires forall n :: 0 <= n < |p.joins| ==> KeysExposed(w, p, n)
    ensures Sound(w, p)
  {
    hide NamesApart, AllTyped, PushedExposed, KeysExposed, NullsFail, Readable;
    ApartIsReadable(w, p);
  }

  // ---------- What the discipline rules out ----------

  // A backend that applies every hint it is given.
  function Eager(lib: Library, env: Env, tables: map<string, Table>): World {
    var scan := (t: string, hint: Option<Expr>) =>
      if t in tables then
        Filter((row: Row) => Keeps(lib, env, IndexCols(tables[t].cols), row, hint), tables[t].rows)
      else [];
    World(lib, env, tables, scan)
  }

  lemma {:induction false} FilterLeaves<T>(rows: seq<T>, keep: T -> bool)
    ensures Leaves(rows, Filter(keep, rows), keep)
  {
    if rows != [] {
      FilterLeaves(rows[1..], keep);
      if keep(rows[0]) {
        assert ([rows[0]] + Filter(keep, rows[1..]))[1..] == Filter(keep, rows[1..]);
      }
    }
  }

  lemma {:induction false} LeavesAgree<T>(rows: seq<T>, part: seq<T>, p: T -> bool, q: T -> bool)
    requires Leaves(rows, part, p) && forall r :: p(r) == q(r)
    ensures Leaves(rows, part, q)
  {
    if rows != [] {
      if part != [] && part[0] == rows[0] && Leaves(rows[1..], part[1..], p) {
        LeavesAgree(rows[1..], part[1..], p, q);
      } else {
        LeavesAgree(rows[1..], part, p, q);
      }
    }
  }

  lemma EagerIsHonest(lib: Library, env: Env, tables: map<string, Table>)
    ensures Honest(Eager(lib, env, tables))
  {
    var w := Eager(lib, env, tables);
    forall t, hint | t in w.tables
      ensures Leaves(w.tables[t].rows, w.scan(t, hint), HintOn(w, w.tables[t].cols, hint))
    {
      var keep := (row: Row) => Keeps(lib, env, IndexCols(tables[t].cols), row, hint);
      FilterLeaves(w.tables[t].rows, keep);
      LeavesAgree(w.tables[t].rows, w.scan(t, hint), keep, HintOn(w, w.tables[t].cols, hint));
    }
  }

  lemma EagerScans(lib: Library, env: Env, tables: map<string, Table>, t: string, hint: Option<Expr>)
    requires t in tables
    ensures var w := Eager(lib, env, tables);
      w.scan(t, hint) == Filter(HintOn(w, tables[t].cols, hint), tables[t].rows)
  {
    var w := Eager(lib, env, tables);
    var keep := (row: Row) => Keeps(lib, env, IndexCols(tables[t].cols), row, hint);
    FilterAgree(keep, HintOn(w, tables[t].cols, hint), tables[t].rows);
  }
}
