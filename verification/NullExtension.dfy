// Pushing into the NULL-extended side of a LEFT JOIN: exactly when the planner's test for NULLs, which has no *Env,
// lets a row through that the query does not have.
module NullExtension {
  import opened Option
  import opened Fold
  import opened Tds
  import opened Exec
  import opened Rows
  import opened JoinExec
  import opened Planner
  import opened Pushdown
  import opened Names
  import opened NameClash

  // FROM t1 a1 LEFT JOIN t2 a2 ON ... WHERE ...
  function LeftPlan(s1: Source, s2: Source, on: Option<Expr>, where: Option<Expr>): Plan {
    Plan(s1, [Step(Left, s2, on)], where)
  }

  predicate OneLeft(p: Plan) { |p.joins| == 1 && p.joins[0].jt == Left && p.from.Named? && p.joins[0].source.Named? }

  // The hint of the second source on one of its rows.
  function RightHint(w: World, p: Plan): Row -> bool
    requires OneLeft(p)
  {
    var s := p.joins[0].source;
    HintOn(w, BareCols(w, s), Hint(w, p, 0, s.table, EffAlias(s)))
  }

  // A left row that WHERE keeps NULL-extended, and a partner of it that the hint lets a backend drop.
  ghost predicate Gains(w: World, p: Plan, l: Row, r: Row)
    requires OneLeft(p)
  {
    var s := p.joins[0].source;
    && RowTyped(l, KindsOf(w, p.from)) && RowTyped(r, KindsOf(w, s)) && OnKeep(w, p, 0)(l + r)
    && !RightHint(w, p)(r) && WhereKeep(w, p)(l + Nulls(|BareCols(w, s)|))
  }

  // ---------- No such rows ----------

  // One left row's share: what the scan leaves out is not good, and its NULL extension is no gain.
  lemma SameShare(good: Row -> bool, l: Row, a: seq<Row>, b: seq<Row>, rw: nat, keep: Row -> bool)
    requires Filter(good, Flat(Pair(l, keep), a)) == Filter(good, Flat(Pair(l, keep), b))
    requires forall r :: r in a ==> r in b
    requires forall r :: r in b && r !in a && keep(l + r) ==> !good(l + Nulls(rw))
    ensures Filter(good, Share(a, Left, rw, keep)(l)) == Filter(good, Share(b, Left, rw, keep)(l))
  {
    var x, y := Flat(Pair(l, keep), a), Flat(Pair(l, keep), b);
    if x == [] && y != [] {
      var r := PairMember(l, b, keep, y[0]);
      if r in a {
        FlatHas(Pair(l, keep), a, r, l + r);
        assert false;
      }
      var alone := [l + Nulls(rw)];
      assert Filter(good, alone) == Filter(good, alone[1..]);
      assert alone[1..] == [];
    } else if x != [] && y == [] {
      var r := PairMember(l, a, keep, x[0]);
      FlatHas(Pair(l, keep), b, r, l + r);
      assert false;
    }
  }

  // What the WHERE clause keeps of one left row's pairs does not depend on what the hint leaves out.
  lemma SamePairs(w: World, p: Plan, l: Row, a: seq<Row>, b: seq<Row>)
    requires Readable(w, p) && OneLeft(p)
    requires RowTyped(l, KindsOf(w, p.from)) && Typed(a, KindsOf(w, p.joins[0].source)) &&
      Typed(b, KindsOf(w, p.joins[0].source))
    requires Filter(RightHint(w, p), a) == Filter(RightHint(w, p), b)
    ensures var keep := OnKeep(w, p, 0);
      Filter(WhereKeep(w, p), Flat(Pair(l, keep), a)) == Filter(WhereKeep(w, p), Flat(Pair(l, keep), b))
  {
    hide Readable, WhereKeep, OnKeep, Hint, Segment, HintOn, Typed;
    var s := p.joins[0].source;
    var cols, hint, keep := BareCols(w, s), Hint(w, p, 0, s.table, EffAlias(s)), OnKeep(w, p, 0);
    assert SourceAt(p, 0) == s;
    Widths(w, p);
    WideOnes(w, p, a);
    WideOnes(w, p, b);
    SegmentReads(w, cols, hint, |l|, |l| + |cols|);
    SegmentOnTable(w, cols, hint, a);
    SegmentOnTable(w, cols, hint, b);
    FilterPairs(Good(w, p, 0), Segment(w, cols, hint, 0), l, a, keep);
    FilterPairs(Good(w, p, 0), Segment(w, cols, hint, 0), l, b, keep);
    PairsTyped(w, p, l, a);
    PairsTyped(w, p, l, b);
    WhereNeedsGood(w, p, 0, Flat(Pair(l, keep), a));
    WhereNeedsGood(w, p, 0, Flat(Pair(l, keep), b));
  }

  lemma Widths(w: World, p: Plan)
    requires Readable(w, p) && OneLeft(p)
    ensures |ColsBefore(w, p, 0)| == |KindsOf(w, p.from)|
    ensures var s := p.joins[0].source; |BareCols(w, s)| == |KindsOf(w, s)| && SourceTyped(w, s) && s.table in w.tables
  {
    hide PartsScoped, KeysScoped, Typed;
    WidthBefore(w, p, 0);
    assert SourceTyped(w, p.joins[0].source);
  }

  lemma WideOnes(w: World, p: Plan, rows: seq<Row>)
    requires OneLeft(p) && Typed(rows, KindsOf(w, p.joins[0].source))
    requires |BareCols(w, p.joins[0].source)| == |KindsOf(w, p.joins[0].source)|
    ensures Wide(rows, |BareCols(w, p.joins[0].source)|)
  {
  }

  lemma PairsTyped(w: World, p: Plan, l: Row, rs: seq<Row>)
    requires OneLeft(p) && RowTyped(l, KindsOf(w, p.from)) && Typed(rs, KindsOf(w, p.joins[0].source))
    ensures Typed(Flat(Pair(l, OnKeep(w, p, 0)), rs), KindsBefore(w, p, 1))
  {
    hide OnKeep;
    forall x | x in Flat(Pair(l, OnKeep(w, p, 0)), rs) ensures RowTyped(x, KindsBefore(w, p, 1)) {
      var r := PairMember(l, rs, OnKeep(w, p, 0), x);
      PairTyped(l, r, KindsOf(w, p.from), KindsOf(w, p.joins[0].source));
      assert KindsBefore(w, p, 1) == KindsBefore(w, p, 0) + KindsOf(w, p.joins[0].source);
    }
  }

  // The right scan: the fetched rows and the whole table give the same filtered join.
  lemma SameRight(w: World, p: Plan, ls: seq<Row>)
    requires Readable(w, p) && Honest(w) && PrintsApart(w.lib.text)
    requires OneLeft(p) && Typed(ls, KindsOf(w, p.from))
    requires forall l, r :: !Gains(w, p, l, r)
    ensures var s := p.joins[0].source;
      Filter(WhereKeep(w, p), StepRows(w, p, 0, ls, Fetch(w, p, 0, ls))) ==
      Filter(WhereKeep(w, p), StepRows(w, p, 0, ls, AllRows(w, s)))
  {
    hide Readable, WhereKeep, OnKeep, Hint, HintOn, Fetch, Typed, Share, Honest;
    var s := p.joins[0].source;
    var a, b := Reduced(w, p, 0, ls);
    var keep, rw, good := OnKeep(w, p, 0), |BareCols(w, s)|, WhereKeep(w, p);
    var f, g := Share(a, Left, rw, keep), Share(b, Left, rw, keep);
    Widths(w, p);
    AllTypedRows(w, p, a);
    AllTypedRows(w, p, b);
    var h := l => Filter(good, g(l));
    forall l <- ls ensures Filter(good, f(l)) == h(l) {
      TypedMember(ls, KindsOf(w, p.from), l);
      SamePairs(w, p, l, a, b);
      forall r | r in b && r !in a && keep(l + r) ensures !good(l + Nulls(rw)) {
        if RightHint(w, p)(r) { FilterHas(RightHint(w, p), b, r); }
        TypedMember(b, KindsOf(w, s), r);
        assert !Gains(w, p, l, r);
      }
      SameShare(good, l, a, b, rw, keep);
    }
    FilterFlat(good, f, h, ls);
    FilterFlat(good, g, h, ls);
    StepIsShares(w, p, ls, a);
    StepIsShares(w, p, ls, b);
  }

  lemma AllTypedRows(w: World, p: Plan, rows: seq<Row>)
    requires OneLeft(p) && SourceTyped(w, p.joins[0].source) && forall r :: r in rows ==>
      r in AllRows(w, p.joins[0].source)
    ensures Typed(rows, KindsOf(w, p.joins[0].source))
  {
    hide RowTyped;
  }

  lemma StepIsShares(w: World, p: Plan, ls: seq<Row>, rs: seq<Row>)
    requires OneLeft(p)
    ensures StepRows(w, p, 0, ls, rs) == Flat(Share(rs, Left, |BareCols(w, p.joins[0].source)|, OnKeep(w, p, 0)), ls)
  {
  }

  // The left scan: a hint on the left side is safe as it is.
  lemma SameLeft(w: World, p: Plan)
    requires Readable(w, p) && Honest(w) && OneLeft(p)
    ensures var rs := AllRows(w, p.joins[0].source);
      && Typed(FetchFrom(w, p), KindsOf(w, p.from))
      && Filter(WhereKeep(w, p), StepRows(w, p, 0, FetchFrom(w, p), rs)) ==
         Filter(WhereKeep(w, p), StepRows(w, p, 0, AllRows(w, p.from), rs))
  {
    hide WhereKeep, OnKeep, Hint, HintOn, FetchFrom, Typed, PartsScoped, KeysScoped, Segment, Honest;
    var s := p.joins[0].source;
    var a, b, rs := FetchFrom(w, p), AllRows(w, p.from), AllRows(w, s);
    FromSame(w, p);
    Widths(w, p);
    assert SourceTyped(w, p.from);
    StepTyped(w, p, 0, a, rs);
    StepTyped(w, p, 0, b, rs);
    WideLeft(w, p, a);
    WideLeft(w, p, b);
    SegmentReads(w, BareCols(w, p.from), Hint(w, p, -1, p.from.table, EffAlias(p.from)), 0, |ColsBefore(w, p, 0)|);
    assert Good(w, p, -1) == Segment(w, BareCols(w, p.from), Hint(w, p, -1, p.from.table, EffAlias(p.from)), 0);
    SameGoodLeft(Good(w, p, -1), a, b, Left, |ColsBefore(w, p, 0)|, rs, |BareCols(w, s)|, OnKeep(w, p, 0));
    WhereNeedsGood(w, p, -1, StepRows(w, p, 0, a, rs));
    WhereNeedsGood(w, p, -1, StepRows(w, p, 0, b, rs));
  }

  lemma WideLeft(w: World, p: Plan, rows: seq<Row>)
    requires Typed(rows, KindsOf(w, p.from)) && |ColsBefore(w, p, 0)| == |KindsOf(w, p.from)|
    ensures Wide(rows, |ColsBefore(w, p, 0)|)
  {
  }

  lemma NoGainKeeps(w: World, p: Plan)
    requires Readable(w, p) && Honest(w) && PrintsApart(w.lib.text)
    requires OneLeft(p)
    requires forall l, r :: !Gains(w, p, l, r)
    ensures KeepsAnswer(w, p)
  {
    hide Readable, WhereKeep, StepRows, Fetch, FetchFrom, Typed, Honest;
    SameLeft(w, p);
    SameRight(w, p, FetchFrom(w, p));
    OneStep(w, p, FetchFrom(w, p));
    OneStep(w, p, AllRows(w, p.from));
  }

  lemma OneStep(w: World, p: Plan, ls: seq<Row>)
    requires OneLeft(p)
    ensures Pushed(w, p, 0, ls) == StepRows(w, p, 0, ls, Fetch(w, p, 0, ls))
    ensures Whole(w, p, 0, ls) == StepRows(w, p, 0, ls, AllRows(w, p.joins[0].source))
  {
    hide StepRows, Fetch, AllRows;
  }

  // ---------- Two such rows ----------

  // The tables of base with one row each, behind a backend that applies its hints.
  function TwoRows(base: World, s1: Source, s2: Source, l: Row, r: Row): World
    requires s1.Named? && s2.Named?
  {
    var t1, t2 := TableOf(base, s1.table), TableOf(base, s2.table);
    Eager(base.lib, base.env, map[s1.table := t1.(rows := [l]), s2.table := t2.(rows := [r])])
  }

  // Same evaluator and same columns; the rows and the backend may differ.
  ghost predicate SameSchema(w: World, base: World, p: Plan) {
    && w.lib == base.lib && w.env == base.env
    && forall i :: -1 <= i < |p.joins| ==>
         var s := SourceAt(p, i);
         && s.Named? && s.table in w.tables && BareCols(w, s) == BareCols(base, s) && KindsOf(w, s) == KindsOf(base, s)
  }

  lemma {:induction false} SchemaCols(w: World, base: World, p: Plan, n: nat)
    requires SameSchema(w, base, p) && n <= |p.joins|
    ensures ColsBefore(w, p, n) == ColsBefore(base, p, n) && KindsBefore(w, p, n) == KindsBefore(base, p, n)
  {
    assert BareCols(w, SourceAt(p, n - 1)) == BareCols(base, SourceAt(p, n - 1));
    if n > 0 { SchemaCols(w, base, p, n - 1); }
  }

  // What the planner reads and decides depends on the schema alone.
  lemma SchemaDecides(w: World, base: World, p: Plan, l: Row, r: Row)
    requires SameSchema(w, base, p) && OneLeft(p)
    ensures Gains(w, p, l, r) <==> Gains(base, p, l, r)
  {
    SchemaCols(w, base, p, 0);
    SchemaCols(w, base, p, 1);
    assert SourceAt(p, -1) == p.from && SourceAt(p, 0) == p.joins[0].source;
    var s := p.joins[0].source;
    hide ColsBefore, KindsBefore, BareCols, KindsOf, IndexCols, Keeps;
    assert Hint(w, p, 0, s.table, EffAlias(s)) == Hint(base, p, 0, s.table, EffAlias(s));
    assert RightHint(w, p)(r) == RightHint(base, p)(r);
    assert OnKeep(w, p, 0)(l + r) == OnKeep(base, p, 0)(l + r);
  }

  lemma SchemaScopes(w: World, base: World, p: Plan, i: int)
    requires SameSchema(w, base, p) && -1 <= i < |p.joins|
    ensures PartsScoped(w, p, i) <==> PartsScoped(base, p, i)
  {
    hide SameColumn, IndexCols, LocalExpr, ExprCols, HintParts;
    SchemaCols(w, base, p, |p.joins|);
    if i >= 0 { SchemaCols(w, base, p, i); }
    var s := SourceAt(p, i);
    assert BareCols(w, s) == BareCols(base, s);
    assert HintParts(w, p, i, s.table, EffAlias(s)) == HintParts(base, p, i, s.table, EffAlias(s)) by {
      SameParts(w, base, p, i, s.table, EffAlias(s));
    }
  }

  lemma SameParts(w: World, base: World, p: Plan, i: int, table: string, alias: string)
    requires w.lib == base.lib && -1 <= i < |p.joins|
    ensures HintParts(w, p, i, table, alias) == HintParts(base, p, i, table, alias)
  {
  }

  lemma SchemaKeys(w: World, base: World, p: Plan, n: nat)
    requires SameSchema(w, base, p) && n < |p.joins|
    ensures KeysScoped(w, p, n) <==> KeysScoped(base, p, n)
  {
    hide JoinKeys, KeyIndex, KeysMeet, SameSchema;
    SchemaCols(w, base, p, n);
    forall lk, rk ensures KeysMeet(w, p, n, lk, rk) == KeysMeet(base, p, n, lk, rk) {
      SchemaMeet(w, base, p, n, lk, rk);
    }
    hide ColsBefore;
  }

  lemma SchemaMeet(w: World, base: World, p: Plan, n: nat, lk: string, rk: string)
    requires SameSchema(w, base, p) && n < |p.joins|
    ensures KeysMeet(w, p, n, lk, rk) == KeysMeet(base, p, n, lk, rk)
  {
    hide KeyIndex, ResolveCol, IndexCols, ShortName, ColsBefore, KindsBefore, BareCols, KindsOf;
    SchemaCols(w, base, p, n);
    SchemaCols(w, base, p, n + 1);
    var s := p.joins[n].source;
    assert SourceAt(p, n) == s;
    assert BareCols(w, s) == BareCols(base, s) && KindsOf(w, s) == KindsOf(base, s);
    hide SameSchema;
  }

  // The schema of base, which the planner reads right.
  ghost predicate SchemaOk(base: World, p: Plan)
    requires OneLeft(p)
  {
    && (forall i :: -1 <= i < 1 ==>
          var s := SourceAt(p, i);
          && s.Named? && s.table in base.tables && |KindsOf(base, s)| == |BareCols(base, s)| && PartsScoped(base, p, i))
    && KeysScoped(base, p, 0)
  }

  lemma TwoRowsFit(base: World, p: Plan, l: Row, r: Row)
    requires OneLeft(p) && p.from.table != p.joins[0].source.table && SchemaOk(base, p)
    requires RowTyped(l, KindsOf(base, p.from)) && RowTyped(r, KindsOf(base, p.joins[0].source))
    ensures var w := TwoRows(base, p.from, p.joins[0].source, l, r);
      && Honest(w) && SameSchema(w, base, p) && AllTyped(w, p)
      && AllRows(w, p.from) == [l] && AllRows(w, p.joins[0].source) == [r]
  {
    var s1, s2 := p.from, p.joins[0].source;
    var w := TwoRows(base, s1, s2, l, r);
    var t1, t2 := TableOf(base, s1.table), TableOf(base, s2.table);
    EagerIsHonest(base.lib, base.env, map[s1.table := t1.(rows := [l]), s2.table := t2.(rows := [r])]);
    hide Honest, RowTyped, PartsScoped, KeysScoped;
    assert SourceAt(p, -1) == s1 && SourceAt(p, 0) == s2;
    assert TableOf(w, s1.table) == t1.(rows := [l]) && TableOf(w, s2.table) == t2.(rows := [r]);
  }

  lemma SchemaReads(w: World, base: World, p: Plan)
    requires OneLeft(p) && SchemaOk(base, p) && SameSchema(w, base, p) && AllTyped(w, p)
    ensures Readable(w, p)
  {
    hide PartsScoped, KeysScoped, SourceTyped;
    SchemaScopes(w, base, p, -1);
    SchemaScopes(w, base, p, 0);
    SchemaKeys(w, base, p, 0);
    TypedAt(w, p, -1);
    TypedAt(w, p, 0);
    assert SourceAt(p, -1) == p.from && SourceAt(p, 0) == p.joins[0].source;
  }

  // The eager scans: the left row passes its hint, the right row does not pass the other.
  lemma EagerFetches(base: World, p: Plan, l: Row, r: Row)
    requires OneLeft(p) && p.from.table != p.joins[0].source.table && SchemaOk(base, p) && Gains(base, p, l, r)
    ensures var w := TwoRows(base, p.from, p.joins[0].source, l, r);
      FetchFrom(w, p) == [l] && Fetch(w, p, 0, [l]) == []
  {
    var s1, s2 := p.from, p.joins[0].source;
    var w := TwoRows(base, s1, s2, l, r);
    TwoRowsFit(base, p, l, r);
    SchemaReads(w, base, p);
    SchemaDecides(w, base, p, l, r);
    var h1, full := Hint(w, p, -1, s1.table, EffAlias(s1)), FullHint(w, p, 0, [l]);
    LeftPasses(w, p, l, r);
    RightFails(w, p, l, r);
    hide Hint, FullHint, Readable, Keeps, IndexCols, Honest, SameSchema, AllTyped, SchemaOk, Gains;
    EagerOne(base, s1, s2, l, r, h1, full);
  }

  lemma EagerOne(base: World, s1: Source, s2: Source, l: Row, r: Row, h1: Option<Expr>, h2: Option<Expr>)
    requires s1.Named? && s2.Named? && s1.table != s2.table
    ensures var w := TwoRows(base, s1, s2, l, r);
      && (HintOn(w, TableOf(base, s1.table).cols, h1)(l) ==> w.scan(s1.table, h1) == [l])
      && (!HintOn(w, TableOf(base, s2.table).cols, h2)(r) ==> w.scan(s2.table, h2) == [])
  {
    hide Keeps, IndexCols, Eager, HintOn;
    var t1, t2 := TableOf(base, s1.table), TableOf(base, s2.table);
    var tables := map[s1.table := t1.(rows := [l]), s2.table := t2.(rows := [r])];
    EagerScans(base.lib, base.env, tables, s1.table, h1);
    EagerScans(base.lib, base.env, tables, s2.table, h2);
    assert [l][1..] == [] && [r][1..] == [];
  }

  lemma LeftPasses(w: World, p: Plan, l: Row, r: Row)
    requires OneLeft(p) && Readable(w, p) && Gains(w, p, l, r)
    ensures HintOn(w, BareCols(w, p.from), Hint(w, p, -1, p.from.table, EffAlias(p.from)))(l)
  {
    hide Hint, Keeps, IndexCols, KeysScoped, PartsScoped;
    var s := p.joins[0].source;
    var x := l + Nulls(|BareCols(w, s)|);
    Widths(w, p);
    assert SourceAt(p, -1) == p.from && |l| == |BareCols(w, p.from)|;
    assert PartsScoped(w, p, -1);
    WhereImpliesHint(w, p, -1, x);
    assert x[0..|l|] == l;
  }

  lemma RightFails(w: World, p: Plan, l: Row, r: Row)
    requires OneLeft(p) && Readable(w, p) && Gains(w, p, l, r)
    ensures var s := p.joins[0].source; !HintOn(w, BareCols(w, s), FullHint(w, p, 0, [l]))(r)
    ensures !WhereKeep(w, p)(l + r)
  {
    hide Readable, WhereKeep, OnKeep, Hint, SemiJoin, HintOn, BareCols, KindsOf;
    var s := p.joins[0].source;
    var semi := SemiJoin(w, p, 0, [l]);
    if semi.Some? {
      var list := InPredicate(semi.value.0, semi.value.1);
      AndExprDecides(w, BareCols(w, s), Hint(w, p, 0, s.table, EffAlias(s)), list, r);
    }
    if WhereKeep(w, p)(l + r) { PairPasses(w, p, l, r); }
  }

  lemma PairPasses(w: World, p: Plan, l: Row, r: Row)
    requires OneLeft(p) && Readable(w, p) && RowTyped(l, KindsOf(w, p.from)) &&
      RowTyped(r, KindsOf(w, p.joins[0].source))
    requires WhereKeep(w, p)(l + r)
    ensures RightHint(w, p)(r)
  {
    hide WhereKeep, KeysScoped, PartsScoped, Hint, HintOn, Segment;
    var s := p.joins[0].source;
    Widths(w, p);
    assert SourceAt(p, 0) == s && PartsScoped(w, p, 0);
    WhereImpliesHint(w, p, 0, l + r);
    assert (l + r)[|l|..|l| + |r|] == r;
    SegmentIsHint(w, BareCols(w, s), Hint(w, p, 0, s.table, EffAlias(s)), |l|, l + r);
  }

  lemma SegmentIsHint(w: World, cols: seq<string>, hint: Option<Expr>, off: nat, row: Row)
    requires Segment(w, cols, hint, off)(row)
    ensures off + |cols| <= |row| && HintOn(w, cols, hint)(row[off..off + |cols|])
  {
  }

  // The pushed query answers the NULL-extended left row; the query as written answers nothing.
  lemma GainShows(base: World, p: Plan, l: Row, r: Row)
    requires OneLeft(p) && p.from.table != p.joins[0].source.table && SchemaOk(base, p) && Gains(base, p, l, r)
    ensures var w := TwoRows(base, p.from, p.joins[0].source, l, r);
      && Filter(WhereKeep(w, p), Pushed(w, p, 0, FetchFrom(w, p))) == [l + Nulls(|BareCols(base, p.joins[0].source)|)]
      && Filter(WhereKeep(w, p), Whole(w, p, 0, AllRows(w, p.from))) == []
  {
    var s := p.joins[0].source;
    var w := TwoRows(base, p.from, s, l, r);
    hide TwoRows, WhereKeep, OnKeep, SchemaOk, Readable, SameSchema, AllTyped, Honest, FetchFrom, Fetch, FullHint,
      Hint, HintOn, AllRows, BareCols, KindsOf;
    TwoRowsFit(base, p, l, r);
    SchemaReads(w, base, p);
    SchemaDecides(w, base, p, l, r);
    EagerFetches(base, p, l, r);
    RightFails(w, p, l, r);
    assert BareCols(w, s) == BareCols(base, s) by { SchemaAt(w, base, p, 0); }
    OneStep(w, p, [l]);
    var keep, rw := OnKeep(w, p, 0), |BareCols(w, s)|;
    StepIsShares(w, p, [l], []);
    StepIsShares(w, p, [l], [r]);
    assert [l][1..] == [] && [r][1..] == [];
    assert Share([], Left, rw, keep)(l) == [l + Nulls(rw)] && Share([r], Left, rw, keep)(l) == [l + r] by {
      assert Flat(Pair(l, keep), [r]) == Pair(l, keep)(r) + Flat(Pair(l, keep), [r][1..]);
    }
    var x := l + Nulls(rw);
    assert Flat(Share([], Left, rw, keep), [l]) == [x] && Flat(Share([r], Left, rw, keep), [l]) == [l + r];
    assert [x][1..] == [] && [l + r][1..] == [];
  }

  lemma SchemaAt(w: World, base: World, p: Plan, i: int)
    requires SameSchema(w, base, p) && -1 <= i < |p.joins|
    ensures BareCols(w, SourceAt(p, i)) == BareCols(base, SourceAt(p, i))
  {
  }

  // ---------- Exactly ----------

  ghost predicate LeftSafe(w: World, p: Plan) { Honest(w) && AllTyped(w, p) ==> KeepsAnswer(w, p) }

  // Over two tables whose columns the planner reads right, the pushdown keeps the answer of a LEFT JOIN, whatever the
  // tables hold and an honest backend returns, exactly when no left row that WHERE keeps NULL-extended has a partner
  // on which the right side's hint is not TRUE.
  lemma LeftJoinExactly(base: World, p: Plan)
    requires OneLeft(p) && p.from.table != p.joins[0].source.table && SchemaOk(base, p) && PrintsApart(base.lib.text)
    ensures (forall w: World :: SameSchema(w, base, p) ==> LeftSafe(w, p)) <==> !exists l, r :: Gains(base, p, l, r)
  {
    hide SchemaOk, SameSchema, Honest, AllTyped, KeepsAnswer, Gains, TwoRows, Readable;
    if l, r :| Gains(base, p, l, r) {
      var w := TwoRows(base, p.from, p.joins[0].source, l, r);
      GainFits(base, p, l, r);
      GainShows(base, p, l, r);
      NotKept(w, p);
    } else {
      forall w: World | SameSchema(w, base, p) ensures LeftSafe(w, p) {
        if Honest(w) && AllTyped(w, p) {
          SchemaReads(w, base, p);
          forall l, r ensures !Gains(w, p, l, r) { SchemaDecides(w, base, p, l, r); }
          NoGainKeeps(w, p) by { assert w.lib == base.lib by { SchemaLib(w, base, p); } }
        }
      }
    }
  }

  lemma SchemaLib(w: World, base: World, p: Plan)
    requires SameSchema(w, base, p)
    ensures w.lib == base.lib
  {
  }

  lemma GainFits(base: World, p: Plan, l: Row, r: Row)
    requires OneLeft(p) && p.from.table != p.joins[0].source.table && SchemaOk(base, p) && Gains(base, p, l, r)
    ensures var w := TwoRows(base, p.from, p.joins[0].source, l, r);
      Honest(w) && SameSchema(w, base, p) && AllTyped(w, p)
  {
    hide Honest, SameSchema, AllTyped, SchemaOk, TwoRows;
    TwoRowsFit(base, p, l, r);
  }

  lemma NotKept(w: World, p: Plan)
    requires Filter(WhereKeep(w, p), Pushed(w, p, 0, FetchFrom(w, p))) !=
      Filter(WhereKeep(w, p), Whole(w, p, 0, AllRows(w, p.from)))
    ensures !KeepsAnswer(w, p)
  {
  }

  // ---------- A WHERE on the right side alone ----------

  // Every conjunct is attributed to the right source and reads it.
  ghost predicate RightOnly(w: World, p: Plan)
    requires OneLeft(p)
  {
    var s := p.joins[0].source;
    forall c :: c in Conjuncts(p.where) ==>
      && Attributed(EffAlias(s), s.table)(c)
      && PartScoped(c, IndexCols(ColsBefore(w, p, 1)), IndexCols(BareCols(w, s)),
                    |ColsBefore(w, p, 0)|, |BareCols(w, s)|)
  }

  // Then it says of a NULL-extended row what it says of the row of NULLs.
  lemma RightWhere(w: World, p: Plan, l: Row)
    requires OneLeft(p) && RightOnly(w, p) && |l| == |ColsBefore(w, p, 0)|
    ensures var cols := BareCols(w, p.joins[0].source);
      WhereKeep(w, p)(l + Nulls(|cols|)) <==> HintOn(w, cols, p.where)(Nulls(|cols|))
  {
    hide PartScoped, Conjuncts, IndexCols, Keeps, EvalTruth, ColsBefore;
    var cols := BareCols(w, p.joins[0].source);
    var all, own, x := IndexCols(ColsBefore(w, p, 1)), IndexCols(cols), l + Nulls(|cols|);
    assert x[|l|..|l| + |cols|] == Nulls(|cols|);
    forall c | c in Conjuncts(p.where)
      ensures EvalTruth(w.lib, w.env, all, x, c) == EvalTruth(w.lib, w.env, own, Nulls(|cols|), c)
    {
      PartReadsSegment(w.lib, w.env, all, own, |l|, |cols|, x, c);
    }
    ConjunctsDecide(w.lib, Site(w.env, all, x), p.where);
    ConjunctsDecide(w.lib, Site(w.env, own, Nulls(|cols|)), p.where);
  }

  // For FROM t1 a1 LEFT JOIN t2 a2 ON ... with a WHERE on a2 alone: the answer is kept exactly when the WHERE is not
  // TRUE on the row of NULLs, in the *Env of the query, or no row of a2 that ON can join fails what is pushed.
  lemma RightWhereExactly(base: World, p: Plan)
    requires OneLeft(p) && p.from.table != p.joins[0].source.table && SchemaOk(base, p) && PrintsApart(base.lib.text)
    requires RightOnly(base, p)
    ensures var s := p.joins[0].source;
      var nulls := Nulls(|BareCols(base, s)|);
      (forall w: World :: SameSchema(w, base, p) ==> LeftSafe(w, p)) <==>
      || !HintOn(base, BareCols(base, s), p.where)(nulls)
      || forall l, r ::
           RowTyped(l, KindsOf(base, p.from)) && RowTyped(r, KindsOf(base, s)) && OnKeep(base, p, 0)(l + r) ==>
             RightHint(base, p)(r)
  {
    hide SchemaOk, SameSchema, LeftSafe, RightOnly, HintOn, Hint, WhereKeep, OnKeep, RightHint;
    LeftJoinExactly(base, p);
    var s := p.joins[0].source;
    var cols := BareCols(base, s);
    SchemaWidths(base, p);
    forall l, r
      ensures Gains(base, p, l, r) <==>
        && RowTyped(l, KindsOf(base, p.from)) && RowTyped(r, KindsOf(base, s)) && OnKeep(base, p, 0)(l + r)
        && !RightHint(base, p)(r) && HintOn(base, cols, p.where)(Nulls(|cols|))
    {
      if RowTyped(l, KindsOf(base, p.from)) { RightWhere(base, p, l); }
    }
  }

  lemma SchemaWidths(base: World, p: Plan)
    requires OneLeft(p) && SchemaOk(base, p)
    ensures |ColsBefore(base, p, 0)| == |KindsOf(base, p.from)|
  {
    hide PartsScoped, KeysScoped;
    assert SourceAt(p, -1) == p.from;
  }

  // ---------- A query that gains a row ----------

  // WHERE ISNULL(e.name, DB_NAME()) = 'x' : without *Env DB_NAME is NULL, so the planner takes the
  // conjunct for one that rejects NULLs; with it the conjunct is TRUE of a NULL-extended row.
  const NAME_OR_DB: Expr := Pred(Predicate("",
    Some(Func("ISNULL", [Col("e.name"), Func("DB_NAME", [], false)], false)),
    Eq, Constant(Str("x")), None, None, false))

  // ISNULL as it answers here.
  ghost predicate IsNullWorks(lib: Library) {
    && lib.func("ISNULL", [Null, Null]) == Null && lib.func("ISNULL", [Null, Str("x")]) == Str("x")
    && lib.func("ISNULL", [Str("y"), Str("x")]) == Str("y")
  }

  lemma EnvScalarFoolsRejectsNulls(lib: Library, env: Env, idx: Index, n: nat)
    requires env.Env? && env.scalar("DB_NAME", []) == Str("x") && IsNullWorks(lib)
    ensures RejectsNulls(lib)(NAME_OR_DB)
    ensures EvalTruth(lib, env, idx, Nulls(n), NAME_OR_DB) == True
  {
    hide EvalTruth, CmpTruth;
    var bare: Index := map x | x in ExprCols(NAME_OR_DB) :: 0;
    assert Lookup(bare, [Null], "e.name") == Null && Lookup(idx, Nulls(n), "e.name") == Null;
    NotEnvScalar();
    NameOrDbReads(lib, Nil, bare, [Null]);
    NameOrDbReads(lib, env, idx, Nulls(n));
    XIsX(lib);
  }

  lemma XIsX(lib: Library)
    ensures CmpTruth(lib, Eq, Str("x"), Str("x"), false) == True && CmpTruth(lib, Eq, Null, Str("x"), false) == Unknown
    ensures CmpTruth(lib, Eq, Str("y"), Str("x"), false) == False
  {
    CompareTextIsEquality(Key(Pad("x")), Key(Pad("x")));
    CompareTextIsEquality(Key(Pad("y")), Key(Pad("x")));
    assert Key(Pad("y"))[0] == 'y' && Key(Pad("x"))[0] == 'x';
  }

  lemma NameOrDbReads(lib: Library, env: Env, idx: Index, row: Row)
    ensures EvalTruth(lib, env, idx, row, NAME_OR_DB) ==
      CmpTruth(lib, Eq, lib.func("ISNULL", [Lookup(idx, row, "e.name"), EvalFunc(lib, env, "DB_NAME", [])]),
        Str("x"), false)
  {
    hide Lookup, CmpTruth, IsEnvScalar;
    var db := Func("DB_NAME", [], false);
    var args := [Col("e.name"), db];
    var vals := [Lookup(idx, row, "e.name"), EvalFunc(lib, env, "DB_NAME", [])];
    assert args[1..] == [db] && [db][1..] == [];
    assert EvalValue(lib, env, idx, row, db) == EvalFunc(lib, env, "DB_NAME", []);
    assert EvalValues(lib, env, idx, row, [db]) == [EvalFunc(lib, env, "DB_NAME", [])];
    assert EvalValues(lib, env, idx, row, args) == vals;
    assert !IsEnvScalar("ISNULL") by { NotEnvScalar(); }
    assert EvalValue(lib, env, idx, row, NAME_OR_DB.pred.leftExpr.value) == lib.func("ISNULL", vals);
    assert EvalTruth(lib, env, idx, row, NAME_OR_DB) == EvalPred(lib, env, idx, row, NAME_OR_DB.pred);
  }

  lemma NotEnvScalar()
    ensures !IsEnvScalar("ISNULL") && IsEnvScalar("DB_NAME")
  {
    assert "ISNULL"[1] == 'S';
  }

  // FROM d LEFT JOIN e ON e.name = 'y' WHERE ISNULL(e.name, DB_NAME()) = 'x', over d(id) and e(name).
  const NAME_IS_Y: Expr := Pred(Predicate("e.name", None, Eq, Constant(Str("y")), None, None, false))
  const NAME_JOIN: Plan := LeftPlan(Named("d", ""), Named("e", ""), Some(NAME_IS_Y), Some(NAME_OR_DB))

  function NameBase(lib: Library, env: Env): World {
    Eager(lib, env, map["d" := Table(["id"], [IntKind], []), "e" := Table(["name"], [StrKind], [])])
  }

  lemma NameHint(w: World)
    requires RejectsNulls(w.lib)(NAME_OR_DB)
    ensures Hint(w, NAME_JOIN, 0, "e", "e") == Some(NAME_OR_DB) && HintParts(w, NAME_JOIN, -1, "d", "d") == []
    ensures HintParts(w, NAME_JOIN, 0, "e", "e") == [NAME_OR_DB]
  {
    hide RejectsNulls, QualifiedBy;
    var c := NAME_OR_DB;
    AttributionExactly("e", "name", "e", "e");
    AttributionExactly("e", "name", "d", "d");
    assert "e" + "." + "name" == "e.name";
    assert ExprCols(c) == ["e.name"] by { NameCols(); }
    assert Conjuncts(NAME_JOIN.where) == [c];
    assert QualifiedBy(ExprCols(c)[0], "e", "e") && !QualifiedBy(ExprCols(c)[0], "d", "d");
    assert Attributed("e", "e")(c) && !Attributed("d", "d")(c);
    assert [c][1..] == [];
    assert Filter(Attributed("e", "e"), [c]) == [c] && Filter(Attributed("d", "d"), [c]) == [];
    assert Filter(RejectsNulls(w.lib), [c]) == [c];
    assert SuppliesNulls(NAME_JOIN.joins, 0);
    HintIsItsParts(w, NAME_JOIN, 0, "e", "e");
  }

  lemma NameCols()
    ensures ExprCols(NAME_OR_DB) == ["e.name"] && LocalExpr(NAME_OR_DB, false)
  {
    var db := Func("DB_NAME", [], false);
    var args := [Col("e.name"), db];
    assert args[1..] == [db] && [db][1..] == [];
    assert ValuesCols(args) == ["e.name"];
    assert LocalValues([db], false) && LocalValues(args, false);
  }

  lemma NameColumns(w: World)
    requires TableOf(w, "d").cols == ["id"] && TableOf(w, "e").cols == ["name"]
    ensures ColsBefore(w, NAME_JOIN, 0) == ["d.id"] && ColsBefore(w, NAME_JOIN, 1) == ["d.id", "e.name"]
    ensures ResolveCol(IndexCols(["name"]), "e.name") == Some(0) &&
      ResolveCol(IndexCols(["d.id", "e.name"]), "e.name") == Some(1)
  {
    assert "d" + "." + "id" == "d.id" && "e" + "." + "name" == "e.name";
    assert ColsBefore(w, NAME_JOIN, 1) == ColsBefore(w, NAME_JOIN, 0) + SourceCols(w, Named("e", ""));
    ScanResolves(["name"], "e", 0);
    assert ["d.id", "e.name"][1][1] == '.';
    JoinedResolves(["d.id", "e.name"], 1);
  }

  lemma NameIsOk(lib: Library, env: Env)
    requires RejectsNulls(lib)(NAME_OR_DB)
    ensures SchemaOk(NameBase(lib, env), NAME_JOIN)
  {
    hide RejectsNulls, IndexCols, HintParts, ColsBefore, PartsScoped, KeysScoped;
    var w := NameBase(lib, env);
    NameParts(w);
    NoKeys(w);
  }

  lemma NoKeys(w: World)
    ensures OneLeft(NAME_JOIN) && KeysScoped(w, NAME_JOIN, 0)
    ensures SourceAt(NAME_JOIN, -1) == Named("d", "") && SourceAt(NAME_JOIN, 0) == Named("e", "")
  {
  }

  lemma NameParts(w: World)
    requires RejectsNulls(w.lib)(NAME_OR_DB) && TableOf(w, "d").cols == ["id"] && TableOf(w, "e").cols == ["name"]
    ensures PartsScoped(w, NAME_JOIN, -1) && PartsScoped(w, NAME_JOIN, 0)
  {
    hide RejectsNulls, IndexCols, HintParts, ColsBefore, PartScoped;
    NameHint(w);
    NamePart(w);
    var p := NAME_JOIN;
    assert SourceAt(p, -1) == Named("d", "") && SourceAt(p, 0) == Named("e", "");
  }

  lemma NamePart(w: World)
    requires TableOf(w, "d").cols == ["id"] && TableOf(w, "e").cols == ["name"]
    ensures |ColsBefore(w, NAME_JOIN, 0)| == 1
    ensures PartScoped(NAME_OR_DB, IndexCols(ColsBefore(w, NAME_JOIN, 1)), IndexCols(["name"]), 1, 1)
  {
    hide IndexCols, ColsBefore, ResolveCol, LocalExpr, ExprCols;
    NameCols();
    NameColumns(w);
  }

  // With e(name) holding 'y' only, d's row comes back NULL-extended although it has a partner.
  lemma NullTestGainsRow(lib: Library, env: Env)
    requires env.Env? && env.scalar("DB_NAME", []) == Str("x") && IsNullWorks(lib)
    ensures var w := TwoRows(NameBase(lib, env), Named("d", ""), Named("e", ""), [Int(1)], [Str("y")]);
      && Honest(w)
      && Filter(WhereKeep(w, NAME_JOIN), Pushed(w, NAME_JOIN, 0, FetchFrom(w, NAME_JOIN))) == [[Int(1), Null]]
      && Filter(WhereKeep(w, NAME_JOIN), Whole(w, NAME_JOIN, 0, AllRows(w, NAME_JOIN.from))) == []
  {
    hide RejectsNulls, Honest, TwoRows, SchemaOk, WhereKeep, Pushed, Whole, FetchFrom;
    var base, l, r := NameBase(lib, env), [Int(1)], [Str("y")];
    EnvScalarFoolsRejectsNulls(lib, env, map[], 0);
    NameIsOk(lib, env);
    NameGains(lib, env);
    GainFits(base, NAME_JOIN, l, r);
    GainShows(base, NAME_JOIN, l, r);
    assert l + Nulls(1) == [Int(1), Null];
  }

  lemma NameGains(lib: Library, env: Env)
    requires env.Env? && env.scalar("DB_NAME", []) == Str("x") && IsNullWorks(lib) && RejectsNulls(lib)(NAME_OR_DB)
    ensures Gains(NameBase(lib, env), NAME_JOIN, [Int(1)], [Str("y")])
  {
    hide RejectsNulls, RightHint, WhereKeep, OnKeep, IsNullWorks;
    var w := NameBase(lib, env);
    NameJoins(w);
    NameDrops(w);
    NameKeeps(w);
  }

  lemma NameJoins(w: World)
    requires TableOf(w, "d").cols == ["id"] && TableOf(w, "e").cols == ["name"]
    ensures OnKeep(w, NAME_JOIN, 0)([Int(1)] + [Str("y")])
  {
    hide IndexCols, ColsBefore, EvalTruth, ResolveCol;
    NameColumns(w);
    var x := [Int(1)] + [Str("y")];
    assert x == [Int(1), Str("y")];
    YIsY(w.lib, w.env, IndexCols(["d.id", "e.name"]), x);
    OnIsTrue(w, NAME_JOIN, x, NAME_IS_Y);
  }

  lemma OnIsTrue(w: World, p: Plan, x: Row, on: Expr)
    requires OneLeft(p) && p.joins[0].on == Some(on)
    requires EvalTruth(w.lib, w.env, IndexCols(ColsBefore(w, p, 1)), x, on) == True
    ensures OnKeep(w, p, 0)(x)
  {
  }

  lemma YIsY(lib: Library, env: Env, idx: Index, row: Row)
    requires ResolveCol(idx, "e.name") == Some(1) && row == [Int(1), Str("y")]
    ensures EvalTruth(lib, env, idx, row, NAME_IS_Y) == True
  {
    hide ResolveCol;
    assert EvalTruth(lib, env, idx, row, NAME_IS_Y) == EvalPred(lib, env, idx, row, NAME_IS_Y.pred);
    assert EvalOperand(lib, env, idx, row, NAME_IS_Y.pred.value) == Str("y");
    CompareTextIsEquality(Key(Pad("y")), Key(Pad("y")));
  }

  lemma NameDrops(w: World)
    requires w.env.Env? && w.env.scalar("DB_NAME", []) == Str("x") && IsNullWorks(w.lib) &&
      RejectsNulls(w.lib)(NAME_OR_DB)
    requires TableOf(w, "d").cols == ["id"] && TableOf(w, "e").cols == ["name"]
    ensures !RightHint(w, NAME_JOIN)([Str("y")])
  {
    hide RejectsNulls, IndexCols, Hint, EvalTruth, CmpTruth, ColsBefore;
    NameHint(w);
    NameColumns(w);
    NotEnvScalar();
    XIsX(w.lib);
    NameOrDbReads(w.lib, w.env, IndexCols(["name"]), [Str("y")]);
    assert Lookup(IndexCols(["name"]), [Str("y")], "e.name") == Str("y");
  }

  lemma NameKeeps(w: World)
    requires w.env.Env? && w.env.scalar("DB_NAME", []) == Str("x") && IsNullWorks(w.lib)
    requires TableOf(w, "d").cols == ["id"] && TableOf(w, "e").cols == ["name"]
    ensures WhereKeep(w, NAME_JOIN)([Int(1)] + Nulls(1))
  {
    hide IndexCols, EvalTruth, CmpTruth, ColsBefore;
    var x := [Int(1)] + Nulls(1);
    NameColumns(w);
    NotEnvScalar();
    XIsX(w.lib);
    NameOrDbReads(w.lib, w.env, IndexCols(["d.id", "e.name"]), x);
    assert Lookup(IndexCols(["d.id", "e.name"]), x, "e.name") == Null;
  }
}
