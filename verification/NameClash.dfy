// Two sources whose names clash: exactly when the planner pushes a condition to the wrong scan.
module NameClash {
  import opened Option
  import opened Fold
  import opened Tds
  import opened Exec
  import opened Rows
  import opened JoinExec
  import opened Planner
  import opened Pushdown
  import opened Names

  // FROM t1 a1 CROSS JOIN t2 a2 WHERE ...
  function CrossPlan(s1: Source, s2: Source, where: Option<Expr>): Plan { Plan(s1, [Step(Cross, s2, None)], where) }

  ghost predicate KeepsAnswer(w: World, p: Plan) {
    Filter(WhereKeep(w, p), Pushed(w, p, 0, FetchFrom(w, p))) ==
      Filter(WhereKeep(w, p), Whole(w, p, 0, AllRows(w, p.from)))
  }

  // Tables with plain, distinct column names and values of their columns' kinds, behind an honest backend.
  ghost predicate TableOk(w: World, s: Source) {
    && SourceTyped(w, s)
    && (forall k :: 0 <= k < |BareCols(w, s)| ==> DotFree(BareCols(w, s)[k]))
    && (forall k, l :: 0 <= k < l < |BareCols(w, s)| ==> BareCols(w, s)[k] != BareCols(w, s)[l])
  }

  // A condition over the columns as the query names them, without subqueries.
  ghost predicate WhereOk(w: World, p: Plan) {
    forall c :: c in Conjuncts(p.where) ==>
      LocalExpr(c, false) && forall x :: x in ExprCols(c) ==> Exposed(w, p, |p.joins| - 1, x)
  }

  ghost predicate PlainNames(s1: Source, s2: Source) {
    && s1.Named? && s2.Named? && DotFree(s1.table) && DotFree(s2.table)
    && DotFree(EffAlias(s1)) && DotFree(EffAlias(s2)) && EffAlias(s1) != EffAlias(s2)
  }

  // The pushdown keeps the answer of this query, where it means anything.
  ghost predicate Safe(w: World, p: Plan) {
    Honest(w) && AllOk(w, p) && WhereOk(w, p) ==> KeepsAnswer(w, p)
  }

  ghost predicate AllOk(w: World, p: Plan) { forall i :: -1 <= i < |p.joins| ==> TableOk(w, SourceAt(p, i)) }

  // ---------- No clash ----------

  lemma ApartIsSafe(w: World, s1: Source, s2: Source, where: Option<Expr>)
    requires PlainNames(s1, s2) && s1.table != EffAlias(s2) && s2.table != EffAlias(s1)
    requires PrintsApart(w.lib.text)
    ensures Safe(w, CrossPlan(s1, s2, where))
  {
    hide Exposed, LocalExpr, ExprCols, Conjuncts, Honest, SourceTyped, KeepsAnswer;
    var p := CrossPlan(s1, s2, where);
    if Honest(w) && AllOk(w, p) && WhereOk(w, p) {
      assert SourceAt(p, -1) == s1 && SourceAt(p, 0) == s2;
      assert AllTyped(w, p);
      assert NamesApart(w, p);
      assert !SuppliesNulls(p.joins, -1) && !SuppliesNulls(p.joins, 0);
      ApartIsSound(w, p);
      PushdownKeepsAnswer(w, p);
      assert KeepsAnswer(w, p) by { Unfolded(w, p); }
    }
  }

  lemma Unfolded(w: World, p: Plan)
    requires Filter(WhereKeep(w, p), Pushed(w, p, 0, FetchFrom(w, p))) ==
      Filter(WhereKeep(w, p), Whole(w, p, 0, AllRows(w, p.from)))
    ensures KeepsAnswer(w, p)
  {
  }

  // ---------- A clash ----------

  // Both tables hold id with rows 1 and 2; the condition picks one row of the owner.
  const EMP: Table := Table(["id"], [IntKind], [[Int(1)], [Int(2)]])

  function IdIs(owner: string, v: int): Expr {
    Pred(Predicate(owner + "." + "id", None, Eq, Constant(Int(v)), None, None, false))
  }

  function Clash(lib: Library, env: Env, s1: Source, s2: Source): World
    requires s1.Named? && s2.Named?
  {
    Eager(lib, env, map[s1.table := EMP, s2.table := EMP])
  }

  lemma IdReads(lib: Library, env: Env, idx: Index, row: Row, owner: string, v: int, k: nat)
    requires ResolveCol(idx, owner + "." + "id") == Some(k) && k < |row| && row[k].Int?
    ensures Keeps(lib, env, idx, row, Some(IdIs(owner, v))) <==> row[k] == Int(v)
  {
    hide ResolveCol;
    var c := IdIs(owner, v);
    assert owner + "." + "id" != "";
    assert Lookup(idx, row, owner + "." + "id") == row[k];
    assert EvalPred(lib, env, idx, row, c.pred) == CmpTruth(lib, Eq, row[k], Int(v), false);
  }

  lemma IdInScan(owner: string)
    ensures ResolveCol(IndexCols(["id"]), owner + "." + "id") == Some(0)
  {
    ScanResolves(["id"], owner, 0);
  }

  lemma IdInJoin(e1: string, e2: string, k: nat)
    requires DotFree(e1) && DotFree(e2) && e1 != e2 && k < 2
    ensures var cols := [e1 + "." + "id", e2 + "." + "id"];
      ResolveCol(IndexCols(cols), if k == 0 then e1 + "." + "id" else e2 + "." + "id") == Some(k)
  {
    var cols := [e1 + "." + "id", e2 + "." + "id"];
    if cols[0] == cols[1] { QualifierSplits(e1, "id", e2, "id"); }
    assert cols[k][if k == 0 then |e1| else |e2|] == '.';
    JoinedResolves(cols, k);
  }

  lemma ClashShape(w: World, s1: Source, s2: Source, where: Option<Expr>)
    requires PlainNames(s1, s2) && w.tables == map[s1.table := EMP, s2.table := EMP]
    ensures var p := CrossPlan(s1, s2, where);
      && BareCols(w, s1) == ["id"] && BareCols(w, s2) == ["id"] && AllRows(w, s1) == EMP.rows &&
        AllRows(w, s2) == EMP.rows
      && ColsBefore(w, p, 0) == [EffAlias(s1) + "." + "id"]
      && ColsBefore(w, p, 1) == [EffAlias(s1) + "." + "id", EffAlias(s2) + "." + "id"]
  {
    var p := CrossPlan(s1, s2, where);
    assert TableOf(w, s1.table) == EMP && TableOf(w, s2.table) == EMP;
    assert ColsBefore(w, p, 1) == ColsBefore(w, p, 0) + SourceCols(w, s2);
  }

  // The condition on the k-th source's id.
  function PickWhere(s1: Source, s2: Source, k: nat): Expr {
    if k == 0 then IdIs(EffAlias(s1), 1) else IdIs(EffAlias(s2), 2)
  }

  lemma ClashIsOk(lib: Library, env: Env, s1: Source, s2: Source, k: nat)
    requires PlainNames(s1, s2) && k < 2
    ensures var w, p := Clash(lib, env, s1, s2), CrossPlan(s1, s2, Some(PickWhere(s1, s2, k)));
      Honest(w) && AllOk(w, p) && WhereOk(w, p)
  {
    var w, c := Clash(lib, env, s1, s2), PickWhere(s1, s2, k);
    var p := CrossPlan(s1, s2, Some(c));
    EagerIsHonest(lib, env, map[s1.table := EMP, s2.table := EMP]);
    ClashShape(w, s1, s2, Some(c));
    hide Honest, Eager, IndexCols;
    assert DotFree("id");
    forall i | -1 <= i < 1 ensures TableOk(w, SourceAt(p, i)) {
      assert Typed(EMP.rows, [IntKind]);
    }
    PickReads(w, s1, s2, k);
  }

  lemma PickReads(w: World, s1: Source, s2: Source, k: nat)
    requires PlainNames(s1, s2) && k < 2 && BareCols(w, s1) == ["id"] && BareCols(w, s2) == ["id"]
    ensures WhereOk(w, CrossPlan(s1, s2, Some(PickWhere(s1, s2, k))))
  {
    var c := PickWhere(s1, s2, k);
    var p := CrossPlan(s1, s2, Some(c));
    var name := EffAlias(if k == 0 then s1 else s2) + "." + "id";
    assert name != "";
    assert ExposedAt(w, p, 0, name, if k == 0 then -1 else 0, 0);
    assert ExprCols(c) == [name] && LocalExpr(c, false);
    assert Conjuncts(p.where) == [c];
  }

  lemma NoOnKeepsAll(w: World, p: Plan, n: nat, x: Row)
    requires n < |p.joins| && p.joins[n].on == None
    ensures OnKeep(w, p, n)(x)
  {
  }

  lemma WholeHasPair(w: World, s1: Source, s2: Source, k: nat)
    requires PlainNames(s1, s2) && k < 2 && w.tables == map[s1.table := EMP, s2.table := EMP]
    ensures var p := CrossPlan(s1, s2, Some(PickWhere(s1, s2, k)));
      [Int(1), Int(2)] in Filter(WhereKeep(w, p), Whole(w, p, 0, AllRows(w, p.from)))
  {
    var p := CrossPlan(s1, s2, Some(PickWhere(s1, s2, k)));
    var x: Row := [Int(1), Int(2)];
    var one, two: Row := [Int(1)], [Int(2)];
    ClashShape(w, s1, s2, p.where);
    IdInJoin(EffAlias(s1), EffAlias(s2), k);
    IdReads(w.lib, w.env, IndexCols(ColsBefore(w, p, 1)), x, EffAlias(if k == 0 then s1 else s2), k + 1, k);
    var keep := OnKeep(w, p, 0);
    NoOnKeepsAll(w, p, 0, x);
    assert Whole(w, p, 0, EMP.rows) == JoinRows(EMP.rows, Cross, 1, EMP.rows, 1, keep);
    assert WhereKeep(w, p)(x);
    hide OnKeep, Whole, WhereKeep, StepRows, PickWhere;
    assert one + two == x;
    FlatHas(Pair(one, keep), EMP.rows, two, x);
    FlatHas(Share(EMP.rows, Cross, 1, keep), EMP.rows, one, x);
    FilterHas(WhereKeep(w, p), Whole(w, p, 0, EMP.rows), x);
  }

  // The planner pushes the condition to a source whose table is called like the owner.
  lemma PushedWrongly(w: World, s1: Source, s2: Source, k: nat)
    requires PlainNames(s1, s2) && k < 2
    requires if k == 0 then s2.table == EffAlias(s1) else s1.table == EffAlias(s2)
    ensures var p := CrossPlan(s1, s2, Some(PickWhere(s1, s2, k)));
      if k == 0 then Hint(w, p, 0, s2.table, EffAlias(s2)) == p.where
      else Hint(w, p, -1, s1.table, EffAlias(s1)) == p.where
  {
    var c := PickWhere(s1, s2, k);
    var p := CrossPlan(s1, s2, Some(c));
    var owner, other := EffAlias(if k == 0 then s1 else s2), if k == 0 then s2 else s1;
    AttributionExactly(owner, "id", EffAlias(other), other.table);
    assert owner + "." + "id" != "";
    assert ExprCols(c) == [owner + "." + "id"];
    assert Conjuncts(p.where) == [c];
    var f := Attributed(EffAlias(other), other.table);
    assert f(c);
    assert Filter(f, [c]) == [c] + Filter(f, [c][1..]);
    assert !SuppliesNulls(p.joins, if k == 0 then 0 else -1);
  }

  lemma EagerScan(lib: Library, env: Env, s1: Source, s2: Source, t: string, hint: Option<Expr>, r: Row)
    requires s1.Named? && s2.Named? && t in {s1.table, s2.table}
    ensures var w := Clash(lib, env, s1, s2);
      r in w.scan(t, hint) ==> r in EMP.rows && Keeps(lib, env, IndexCols(["id"]), r, hint)
  {
  }

  // What the engine fetches: both scans with their hints.
  lemma ClashFetches(w: World, s1: Source, s2: Source, c: Expr)
    requires s1.Named? && s2.Named?
    ensures var p := CrossPlan(s1, s2, Some(c));
      var ls := FetchFrom(w, p);
      && ls == w.scan(s1.table, Hint(w, p, -1, s1.table, EffAlias(s1)))
      && Pushed(w, p, 0, ls) == StepRows(w, p, 0, ls, w.scan(s2.table, Hint(w, p, 0, s2.table, EffAlias(s2))))
  {
    hide Hint, StepRows;
    var p := CrossPlan(s1, s2, Some(c));
    assert FullHint(w, p, 0, FetchFrom(w, p)) == Hint(w, p, 0, s2.table, EffAlias(s2));
  }

  // A backend that applies the hint drops the row that the pair needs.
  lemma PushedLacksPair(lib: Library, env: Env, s1: Source, s2: Source, k: nat)
    requires PlainNames(s1, s2) && k < 2
    requires if k == 0 then s2.table == EffAlias(s1) else s1.table == EffAlias(s2)
    ensures var w, p := Clash(lib, env, s1, s2), CrossPlan(s1, s2, Some(PickWhere(s1, s2, k)));
      [Int(1), Int(2)] !in Filter(WhereKeep(w, p), Pushed(w, p, 0, FetchFrom(w, p)))
  {
    hide Hint, FetchFrom, Pushed, StepRows, Clash, ColsBefore, IndexCols, Keeps;
    var w, p := Clash(lib, env, s1, s2), CrossPlan(s1, s2, Some(PickWhere(s1, s2, k)));
    var x: Row := [Int(1), Int(2)];
    ClashTables(lib, env, s1, s2);
    ClashShape(w, s1, s2, p.where);
    PushedWrongly(w, s1, s2, k);
    ClashFetches(w, s1, s2, PickWhere(s1, s2, k));
    var h1, h2 := Hint(w, p, -1, s1.table, EffAlias(s1)), Hint(w, p, 0, s2.table, EffAlias(s2));
    var ls, rs := w.scan(s1.table, h1), w.scan(s2.table, h2);
    if x in StepRows(w, p, 0, ls, rs) {
      var l, r := StepShape(w, p, 0, ls, rs, x);
      EagerScan(lib, env, s1, s2, s1.table, h1, l);
      EagerScan(lib, env, s1, s2, s2.table, h2, r);
      PairIs(l, r);
      ScannedPair(lib, env, s1, s2, k, l, r);
    }
  }

  // The pair's own rows do not both pass the condition on the scans.
  lemma ScannedPair(lib: Library, env: Env, s1: Source, s2: Source, k: nat, l: Row, r: Row)
    requires k < 2 && l + r == [Int(1), Int(2)] && (l in EMP.rows || l == Nulls(1)) && (r in EMP.rows || r == Nulls(1))
    ensures var c := Some(PickWhere(s1, s2, k));
      !Keeps(lib, env, IndexCols(["id"]), if k == 0 then r else l, c)
  {
    hide Keeps, IndexCols;
    PairIs(l, r);
    var owner := EffAlias(if k == 0 then s1 else s2);
    IdInScan(owner);
    IdReads(lib, env, IndexCols(["id"]), if k == 0 then r else l, owner, k + 1, 0);
  }

  lemma PairIs(l: Row, r: Row)
    requires l + r == [Int(1), Int(2)] && (l in EMP.rows || l == Nulls(1)) && (r in EMP.rows || r == Nulls(1))
    ensures l == [Int(1)] && r == [Int(2)] && l != Nulls(1) && r != Nulls(1)
  {
    assert |l| == 1 && |r| == 1;
    assert (l + r)[0] == l[0] && (l + r)[1] == r[0] && Nulls(1)[0] == Null;
  }

  // A source whose table is called like the other's alias loses rows of some query.
  lemma ClashLosesRow(lib: Library, env: Env, s1: Source, s2: Source, k: nat)
    requires PlainNames(s1, s2) && k < 2
    requires if k == 0 then s2.table == EffAlias(s1) else s1.table == EffAlias(s2)
    ensures !Safe(Clash(lib, env, s1, s2), CrossPlan(s1, s2, Some(PickWhere(s1, s2, k))))
  {
    hide Honest, AllOk, WhereOk, Clash, CrossPlan, PickWhere;
    ClashIsOk(lib, env, s1, s2, k);
    var w := Clash(lib, env, s1, s2);
    assert w.tables == map[s1.table := EMP, s2.table := EMP] by { ClashTables(lib, env, s1, s2); }
    WholeHasPair(w, s1, s2, k);
    PushedLacksPair(lib, env, s1, s2, k);
  }

  lemma ClashTables(lib: Library, env: Env, s1: Source, s2: Source)
    requires s1.Named? && s2.Named?
    ensures var w := Clash(lib, env, s1, s2);
      w.tables == map[s1.table := EMP, s2.table := EMP] && w.lib == lib && w.env == env
  {
  }

  // Over two plainly named tables the pushdown keeps the answer, whatever the tables hold, the WHERE asks and an
  // honest backend returns, exactly when neither table is called like the other source's alias.
  lemma CrossJoinExactly(lib: Library, env: Env, s1: Source, s2: Source)
    requires PlainNames(s1, s2) && PrintsApart(lib.text)
    ensures (forall w: World, where: Option<Expr> {:trigger Safe(w, CrossPlan(s1, s2, where))} ::
        w.lib == lib && w.env == env ==> Safe(w, CrossPlan(s1, s2, where))) <==>
      (s2.table != EffAlias(s1) && s1.table != EffAlias(s2))
  {
    hide Safe, CrossPlan, PickWhere, Clash;
    if s2.table != EffAlias(s1) && s1.table != EffAlias(s2) {
      forall w: World, where: Option<Expr> | w.lib == lib && w.env == env ensures Safe(w, CrossPlan(s1, s2, where)) {
        ApartIsSafe(w, s1, s2, where);
      }
    } else {
      ClashTables(lib, env, s1, s2);
      ClashLosesRow(lib, env, s1, s2, if s2.table == EffAlias(s1) then 0 else 1);
    }
  }

  // FROM t CROSS JOIN t m WHERE t.id = 1 loses the row (1, 2).
  lemma SelfJoinLosesRows(lib: Library, env: Env, t: string, m: string)
    requires t != "" && m != "" && t != m && DotFree(t) && DotFree(m)
    ensures var s1, s2 := Named(t, ""), Named(t, m);
      var w, p := Clash(lib, env, s1, s2), CrossPlan(s1, s2, Some(IdIs(t, 1)));
      && Honest(w)
      && [Int(1), Int(2)] in Filter(WhereKeep(w, p), Whole(w, p, 0, AllRows(w, p.from)))
      && [Int(1), Int(2)] !in Filter(WhereKeep(w, p), Pushed(w, p, 0, FetchFrom(w, p)))
  {
    var s1, s2 := Named(t, ""), Named(t, m);
    hide Honest, Clash;
    ClashIsOk(lib, env, s1, s2, 0);
    ClashTables(lib, env, s1, s2);
    WholeHasPair(Clash(lib, env, s1, s2), s1, s2, 0);
    PushedLacksPair(lib, env, s1, s2, 0);
  }
}
