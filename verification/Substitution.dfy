// Putting an enclosing row's values into a subquery (internal/engine/bind.go) keeps its meaning, at every
// depth of derived tables, joins, set operations, CASE and subqueries.

module Substitution {
  import opened Option
  import opened Fold
  import opened Tds
  import opened Exec
  import opened Rows
  import opened JoinExec
  import Planner
  import opened Aggregates
  import opened Binder
  import opened Hoist
  import opened PassedOver
  import opened Scope

  // What the walk replaces: the names rv answers, apart from those whose owner is hidden. may holds of every name
  // that rv answers.
  datatype Sub = Sub(rv: Resolver, hidden: set<string>, may: string -> bool)

  // before encloses the rewritten query, after the original: after answers what the walk put in.
  ghost predicate Relates(s: Sub, local: set<string>, before: Resolver, after: Resolver) {
    && (forall n {:trigger s.rv(n)} :: s.rv(n).Some? ==> s.may(n))
    && forall n {:trigger after(n)} :: Owner(n) !in local ==>
      after(n) == (if BindName(s.rv, n, s.hidden).Some? then BindName(s.rv, n, s.hidden) else before(n))
  }

  // The scopes of a rewritten and an original query differ only there.
  ghost predicate Bound(s: Sub, a: Scope, b: Scope) {
    b == a.(outer := b.outer) && a.local <= s.hidden && Relates(s, a.local, a.outer, b.outer)
  }

  lemma GroupBound(s: Sub, a: Scope, b: Scope, g: Option<seq<Row>>)
    requires Bound(s, a, b)
    ensures Bound(s, a.(group := g), b.(group := g))
  {
  }

  lemma ReadBound(s: Sub, a: Scope, b: Scope, row: Row, n: string)
    requires Bound(s, a, b)
    ensures Read(b, row, n) ==
      (if BindName(s.rv, n, s.hidden).Some? then BindName(s.rv, n, s.hidden).value else Read(a, row, n))
  {
    assert Owner(n) !in a.local ==>
      b.outer(n) == (if BindName(s.rv, n, s.hidden).Some? then BindName(s.rv, n, s.hidden) else a.outer(n));
  }

  // One level further in, whatever else a row answers.
  lemma ShadowRelates(s: Sub, local: set<string>, before: Resolver, after: Resolver, row: Resolver)
    requires local <= s.hidden && Relates(s, local, before, after)
    ensures Relates(s, {}, Shadow(before, local), Shadow(after, local))
    ensures Relates(s, {}, Over(Shadow(before, local), row), Over(Shadow(after, local), row))
  {
    forall n ensures Shadow(after, local)(n) ==
      (if BindName(s.rv, n, s.hidden).Some? then BindName(s.rv, n, s.hidden) else Shadow(before, local)(n))
    {
      assert Owner(n) !in local ==>
        after(n) == (if BindName(s.rv, n, s.hidden).Some? then BindName(s.rv, n, s.hidden) else before(n));
    }
  }

  lemma InnerRelates(s: Sub, a: Scope, b: Scope, row: Row)
    requires Bound(s, a, b)
    ensures a.runs == b.runs
    ensures Relates(s, {}, Around(a, row), Around(b, row))
  {
    hide RowResolver, Relates;
    ShadowRelates(s, a.local, a.outer, b.outer, RowResolver(row, a.idx, a.quals, a.joined));
  }

  // Entering a query: its own sources join the hidden names.
  function Enter(s: Sub, q: Query): Sub { s.(hidden := WithSources(s.hidden, q)) }

  lemma EnterRelates(s: Sub, q: Query, before: Resolver, after: Resolver)
    requires Relates(s, {}, before, after)
    ensures WithSources({}, q) <= Enter(s, q).hidden
    ensures Relates(Enter(s, q), WithSources({}, q), before, after)
  {
    hide SourceQuals;
    forall n | Owner(n) !in WithSources({}, q)
      ensures BindName(s.rv, n, Enter(s, q).hidden) == BindName(s.rv, n, s.hidden)
      ensures after(n) == (if BindName(s.rv, n, s.hidden).Some? then BindName(s.rv, n, s.hidden) else before(n))
    {
    }
  }

  // ---------- What the walk leaves alone ----------

  lemma {:induction false} JoinNamesKept(s: Sub, js: seq<Join>, exposed: bool)
    ensures JoinNames(BindJoins(s.rv, js, s.hidden), exposed) == JoinNames(js, exposed)
  {
    if js != [] { JoinNamesKept(s, js[1..], exposed); }
  }

  lemma SourcesKept(s: Sub, q: Query)
    ensures SourceQuals(BindQuery(s.rv, q, s.hidden), true) == SourceQuals(q, true)
    ensures SourceQuals(BindQuery(s.rv, q, s.hidden), false) == SourceQuals(q, false)
    ensures WithSources({}, BindQuery(s.rv, q, s.hidden)) == WithSources({}, q)
  {
    hide NamesOf;
    JoinNamesKept(Enter(s, q), q.joins, true);
    JoinNamesKept(Enter(s, q), q.joins, false);
  }

  lemma {:induction false} InfosKept(s: Sub, items: seq<SelectItem>)
    ensures Infos(BindItems(s.rv, items, s.hidden)) == Infos(items)
  {
    if items != [] {
      InfoKept(s, items[0]);
      InfosKept(s, items[1..]);
    }
  }

  // A replaced column keeps its name as its alias.
  lemma InfoKept(s: Sub, it: SelectItem)
    ensures Info(BindItem(s.rv, it, s.hidden)) == Info(it)
  {
    hide BindName;
    assert ShortName("") == "";
  }

  lemma {:induction false} OrderInfosKept(s: Sub, os: seq<OrderItem>)
    ensures OrderInfos(BindOrders(s.rv, os, s.hidden)) == OrderInfos(os)
  {
    if os != [] { OrderInfosKept(s, os[1..]); }
  }

  lemma {:induction false} OpsKept(s: Sub, q: Query)
    ensures Ops(BindQuery(s.rv, q, s.hidden)) == Ops(q)
    decreases q
  {
    if q.union.Some? { OpsKept(s, q.union.value); }
  }

  // ---------- Lists and joins agree row by row ----------

  lemma RunJoinAgree(left: Rel, jt: JoinType, right: Rel, f: Row -> bool, g: Row -> bool)
    requires forall x {:trigger f(x)} {:trigger g(x)} :: f(x) == g(x)
    ensures RunJoin(left, jt, right, f) == RunJoin(left, jt, right, g)
  {
    var ls, rs, lw, rw := left.rows, right.rows, |left.cols|, |right.cols|;
    forall l | l in ls ensures Share(rs, jt, rw, f)(l) == Share(rs, jt, rw, g)(l) {
      FlatAgree(Pair(l, f), Pair(l, g), rs);
    }
    FlatAgree(Share(rs, jt, rw, f), Share(rs, jt, rw, g), ls);
    forall r | r in rs ensures Lonely(ls, lw, f)(r) == Lonely(ls, lw, g)(r) {
      assert Matched(ls, r, f) == Matched(ls, r, g);
    }
    FlatAgree(Lonely(ls, lw, f), Lonely(ls, lw, g), rs);
  }

  lemma RunApplyAgree(left: Rel, outer: bool, alias: string, f: Row -> Rel, g: Row -> Rel)
    requires forall x {:trigger f(x)} {:trigger g(x)} :: f(x) == g(x)
    ensures RunApply(left, outer, alias, f) == RunApply(left, outer, alias, g)
  {
    forall l | l in left.rows ensures ApplyRow(outer, f)(l) == ApplyRow(outer, g)(l) { assert f(l) == g(l); }
    FlatAgree(ApplyRow(outer, f), ApplyRow(outer, g), left.rows);
    var probe := if left.rows != [] then left.rows[0] else seq(|left.cols|, _ => Str(""));
    assert f(probe) == g(probe);
  }

  // ---------- Expressions ----------

  lemma {:induction false} ValueBound(m: Machine, s: Sub, a: Scope, b: Scope, row: Row, e: ValueExpr)
    requires Bound(s, a, b) && ReachedValue(s.may, e, s.hidden)
    ensures RefValue(m, a, row, BindValue(s.rv, e, s.hidden)) == RefValue(m, b, row, e)
    decreases e, 0
  {
    hide Bound, Read, Around, BindName, Compare, BindQuery, RefQuery, RefSeparator;
    match e
    case Lit(_) =>
    case Col(c) => ReadBound(s, a, b, row, c);
    case Binary(_, l, r) =>
      ValueBound(m, s, a, b, row, l);
      ValueBound(m, s, a, b, row, r);
    case Func(_, args, _) =>
      ValuesBound(m, s, a, b, row, args);
      CallBound(m, s, a, b, args);
      SeparatorBound(s, a, b, args);
    case Case(operand, whens, els) =>
      if operand.Some? { ValueBound(m, s, a, b, row, operand.value); }
      if els.Some? { ValueBound(m, s, a, b, row, els.value); }
      CaseBound(m, s, a, b, row, if operand.Some? then RefValue(m, b, row, operand.value) else Null, whens,
        if els.Some? then RefValue(m, b, row, els.value) else Null);
    case Cast(_, arg, style) =>
      ValueBound(m, s, a, b, row, arg);
      ValuesBound(m, s, a, b, row, style);
    case Subquery(q) =>
      InnerRelates(s, a, b, row);
      QueryBound(m, s, q, Around(a, row), Around(b, row));
  }

  lemma SeparatorBound(s: Sub, a: Scope, b: Scope, args: seq<ValueExpr>)
    requires Bound(s, a, b)
    ensures RefSeparator(a, BindValues(s.rv, args, s.hidden)) == RefSeparator(b, args)
  {
    hide Relates, BindName, Qualifier, Owner, BindQuery;
    if |args| >= 2 {
      var k := BindValues(s.rv, args, s.hidden);
      assert k[1] == BindValue(s.rv, args[1], s.hidden) by { assert k[1..] == BindValues(s.rv, args[1..], s.hidden); }
      if args[1].Col? { OuterBound(s, a, b, args[1].col); }
    }
  }

  lemma OuterBound(s: Sub, a: Scope, b: Scope, n: string)
    requires Bound(s, a, b)
    ensures BindName(s.rv, n, s.hidden).Some? ==> IsOuter(b, n) && b.outer(n) == BindName(s.rv, n, s.hidden)
    ensures BindName(s.rv, n, s.hidden).None? ==>
      IsOuter(b, n) == IsOuter(a, n) && (IsOuter(a, n) ==> b.outer(n) == a.outer(n))
  {
    assert Owner(n) !in a.local ==>
      b.outer(n) == (if BindName(s.rv, n, s.hidden).Some? then BindName(s.rv, n, s.hidden) else a.outer(n));
  }

  // An aggregate's argument over the group; COUNT(*) stays COUNT(*).
  lemma {:induction false} CallBound(m: Machine, s: Sub, a: Scope, b: Scope, args: seq<ValueExpr>)
    requires Bound(s, a, b) && ReachedValues(s.may, args, s.hidden)
    ensures a.group == b.group && IsStarCall(BindValues(s.rv, args, s.hidden)) == IsStarCall(args)
    ensures a.group.Some? && args != [] ==>
      RefOver(m, a.(group := None), a.group.value, BindValues(s.rv, args, s.hidden)[0]) ==
      RefOver(m, b.(group := None), b.group.value, args[0])
    decreases args, 0
  {
    hide RefOver;
    if a.group.Some? && args != [] {
      GroupBound(s, a, b, None);
      OverBound(m, s, a.(group := None), b.(group := None), a.group.value, args[0]);
    }
  }

  lemma {:induction false} OverBound(m: Machine, s: Sub, a: Scope, b: Scope, rows: seq<Row>, e: ValueExpr)
    requires Bound(s, a, b) && ReachedValue(s.may, e, s.hidden)
    ensures RefOver(m, a, rows, BindValue(s.rv, e, s.hidden)) == RefOver(m, b, rows, e)
    decreases e, 1, |rows|
  {
    hide Bound, RefValue, BindValue;
    if rows != [] {
      ValueBound(m, s, a, b, rows[0], e);
      OverBound(m, s, a, b, rows[1..], e);
    }
  }

  lemma {:induction false} ValuesBound(m: Machine, s: Sub, a: Scope, b: Scope, row: Row, es: seq<ValueExpr>)
    requires Bound(s, a, b) && ReachedValues(s.may, es, s.hidden)
    ensures RefValues(m, a, row, BindValues(s.rv, es, s.hidden)) == RefValues(m, b, row, es)
    decreases es, 0
  {
    hide Bound, RefValue, BindValue;
    if es != [] {
      ValueBound(m, s, a, b, row, es[0]);
      ValuesBound(m, s, a, b, row, es[1..]);
    }
  }

  lemma {:induction false} CaseBound(m: Machine, s: Sub, a: Scope, b: Scope, row: Row, v: Value, ws: seq<When>,
      d: Value)
    requires Bound(s, a, b) && ReachedWhens(s.may, ws, s.hidden)
    ensures RefCase(m, a, row, v, BindWhens(s.rv, ws, s.hidden), d) == RefCase(m, b, row, v, ws, d)
    decreases ws, 0
  {
    hide Bound, RefWhen, BindWhen;
    if ws != [] {
      WhenBound(m, s, a, b, row, v, ws[0]);
      CaseBound(m, s, a, b, row, v, ws[1..], d);
    }
  }

  lemma {:induction false} WhenBound(m: Machine, s: Sub, a: Scope, b: Scope, row: Row, v: Value, w: When)
    requires Bound(s, a, b) && ReachedWhen(s.may, w, s.hidden)
    ensures RefWhen(m, a, row, v, BindWhen(s.rv, w, s.hidden)) == RefWhen(m, b, row, v, w)
    decreases w, 0
  {
    hide Bound, RefValue, RefTruth, BindValue, BindExpr, Compare;
    ValueBound(m, s, a, b, row, w.result);
    match w
    case Searched(cond, _) => TruthBound(m, s, a, b, row, cond);
    case Simple(e, _) => ValueBound(m, s, a, b, row, e);
  }

  lemma {:induction false} OperandBound(m: Machine, s: Sub, a: Scope, b: Scope, row: Row, o: Operand)
    requires Bound(s, a, b) && ReachedOperand(s.may, o, s.hidden)
    ensures Listed(BindOperand(s.rv, o, s.hidden)) == Listed(o)
    ensures RefOperand(m, a, row, BindOperand(s.rv, o, s.hidden)) == RefOperand(m, b, row, o)
    decreases o, 0
  {
    hide Bound, Read, BindName, BindValue;
    match o
    case ColRef(c) => ReadBound(s, a, b, row, c);
    case Computed(e) => ValueBound(m, s, a, b, row, e);
    case _ =>
  }

  // What a predicate compares.
  lemma {:induction false} SubjectBound(m: Machine, s: Sub, a: Scope, b: Scope, row: Row, p: Predicate)
    requires Bound(s, a, b) && ReachedPred(s.may, p, s.hidden)
    ensures RefSubject(m, a, row, BindPred(s.rv, p, s.hidden)) == RefSubject(m, b, row, p)
    decreases p, 0
  {
    hide Bound, Read, BindName, BindValue, BindQuery, BindOperand;
    ReadBound(s, a, b, row, p.column);
    EmptyIsNotBound(s);
    if p.leftExpr.Some? { ValueBound(m, s, a, b, row, p.leftExpr.value); }
  }

  lemma EmptyIsNotBound(s: Sub)
    ensures BindName(s.rv, "", s.hidden) == None
  {
  }

  lemma PredFields(s: Sub, p: Predicate)
    ensures var k := BindPred(s.rv, p, s.hidden);
      && (k.op, k.escape, k.caseSensitive) == (p.op, p.escape, p.caseSensitive)
      && k.value == BindOperand(s.rv, p.value, s.hidden)
      && k.sub == (if p.sub.Some? then Some(BindQuery(s.rv, p.sub.value, s.hidden)) else None)
  {
    hide BindName, BindValue, BindOperand, BindQuery;
  }

  lemma {:induction false} PredBound(m: Machine, s: Sub, a: Scope, b: Scope, row: Row, p: Predicate)
    requires Bound(s, a, b) && ReachedPred(s.may, p, s.hidden)
    ensures RefPred(m, a, row, BindPred(s.rv, p, s.hidden)) == RefPred(m, b, row, p)
    decreases p, 1
  {
    hide Bound, RefSubject, RefOperand, Around, BindPred, BindOperand, BindQuery, RefQuery, Listed, Test, InTruth,
      FirstColumn;
    PredFields(s, p);
    SubjectBound(m, s, a, b, row, p);
    OperandBound(m, s, a, b, row, p.value);
    if p.sub.Some? {
      InnerRelates(s, a, b, row);
      QueryBound(m, s, p.sub.value, Around(a, row), Around(b, row));
    }
  }

  lemma {:induction false} TruthBound(m: Machine, s: Sub, a: Scope, b: Scope, row: Row, e: Expr)
    requires Bound(s, a, b) && ReachedExpr(s.may, e, s.hidden)
    ensures RefTruth(m, a, row, BindExpr(s.rv, e, s.hidden)) == RefTruth(m, b, row, e)
    decreases e, 0
  {
    hide Bound, RefPred, BindPred;
    match e
    case Const(_) =>
    case Pred(p) => PredBound(m, s, a, b, row, p);
    case Not(n) => TruthBound(m, s, a, b, row, n);
    case And(es) => TruthsBound(m, s, a, b, row, es);
    case Or(es) => TruthsBound(m, s, a, b, row, es);
  }

  lemma {:induction false} TruthsBound(m: Machine, s: Sub, a: Scope, b: Scope, row: Row, es: seq<Expr>)
    requires Bound(s, a, b) && ReachedExprs(s.may, es, s.hidden)
    ensures RefAnd(m, a, row, BindExprs(s.rv, es, s.hidden)) == RefAnd(m, b, row, es)
    ensures RefOr(m, a, row, BindExprs(s.rv, es, s.hidden)) == RefOr(m, b, row, es)
    decreases es, 0
  {
    hide Bound, RefTruth, BindExpr;
    if es != [] {
      TruthBound(m, s, a, b, row, es[0]);
      TruthsBound(m, s, a, b, row, es[1..]);
    }
  }

  lemma {:induction false} KeepsBound(m: Machine, s: Sub, a: Scope, b: Scope, row: Row, e: Option<Expr>)
    requires Bound(s, a, b) && ReachedWhere(s.may, e, s.hidden)
    ensures RefKeeps(m, a, row, BindWhere(s.rv, e, s.hidden)) == RefKeeps(m, b, row, e)
    decreases e, 0
  {
    hide Bound, RefTruth, BindExpr;
    if e.Some? { TruthBound(m, s, a, b, row, e.value); }
  }

  // ---------- Sources and joins ----------

  lemma BareBound(s: Sub, idx: Index, local: set<string>, before: Resolver, after: Resolver)
    requires local <= s.hidden && Relates(s, local, before, after)
    ensures Bound(s, Bare(idx, local, before), Bare(idx, local, after))
  {
  }

  lemma {:induction false} RowsetBound(m: Machine, s: Sub, f: TableFunc, before: Resolver, after: Resolver)
    requires Relates(s, {}, before, after) && ReachedFunc(s.may, f, s.hidden)
    ensures RefRowset(m, BindFunc(s.rv, f, s.hidden), before) == RefRowset(m, f, after)
    decreases f, 0
  {
    hide Relates, Bare, RefValues, BindValues;
    BareBound(s, map[], {}, before, after);
    ValuesBound(m, s, Bare(map[], {}, before), Bare(map[], {}, after), [], f.args);
  }

  lemma {:induction false} CellsBound(m: Machine, s: Sub, a: Scope, b: Scope, row: Row, rows: seq<ValuesRow>)
    requires Bound(s, a, b) && ReachedRows(s.may, rows, s.hidden)
    ensures RefCells(m, a, row, BindRows(s.rv, rows, s.hidden)) == RefCells(m, b, row, rows)
    decreases rows, 0
  {
    hide Bound, RefCellRow, BindRow;
    if rows != [] {
      CellRowBound(m, s, a, b, row, rows[0]);
      CellsBound(m, s, a, b, row, rows[1..]);
    }
  }

  lemma {:induction false} CellRowBound(m: Machine, s: Sub, a: Scope, b: Scope, row: Row, r: ValuesRow)
    requires Bound(s, a, b) && ReachedRow(s.may, r, s.hidden)
    ensures RefCellRow(m, a, row, BindRow(s.rv, r, s.hidden)) == RefCellRow(m, b, row, r)
    decreases r, 0
  {
    hide Bound, RefValues, BindValues;
    ValuesBound(m, s, a, b, row, r.cells);
  }

  // Two frames of a query, rewritten and original.
  ghost predicate Framed(s: Sub, a: Frame, b: Frame) {
    b == a.(outer := b.outer) && a.local <= s.hidden && Relates(s, a.local, a.outer, b.outer)
  }

  lemma FrameRelates(s: Sub, a: Frame, b: Frame, idx: Index, row: Row, cols: seq<string>)
    requires Framed(s, a, b)
    ensures a.local == b.local
    ensures Relates(s, {}, Shadow(a.outer, a.local), Shadow(b.outer, b.local))
    ensures Relates(s, {}, Over(Shadow(a.outer, a.local), LeftRow(idx, row)),
                           Over(Shadow(b.outer, b.local), LeftRow(idx, row)))
    ensures Bound(s, Bare(idx, a.local, a.outer), Bare(idx, b.local, b.outer))
    ensures Bound(s, Bare(map[], a.local, a.outer), Bare(map[], b.local, b.outer))
    ensures Bound(s, OnScope(a, cols), OnScope(b, cols))
  {
    hide Relates, LeftRow;
    ShadowRelates(s, a.local, a.outer, b.outer, LeftRow(idx, row));
  }

  lemma {:induction false} RightBound(m: Machine, s: Sub, j: Join, a: Frame, b: Frame, idx: Index, row: Row)
    requires Framed(s, a, b) && ReachedJoin(s.may, j, s.hidden)
    ensures RefRight(m, BindJoin(s.rv, j, s.hidden), a, idx, row) == RefRight(m, j, b, idx, row)
    decreases j, 0
  {
    hide Framed, Bound, Relates, Bare, LeftRow, Over, Shadow, OnScope, RefQuery, RefRowset, RefCells,
      BindQuery, BindFunc, BindRows, BindWhere;
    FrameRelates(s, a, b, idx, row, []);
    var apply := IsApply(j.jt);
    var before := if apply then Over(Shadow(a.outer, a.local), LeftRow(idx, row)) else Shadow(a.outer, a.local);
    var after := if apply then Over(Shadow(b.outer, b.local), LeftRow(idx, row)) else Shadow(b.outer, b.local);
    if j.fromValues != [] {
      CellsBound(m, s, if apply then Bare(idx, a.local, a.outer) else Bare(map[], a.local, a.outer),
        if apply then Bare(idx, b.local, b.outer) else Bare(map[], b.local, b.outer),
        if apply then row else [], j.fromValues);
    } else if j.fromSub.Some? {
      QueryBound(m, s, j.fromSub.value, before, after);
    } else if j.fromFunc.Some? {
      RowsetBound(m, s, j.fromFunc.value, before, after);
    }
  }

  lemma {:induction false} JoinBound(m: Machine, s: Sub, left: Rel, j: Join, a: Frame, b: Frame)
    requires Framed(s, a, b) && ReachedJoin(s.may, j, s.hidden)
    ensures RefJoin(m, left, BindJoin(s.rv, j, s.hidden), a) == RefJoin(m, left, j, b)
    decreases j, 1
  {
    hide Framed, Bound, OnScope, RefRight, RefKeeps, RunApply, RunJoin, Named, BindSub, BindFrom, BindRows, BindWhere;
    var idx := Planner.IndexCols(left.cols);
    var k := BindJoin(s.rv, j, s.hidden);
    if IsApply(j.jt) {
      forall row ensures RefRight(m, k, a, idx, row) == RefRight(m, j, b, idx, row) {
        RightBound(m, s, j, a, b, idx, row);
      }
      RunApplyAgree(left, j.jt == OuterApply, JoinAlias(j),
        row => RefRight(m, k, a, idx, row), row => RefRight(m, j, b, idx, row));
    } else {
      RightBound(m, s, j, a, b, idx, []);
      var right := Named(RefRight(m, j, b, idx, []), JoinAlias(j));
      var x, y := OnScope(a, left.cols + right.cols), OnScope(b, left.cols + right.cols);
      FrameRelates(s, a, b, idx, [], left.cols + right.cols);
      forall row ensures RefKeeps(m, x, row, k.on) == RefKeeps(m, y, row, j.on) {
        KeepsBound(m, s, x, y, row, j.on);
      }
      RunJoinAgree(left, j.jt, right, row => RefKeeps(m, x, row, k.on), row => RefKeeps(m, y, row, j.on));
    }
  }

  lemma {:induction false} JoinsBound(m: Machine, s: Sub, left: Rel, js: seq<Join>, a: Frame, b: Frame)
    requires Framed(s, a, b) && ReachedJoins(s.may, js, s.hidden)
    ensures RefJoins(m, left, BindJoins(s.rv, js, s.hidden), a) == RefJoins(m, left, js, b)
    decreases js, 0
  {
    hide Framed, RefJoin, BindJoin;
    if js != [] {
      JoinBound(m, s, left, js[0], a, b);
      JoinsBound(m, s, RefJoin(m, left, js[0], b), js[1..], a, b);
    }
  }

  // ---------- The select list ----------

  lemma {:induction false} CellBound(m: Machine, s: Sub, a: Scope, b: Scope, row: Row, it: SelectItem)
    requires Bound(s, a, b) && ReachedItem(s.may, it, s.hidden)
    ensures RefCell(m, a, row, BindItem(s.rv, it, s.hidden)) == RefCell(m, b, row, it)
    decreases it, 0
  {
    hide Bound, Read, BindName, BindValue, BindWindow, ShortName;
    ReadBound(s, a, b, row, it.column);
    if it.expr.Some? { ValueBound(m, s, a, b, row, it.expr.value); }
  }

  lemma {:induction false} ItemBound(m: Machine, s: Sub, a: Scope, b: Scope, all: seq<Row>, row: Row, it: SelectItem)
    requires Bound(s, a, b) && ReachedItem(s.may, it, s.hidden)
    ensures RefItem(m, a, all, row, BindItem(s.rv, it, s.hidden)) == RefItem(m, b, all, row, it)
    decreases it, 1
  {
    hide Bound, RefCell, BindName, BindValue, RefOver, RefWindow, RefWindowOrder, ReadNames, PlainNames, ShortName,
      BindWindow;
    CellBound(m, s, a, b, row, it);
    GroupBound(s, a, b, None);
    if it.argExpr.Some? { OverBound(m, s, a.(group := None), b.(group := None), all, it.argExpr.value); }
    ReadsBound(s, a.(group := None), b.(group := None), all, PlainNames(it));
    PlainKept(s, it);
    if it.window.Some? {
      WindowBound(m, s, a, b, row, it.window.value);
      WindowOrderBound(m, s, a, b, row, it.window.value);
    }
  }

  lemma PlainKept(s: Sub, it: SelectItem)
    ensures PlainNames(BindItem(s.rv, it, s.hidden)) == PlainNames(it)
  {
    hide BindName, BindValue, ShortName;
  }

  // Names the walk passes over read the same where it would not have replaced them.
  lemma ReadsBound(s: Sub, a: Scope, b: Scope, rows: seq<Row>, names: seq<string>)
    requires Bound(s, a, b) && AllReached(s.may, names, s.hidden)
    ensures ReadNames(a, rows, names) == ReadNames(b, rows, names)
  {
    hide Bound, Read;
    forall k | 0 <= k < |names| ensures ReadOver(a, rows, names[k]) == ReadOver(b, rows, names[k]) {
      assert names[k] in names;
      forall i | 0 <= i < |rows| ensures Read(a, rows[i], names[k]) == Read(b, rows[i], names[k]) {
        ReadBound(s, a, b, rows[i], names[k]);
        NotMissed(s, a, b, names[k]);
      }
    }
  }

  lemma NotMissed(s: Sub, a: Scope, b: Scope, n: string)
    requires Bound(s, a, b) && !Missed(s.may, n, s.hidden)
    ensures BindName(s.rv, n, s.hidden) == None
  {
  }

  lemma {:induction false} WindowBound(m: Machine, s: Sub, a: Scope, b: Scope, row: Row, w: WindowSpec)
    requires Bound(s, a, b) && ReachedWindow(s.may, w, s.hidden)
    ensures RefWindow(m, a, row, BindWindow(s.rv, w, s.hidden)) == RefWindow(m, b, row, w)
    decreases w, 0
  {
    hide Bound, RefValues, BindValues;
    ValuesBound(m, s, a, b, row, w.args);
  }

  // The walk leaves a window's ORDER BY alone.
  lemma {:induction false} WindowOrderBound(m: Machine, s: Sub, a: Scope, b: Scope, row: Row, w: WindowSpec)
    requires Bound(s, a, b) && ReachedWindow(s.may, w, s.hidden)
    ensures RefWindowOrder(m, a, row, BindWindow(s.rv, w, s.hidden)) == RefWindowOrder(m, b, row, w)
    decreases w, 0
  {
    hide RefOrders, BindOrders, BindValues, ReachedOrders;
    forall n | n in AsksOrders(w.orderBy, s.hidden) ensures s.rv(n).None? {
    }
    assert Silent(s.rv, AsksOrders(w.orderBy, s.hidden));
    assert BindOrders(s.rv, w.orderBy, s.hidden) == w.orderBy;
    OrdersBound(m, s, a, b, row, w.orderBy);
  }

  lemma {:induction false} ItemsBound(m: Machine, s: Sub, a: Scope, b: Scope, all: seq<Row>, row: Row,
      items: seq<SelectItem>)
    requires Bound(s, a, b) && ReachedItems(s.may, items, s.hidden)
    ensures RefItems(m, a, all, row, BindItems(s.rv, items, s.hidden)) == RefItems(m, b, all, row, items)
    decreases items, 0
  {
    hide Bound, RefItem, BindItem;
    if items != [] {
      ItemBound(m, s, a, b, all, row, items[0]);
      ItemsBound(m, s, a, b, all, row, items[1..]);
    }
  }

  lemma {:induction false} OrderBound(m: Machine, s: Sub, a: Scope, b: Scope, row: Row, o: OrderItem)
    requires Bound(s, a, b) && ReachedOrder(s.may, o, s.hidden)
    ensures RefOrder(m, a, row, BindOrder(s.rv, o, s.hidden)) == RefOrder(m, b, row, o)
    decreases o, 0
  {
    hide Bound, Read, BindName, BindValue;
    ReadBound(s, a, b, row, o.column);
    EmptyIsNotBound(s);
    if o.expr.Some? { ValueBound(m, s, a, b, row, o.expr.value); }
  }

  lemma {:induction false} OrdersBound(m: Machine, s: Sub, a: Scope, b: Scope, row: Row, os: seq<OrderItem>)
    requires Bound(s, a, b) && ReachedOrders(s.may, os, s.hidden)
    ensures RefOrders(m, a, row, BindOrders(s.rv, os, s.hidden)) == RefOrders(m, b, row, os)
    decreases os, 0
  {
    hide Bound, RefOrder, BindOrder;
    if os != [] {
      OrderBound(m, s, a, b, row, os[0]);
      OrdersBound(m, s, a, b, row, os[1..]);
    }
  }

  lemma {:induction false} OutBound(m: Machine, s: Sub, a: Scope, b: Scope, q: Query, arm: bool, c: Context)
    requires Bound(Enter(s, q), a, b) && ReachedQuery(s.may, q, s.hidden)
    ensures RefOut(m, a, BindQuery(s.rv, q, s.hidden), arm, c) == RefOut(m, b, q, arm, c)
    decreases q, 0
  {
    hide Bound, RefItems, RefOrders, BindItems, BindOrders, BindJoins, BindWhere, BindSub, BindFrom, WithSources;
    var x, y := a.(group := c.group), b.(group := c.group);
    GroupBound(Enter(s, q), a, b, c.group);
    ItemsBound(m, Enter(s, q), x, y, if c.group.Some? then c.group.value else [c.row], c.row, q.select);
    OrdersBound(m, Enter(s, q), x, y, c.row, q.orderBy);
  }

  lemma {:induction false} OutsBound(m: Machine, s: Sub, a: Scope, b: Scope, q: Query, arm: bool, cs: seq<Context>)
    requires Bound(Enter(s, q), a, b) && ReachedQuery(s.may, q, s.hidden)
    ensures RefOuts(m, a, BindQuery(s.rv, q, s.hidden), arm, cs) == RefOuts(m, b, q, arm, cs)
    decreases q, 1, |cs|
  {
    hide Bound, RefOut, BindQuery, Enter;
    if cs != [] {
      OutBound(m, s, a, b, q, arm, cs[0]);
      OutsBound(m, s, a, b, q, arm, cs[1..]);
    }
  }

  // ---------- The substitution theorem ----------

  lemma {:induction false} FromBound(m: Machine, s: Sub, q: Query, before: Resolver, after: Resolver)
    requires Relates(s, {}, before, after) && ReachedQuery(s.may, q, s.hidden)
    ensures RefFrom(m, BindQuery(s.rv, q, s.hidden), before) == RefFrom(m, q, after)
    decreases q, 1
  {
    hide Relates, RefRowset, RefJoins, Named, WithSources, SourceQuals, BindItems, BindOrders, BindWhere, BindFunc;
    if q.fromSub.Some? { QueryBound(m, s, q.fromSub.value, before, after); }
    else if q.fromFunc.Some? { RowsetBound(m, s, q.fromFunc.value, before, after); }
    var k := BindQuery(s.rv, q, s.hidden);
    SourcesKept(s, q);
    FramesOf(s, q, before, after);
    var from := if q.fromSub.Some? then RefQuery(m, q.fromSub.value, after)
      else if q.fromFunc.Some? then RefRowset(m, q.fromFunc.value, after)
      else m.table(q.schema, q.table);
    JoinsBound(m, Enter(s, q), Named(from, if q.alias != "" then q.alias else q.table), q.joins,
      FrameOf(k, before), FrameOf(q, after));
  }

  lemma FramesOf(s: Sub, q: Query, before: Resolver, after: Resolver)
    requires Relates(s, {}, before, after)
    ensures Framed(Enter(s, q), FrameOf(BindQuery(s.rv, q, s.hidden), before), FrameOf(q, after))
  {
    hide Relates, WithSources, SourceQuals, BindQuery;
    SourcesKept(s, q);
    EnterRelates(s, q, before, after);
  }

  lemma SelectScopes(s: Sub, q: Query, cols: seq<string>, before: Resolver, after: Resolver)
    requires Relates(s, {}, before, after)
    ensures Bound(Enter(s, q), SelectScope(BindQuery(s.rv, q, s.hidden), cols, before), SelectScope(q, cols, after))
    ensures Bound(Enter(s, q), Bare(Planner.IndexCols(cols), WithSources({}, BindQuery(s.rv, q, s.hidden)), before),
                  Bare(Planner.IndexCols(cols), WithSources({}, q), after))
  {
    hide Relates, WithSources, SourceQuals;
    SourcesKept(s, q);
    EnterRelates(s, q, before, after);
  }

  lemma {:induction false} WhereBound(m: Machine, s: Sub, q: Query, a: Scope, b: Scope, rows: seq<Row>)
    requires Bound(Enter(s, q), a, b) && ReachedQuery(s.may, q, s.hidden)
    ensures RefWhere(m, a, BindQuery(s.rv, q, s.hidden), rows) == RefWhere(m, b, q, rows)
    decreases q, 0
  {
    hide Bound, RefKeeps, Filter, BindItems, BindOrders, BindJoins, BindWhere, BindSub, BindFrom, WithSources;
    var k := BindQuery(s.rv, q, s.hidden);
    forall row ensures RefKeeps(m, a, row, k.where) == RefKeeps(m, b, row, q.where) {
      KeepsBound(m, Enter(s, q), a, b, row, q.where);
    }
    FilterAgree(row => RefKeeps(m, a, row, k.where), row => RefKeeps(m, b, row, q.where), rows);
  }

  lemma {:induction false} HavingBound(m: Machine, s: Sub, q: Query, a: Scope, b: Scope, cs: seq<Context>)
    requires Bound(Enter(s, q), a, b) && ReachedQuery(s.may, q, s.hidden)
    ensures RefHaving(m, a, BindQuery(s.rv, q, s.hidden), cs) == RefHaving(m, b, q, cs)
    decreases q, 0
  {
    hide Bound, RefKeeps, Filter, BindItems, BindOrders, BindJoins, BindWhere, BindSub, BindFrom, WithSources;
    var k := BindQuery(s.rv, q, s.hidden);
    forall c: Context
      ensures RefKeeps(m, a.(group := c.group), c.row, k.having) == RefKeeps(m, b.(group := c.group), c.row, q.having)
    {
      GroupBound(Enter(s, q), a, b, c.group);
      KeepsBound(m, Enter(s, q), a.(group := c.group), b.(group := c.group), c.row, q.having);
    }
    FilterAgree((c: Context) => RefKeeps(m, a.(group := c.group), c.row, k.having),
      (c: Context) => RefKeeps(m, b.(group := c.group), c.row, q.having), cs);
  }

  lemma {:induction false} SelectBound(m: Machine, s: Sub, q: Query, arm: bool, before: Resolver, after: Resolver)
    requires Relates(s, {}, before, after) && ReachedQuery(s.may, q, s.hidden)
    ensures RefSelect(m, BindQuery(s.rv, q, s.hidden), arm, before) == RefSelect(m, q, arm, after)
    decreases q, 2
  {
    hide Relates, Bound, RefFrom, RefWhere, RefHaving, RefOuts, WithSources, SourceQuals, BindItems, BindOrders,
      BindJoins, BindWhere, BindSub, BindFrom, Infos, OrderInfos;
    var k := BindQuery(s.rv, q, s.hidden);
    FromBound(m, s, q, before, after);
    var from := RefFrom(m, q, after);
    SelectScopes(s, q, from.cols, before, after);
    var a, b := SelectScope(k, from.cols, before), SelectScope(q, from.cols, after);
    InfosKept(Enter(s, q), q.select);
    OrderInfosKept(Enter(s, q), q.orderBy);
    WhereBound(m, s, q, a, b, from.rows);
    var rows := RefWhere(m, b, q, from.rows);
    ReadsBound(Enter(s, q), a, b, rows, GroupNames(q.shape));
    var cs := m.contexts(q.shape, Infos(q.select), b.idx, rows, ReadNames(b, rows, GroupNames(q.shape)));
    HavingBound(m, s, q, a, b, cs);
    OutsBound(m, s, a, b, q, arm, RefHaving(m, b, q, cs));
  }

  lemma {:induction false} ArmsBound(m: Machine, s: Sub, q: Query, before: Resolver, after: Resolver)
    requires Relates(s, {}, before, after) && ReachedQuery(s.may, q, s.hidden)
    ensures RefArms(m, BindQuery(s.rv, q, s.hidden), before) == RefArms(m, q, after)
    decreases q, 3
  {
    hide Relates, RefSelect, WithSources, BindItems, BindOrders, BindJoins, BindWhere, BindFrom;
    SelectBound(m, s, q, true, before, after);
    if q.union.Some? { ArmsBound(m, s, q.union.value, before, after); }
  }

  lemma {:induction false} OrderRowsBound(m: Machine, s: Sub, a: Scope, b: Scope, q: Query, rows: seq<Row>)
    requires Bound(Enter(s, q), a, b) && ReachedQuery(s.may, q, s.hidden)
    ensures RefOrderRows(m, a, BindQuery(s.rv, q, s.hidden), rows) == RefOrderRows(m, b, q, rows)
    decreases q, 1, |rows|
  {
    hide Bound, RefOrders, WithSources, BindItems, BindOrders, BindJoins, BindWhere, BindSub, BindFrom;
    if rows != [] {
      OrdersBound(m, Enter(s, q), a, b, rows[0], q.orderBy);
      OrderRowsBound(m, s, a, b, q, rows[1..]);
    }
  }

  lemma {:induction false} TailBound(m: Machine, s: Sub, q: Query, all: Rel, before: Resolver, after: Resolver)
    requires Relates(s, {}, before, after) && ReachedQuery(s.may, q, s.hidden)
    ensures RefTail(m, BindQuery(s.rv, q, s.hidden), all, before) == RefTail(m, q, all, after)
    decreases q, 3
  {
    hide Relates, Bound, Bare, RefOrderRows, WithSources, BindItems, BindOrders, BindJoins, BindWhere, BindFrom,
      OrderInfos;
    if q.union.Some? {
      TailBound(m, s, q.union.value, all, before, after);
    } else {
      SelectScopes(s, q, all.cols, before, after);
      OrderInfosKept(Enter(s, q), q.orderBy);
      OrderRowsBound(m, s, Bare(Planner.IndexCols(all.cols), WithSources({}, BindQuery(s.rv, q, s.hidden)), before),
        Bare(Planner.IndexCols(all.cols), WithSources({}, q), after), q, all.rows);
    }
  }

  // Evaluating the rewritten query under before is evaluating the original under after.
  lemma {:induction false} QueryBound(m: Machine, s: Sub, q: Query, before: Resolver, after: Resolver)
    requires Relates(s, {}, before, after) && ReachedQuery(s.may, q, s.hidden)
    ensures RefQuery(m, BindQuery(s.rv, q, s.hidden), before) == RefQuery(m, q, after)
    decreases q, 4
  {
    hide Relates, RefSelect, RefTail, RefArms, WithSources, BindItems, BindOrders, BindJoins, BindWhere, BindSub,
      BindFrom;
    if q.union.None? {
      SelectBound(m, s, q, false, before, after);
    } else {
      ArmsBound(m, s, q, before, after);
      OpsKept(s, q);
      TailBound(m, s, q, m.combine(RefArms(m, q, after), Ops(q)), before, after);
    }
  }
}
