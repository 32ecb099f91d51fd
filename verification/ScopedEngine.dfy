// The evaluator with its per-row subqueries (evalPred and evalValue in internal/exec, makeSubFn and
// resolveSubqueries in internal/engine/engine.go) computes what lexical scoping says.
module ScopedEngine {
  import opened Option
  import opened Fold
  import opened Tds
  import opened Exec
  import opened Rows
  import opened Binder
  import opened Hoist
  import opened Scope
  import opened Substitution
  import opened PassedOver
  import opened Subqueries

  // ---------- Conditions ----------

  // What the parser builds, where the walk reaches every name that these sources own: a predicate's left side is a
  // column or an expression, never both, and no subquery has such a name as a plain aggregate's argument or the like.
  ghost predicate Regular(quals: set<string>, e: Expr)
    decreases e, 0
  {
    match e
    case Pred(p) => RegularPred(quals, p)
    case And(es) => RegularAll(quals, es)
    case Or(es) => RegularAll(quals, es)
    case Not(n) => Regular(quals, n)
    case Const(_) => true
  }

  ghost predicate RegularAll(quals: set<string>, es: seq<Expr>)
    decreases es, 0
  {
    es == [] || (Regular(quals, es[0]) && RegularAll(quals, es[1..]))
  }

  ghost predicate RegularPred(quals: set<string>, p: Predicate)
    decreases p, 0
  {
    && (p.sub.Some? ==> ReachedQuery(OfQuals(quals), p.sub.value, {}))
    && (p.leftExpr.Some? ==> p.column == "" && RegularValue(quals, p.leftExpr.value))
    && (p.value.Computed? ==> RegularValue(quals, p.value.e))
  }

  ghost predicate RegularValue(quals: set<string>, e: ValueExpr)
    decreases e, 0
  {
    match e
    case Binary(_, l, r) => RegularValue(quals, l) && RegularValue(quals, r)
    case Func(_, args, _) => RegularValues(quals, args)
    case Case(operand, whens, els) =>
      && (operand.Some? ==> RegularValue(quals, operand.value))
      && (els.Some? ==> RegularValue(quals, els.value)) && RegularWhens(quals, whens)
    case Subquery(q) => ReachedQuery(OfQuals(quals), q, {})
    case Cast(_, arg, style) => RegularValue(quals, arg) && RegularValues(quals, style)
    case _ => true
  }

  ghost predicate RegularValues(quals: set<string>, es: seq<ValueExpr>)
    decreases es, 0
  {
    es == [] || (RegularValue(quals, es[0]) && RegularValues(quals, es[1..]))
  }

  ghost predicate RegularWhens(quals: set<string>, ws: seq<When>)
    decreases ws, 0
  {
    ws == [] || (RegularWhen(quals, ws[0]) && RegularWhens(quals, ws[1..]))
  }

  ghost predicate RegularWhen(quals: set<string>, w: When)
    decreases w, 0
  {
    match w
    case Searched(cond, r) => Regular(quals, cond) && RegularValue(quals, r)
    case Simple(e, r) => RegularValue(quals, e) && RegularValue(quals, r)
  }

  // ---------- The engine at one row ----------

  // A row of a query that nothing encloses, outside any group.
  datatype Point = Point(m: Machine, sc: Scope, scalar: (string, seq<Value>) -> Value, row: Row) {
    ghost function Run(): Query -> seq<Row> { q => RefQuery(m, q, NOBODY).rows }

    ghost function Env(): Env { Exec.Env.Env(SubFn(Run(), sc.quals, sc.joined), scalar) }

    ghost predicate Valid() {
      && sc.outer == NOBODY && sc.group.None? && sc.runs
      && forall name, args :: m.scalar(name, args) == EvalFunc(m.lib, Env(), name, args)
    }

    ghost function Truth(e: Expr): Truth { EvalTruth(m.lib, Env(), sc.idx, row, e) }

    ghost function Value(e: ValueExpr): Value { EvalValue(m.lib, Env(), sc.idx, row, e) }

    ghost function AsOuter(): Outer { Outer(m.lib, Run(), scalar, sc.quals, sc.joined, sc.idx, row) }
  }

  // A subquery met at the row is its meaning around the row.
  lemma SubAtRow(pt: Point, q: Query)
    requires pt.Valid() && ReachedQuery(OfQuals(pt.sc.quals), q, {})
    ensures pt.Env().sub(pt.row, pt.sc.idx, q) == RefQuery(pt.m, q, Around(pt.sc, pt.row)).rows
  {
    hide RefQuery, BindQuery, ReachedQuery;
    SubFnIsScoped(pt.m, pt.sc, pt.row, q);
  }

  lemma {:induction false} ValueIsScoped(pt: Point, e: ValueExpr)
    requires pt.Valid() && RegularValue(pt.sc.quals, e)
    ensures pt.Value(e) == RefValue(pt.m, pt.sc, pt.row, e)
    decreases e, 0
  {
    hide RefQuery, SubFn, EvalFunc;
    match e
    case Subquery(q) => SubAtRow(pt, q);
    case Lit(_) =>
    case Col(_) =>
    case Binary(_, l, r) =>
      ValueIsScoped(pt, l);
      ValueIsScoped(pt, r);
    case Func(_, args, _) => ValuesAreScoped(pt, args);
    case Case(operand, whens, els) =>
      if operand.Some? { ValueIsScoped(pt, operand.value); }
      if els.Some? { ValueIsScoped(pt, els.value); }
      CaseIsScoped(pt, if operand.Some? then pt.Value(operand.value) else Null, whens,
        if els.Some? then pt.Value(els.value) else Null);
    case Cast(_, arg, style) =>
      ValueIsScoped(pt, arg);
      ValuesAreScoped(pt, style);
  }

  lemma {:induction false} ValuesAreScoped(pt: Point, es: seq<ValueExpr>)
    requires pt.Valid() && RegularValues(pt.sc.quals, es)
    ensures EvalValues(pt.m.lib, pt.Env(), pt.sc.idx, pt.row, es) == RefValues(pt.m, pt.sc, pt.row, es)
    decreases es, 0
  {
    hide RefQuery, SubFn;
    if es != [] {
      ValueIsScoped(pt, es[0]);
      ValuesAreScoped(pt, es[1..]);
    }
  }

  lemma {:induction false} CaseIsScoped(pt: Point, v: Value, ws: seq<When>, d: Value)
    requires pt.Valid() && RegularWhens(pt.sc.quals, ws)
    ensures EvalCase(pt.m.lib, pt.Env(), pt.sc.idx, pt.row, v, ws, d) == RefCase(pt.m, pt.sc, pt.row, v, ws, d)
    decreases ws, 0
  {
    hide RefQuery, SubFn;
    if ws != [] {
      WhenIsScoped(pt, v, ws[0]);
      CaseIsScoped(pt, v, ws[1..], d);
    }
  }

  lemma {:induction false} WhenIsScoped(pt: Point, v: Value, w: When)
    requires pt.Valid() && RegularWhen(pt.sc.quals, w)
    ensures EvalWhen(pt.m.lib, pt.Env(), pt.sc.idx, pt.row, v, w) == RefWhen(pt.m, pt.sc, pt.row, v, w)
    decreases w, 0
  {
    hide RefQuery, SubFn;
    ValueIsScoped(pt, w.result);
    match w
    case Searched(cond, _) => TruthIsScoped(pt, cond);
    case Simple(e, _) => ValueIsScoped(pt, e);
  }

  lemma {:induction false} SubjectIsScoped(pt: Point, p: Predicate)
    requires pt.Valid() && RegularPred(pt.sc.quals, p)
    ensures (if p.leftExpr.Some? then pt.Value(p.leftExpr.value) else Lookup(pt.sc.idx, pt.row, p.column)) ==
      RefSubject(pt.m, pt.sc, pt.row, p)
    decreases p, 0
  {
    hide RefQuery, SubFn;
    if p.leftExpr.Some? { ValueIsScoped(pt, p.leftExpr.value); }
  }

  lemma {:induction false} OperandIsScoped(pt: Point, p: Predicate)
    requires pt.Valid() && RegularPred(pt.sc.quals, p)
    ensures EvalOperand(pt.m.lib, pt.Env(), pt.sc.idx, pt.row, p.value) == RefOperand(pt.m, pt.sc, pt.row, p.value)
    decreases p, 0
  {
    hide RefQuery, SubFn;
    if p.value.Computed? { ValueIsScoped(pt, p.value.e); }
  }

  lemma SubOfPred(pt: Point, p: Predicate)
    requires pt.Valid() && RegularPred(pt.sc.quals, p) && p.sub.Some?
    ensures pt.Env().sub(pt.row, pt.sc.idx, p.sub.value) == RefQuery(pt.m, p.sub.value, Around(pt.sc, pt.row)).rows
  {
    hide RefQuery, SubFn, ReachedQuery;
    SubAtRow(pt, p.sub.value);
  }

  lemma {:induction false} PredIsScoped(pt: Point, p: Predicate)
    requires pt.Valid() && RegularPred(pt.sc.quals, p)
    ensures EvalPred(pt.m.lib, pt.Env(), pt.sc.idx, pt.row, p) == RefPred(pt.m, pt.sc, pt.row, p)
    decreases p, 1
  {
    hide RefQuery, SubFn, InTruth, CmpTruth, LikeTruth, NullTruth, RefSubject, RefOperand, EvalOperand, RegularPred,
      Around, Lookup,
      EvalValue, FirstColumn;
    if p.sub.Some? { SubOfPred(pt, p); }
    SubjectIsScoped(pt, p);
    OperandIsScoped(pt, p);
  }

  // Every condition means, on every row, what its names and subqueries mean there.
  lemma {:induction false} TruthIsScoped(pt: Point, e: Expr)
    requires pt.Valid() && Regular(pt.sc.quals, e)
    ensures pt.Truth(e) == RefTruth(pt.m, pt.sc, pt.row, e)
    decreases e, 0
  {
    hide RefQuery, SubFn;
    match e
    case Pred(p) => PredIsScoped(pt, p);
    case And(es) => TruthsAreScoped(pt, es);
    case Or(es) => TruthsAreScoped(pt, es);
    case Not(n) => TruthIsScoped(pt, n);
    case Const(_) =>
  }

  lemma {:induction false} TruthsAreScoped(pt: Point, es: seq<Expr>)
    requires pt.Valid() && RegularAll(pt.sc.quals, es)
    ensures EvalAnd(pt.m.lib, pt.Env(), pt.sc.idx, pt.row, es) == RefAnd(pt.m, pt.sc, pt.row, es)
    ensures EvalOr(pt.m.lib, pt.Env(), pt.sc.idx, pt.row, es) == RefOr(pt.m, pt.sc, pt.row, es)
    decreases es, 0
  {
    hide RefQuery, SubFn;
    if es != [] {
      TruthIsScoped(pt, es[0]);
      TruthsAreScoped(pt, es[1..]);
    }
  }

  // ---------- The whole WHERE ----------

  // The engine's filter: the condition with its uncorrelated subqueries already run, the others per row.
  ghost function WhereRows(pt: Point, where: Expr, rows: seq<Row>): seq<Row> {
    Filter(row => pt.(row := row).Truth(ResolveExpr(pt.Run(), where, pt.sc.quals)) == True, rows)
  }

  lemma HoistedIsScoped(pt: Point, e: Expr)
    requires pt.Valid() && Regular(pt.sc.quals, e) && Placed(e)
    ensures pt.Truth(ResolveExpr(pt.Run(), e, pt.sc.quals)) == RefTruth(pt.m, pt.sc, pt.row, e)
  {
    hide RefQuery, SubFn, ResolveExpr, EvalTruth, RefTruth, Placed, Regular;
    HoistKeepsTruth(pt.AsOuter(), e);
    assert pt.AsOuter().Env() == pt.Env();
    TruthIsScoped(pt, e);
  }

  // Hoisting, per-row subqueries and substitution together filter the rows that the WHERE means to keep.
  lemma WhereIsScoped(pt: Point, q: Query, rows: seq<Row>)
    requires pt.Valid() && q.where.Some? && Regular(pt.sc.quals, q.where.value) && Placed(q.where.value)
    ensures WhereRows(pt, q.where.value, rows) == RefWhere(pt.m, pt.sc, q, rows)
  {
    hide RefQuery, SubFn, ResolveExpr, EvalTruth, RefTruth, Placed, Regular;
    var e := q.where.value;
    var f := row => pt.(row := row).Truth(ResolveExpr(pt.Run(), e, pt.sc.quals)) == True;
    var g := row => RefKeeps(pt.m, pt.sc, row, q.where);
    forall row: Row ensures f(row) == g(row) {
      HoistedIsScoped(pt.(row := row), e);
    }
    FilterAgree(f, g, rows);
  }
}
