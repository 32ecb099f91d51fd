// Running an uncorrelated subquery once (resolveSubqueries, resolveValueSubqueries and makeSubFn in
// internal/engine/engine.go) gives every outer row the answer it would have got by itself.

module Hoist {
  import opened Option
  import opened Fold
  import opened Tds
  import opened Exec
  import opened Binder

  // ---------- Running a subquery per row ----------

  // rowResolver: a qualified column of the query's own row; a joined row names columns alias.col and is
  // searched case-insensitively, a single source's row by the bare name.
  ghost function RowResolver(row: Row, idx: Index, quals: set<string>, joined: bool): Resolver {
    col =>
      if Qualifier(col) == "" || Owner(col) !in quals then None
      else if !joined then
        (if ShortName(col) in idx then At(row, idx[ShortName(col)]) else None)
      else if col in idx then At(row, idx[col])
      else if exists name :: name in idx && Key(name) == Key(col) then
        var name :| name in idx && Key(name) == Key(col);
        At(row, idx[name])
      else None
  }

  function At(row: Row, i: nat): Option<Value> { if i < |row| then Some(row[i]) else None }

  // makeSubFn: bind the row, run what is left. run is the engine on a closed query.
  ghost function SubFn(run: Query -> seq<Row>, quals: set<string>, joined: bool): (Row, Index, Query) -> seq<Row> {
    (row, idx, q) => run(BindOuter(q, RowResolver(row, idx, quals, joined)))
  }

  // A subquery that asks for none of the enclosing sources is the same query for every row.
  lemma UncorrelatedIsClosed(sub: Query, quals: set<string>, row: Row, idx: Index, joined: bool)
    requires !IsCorrelated(sub, quals)
    ensures BindOuter(sub, RowResolver(row, idx, quals, joined)) == sub
  {
    assert Silent(RowResolver(row, idx, quals, joined), AsksQuery(sub, {}));
  }

  // The resolver answers only for the given sources.
  ghost predicate AnswersFor(rv: Resolver, quals: set<string>) {
    forall c :: rv(c).Some? ==> Owner(c) in quals
  }

  // The test is exact: a subquery is called correlated just when some row of those sources would
  // change it.
  lemma IsCorrelatedExactly(sub: Query, quals: set<string>)
    ensures IsCorrelated(sub, quals) <==> exists rv :: AnswersFor(rv, quals) && BindOuter(sub, rv) != sub
  {
    if IsCorrelated(sub, quals) {
      var rv: Resolver := c => if Owner(c) in quals then Some(Null) else None;
      assert AnswersFor(rv, quals) && !Silent(rv, AsksQuery(sub, {}));
    }
    if rv :| AnswersFor(rv, quals) && BindOuter(sub, rv) != sub {
      assert !Silent(rv, AsksQuery(sub, {}));
    }
  }

  // ---------- Running it once ----------

  function ResolveExpr(run: Query -> seq<Row>, e: Expr, quals: set<string>): Expr
    decreases e, 0
  {
    match e
    case Pred(p) =>
      if p.op == Exists && p.sub.Some? && !IsCorrelated(p.sub.value, quals) then Const(|run(p.sub.value)| > 0)
      else Pred(ResolvePred(run, p, quals))
    case And(es) => And(ResolveExprs(run, es, quals))
    case Or(es) => Or(ResolveExprs(run, es, quals))
    case Not(n) => Not(ResolveExpr(run, n, quals))
    case Const(_) => e
  }

  function ResolveExprs(run: Query -> seq<Row>, es: seq<Expr>, quals: set<string>): (r: seq<Expr>)
    ensures |r| == |es|
    decreases es, 0
  {
    if es == [] then [] else [ResolveExpr(run, es[0], quals)] + ResolveExprs(run, es[1..], quals)
  }

  function ResolvePred(run: Query -> seq<Row>, p: Predicate, quals: set<string>): Predicate
    decreases p, 0
  {
    if p.op == Exists && p.sub.Some? then p
    else if p.sub.Some? then
      (if IsCorrelated(p.sub.value, quals) then p
       else p.(value := List(FirstColumn(run(p.sub.value))), sub := None))
    else
      p.(leftExpr := if p.leftExpr.Some? then Some(ResolveValue(run, p.leftExpr.value, quals)) else None,
         value := ResolveOperand(run, p.value, quals))
  }

  function ResolveOperand(run: Query -> seq<Row>, o: Operand, quals: set<string>): Operand
    decreases o, 0
  {
    if o.Computed? then Computed(ResolveValue(run, o.e, quals)) else o
  }

  function ResolveValue(run: Query -> seq<Row>, e: ValueExpr, quals: set<string>): ValueExpr
    decreases e, 0
  {
    match e
    case Subquery(q) => if IsCorrelated(q, quals) then e else Lit(FirstCell(run(q)))
    case Lit(_) => e
    case Col(_) => e
    case Binary(op, l, r) => Binary(op, ResolveValue(run, l, quals), ResolveValue(run, r, quals))
    case Func(name, args, distinct) => Func(name, ResolveValues(run, args, quals), distinct)
    case Case(operand, whens, els) =>
      Case(if operand.Some? then Some(ResolveValue(run, operand.value, quals)) else None,
           ResolveWhens(run, whens, quals),
           if els.Some? then Some(ResolveValue(run, els.value, quals)) else None)
    case Cast(typ, arg, style) => Cast(typ, ResolveValue(run, arg, quals), ResolveValues(run, style, quals))
  }

  function ResolveValues(run: Query -> seq<Row>, es: seq<ValueExpr>, quals: set<string>): (r: seq<ValueExpr>)
    ensures |r| == |es|
    decreases es, 0
  {
    if es == [] then [] else [ResolveValue(run, es[0], quals)] + ResolveValues(run, es[1..], quals)
  }

  function ResolveWhens(run: Query -> seq<Row>, ws: seq<When>, quals: set<string>): (r: seq<When>)
    ensures |r| == |ws|
    decreases ws, 0
  {
    if ws == [] then [] else [ResolveWhen(run, ws[0], quals)] + ResolveWhens(run, ws[1..], quals)
  }

  function ResolveWhen(run: Query -> seq<Row>, w: When, quals: set<string>): When
    decreases w, 0
  {
    match w
    case Searched(cond, result) => Searched(ResolveExpr(run, cond, quals), ResolveValue(run, result, quals))
    case Simple(e, result) => Simple(ResolveValue(run, e, quals), ResolveValue(run, result, quals))
  }

  // ---------- Where a subquery may stand ----------

  // Only EXISTS and IN take a subquery as a predicate's own.
  ghost predicate Placed(e: Expr)
    decreases e, 0
  {
    match e
    case Pred(p) => PlacedPred(p)
    case And(es) => PlacedAll(es)
    case Or(es) => PlacedAll(es)
    case Not(n) => Placed(n)
    case Const(_) => true
  }

  ghost predicate PlacedAll(es: seq<Expr>)
    decreases es, 0
  {
    es == [] || (Placed(es[0]) && PlacedAll(es[1..]))
  }

  ghost predicate PlacedPred(p: Predicate)
    decreases p, 0
  {
    && (p.sub.Some? ==> p.op == Exists || p.op == In)
    && (p.leftExpr.Some? ==> PlacedValue(p.leftExpr.value))
    && (p.value.Computed? ==> PlacedValue(p.value.e))
  }

  ghost predicate PlacedValue(e: ValueExpr)
    decreases e, 0
  {
    match e
    case Binary(_, l, r) => PlacedValue(l) && PlacedValue(r)
    case Func(_, args, _) => PlacedValues(args)
    case Case(operand, whens, els) =>
      (operand.Some? ==> PlacedValue(operand.value)) && PlacedWhens(whens) && (els.Some? ==> PlacedValue(els.value))
    case Cast(_, arg, style) => PlacedValue(arg) && PlacedValues(style)
    case _ => true
  }

  ghost predicate PlacedValues(es: seq<ValueExpr>)
    decreases es, 0
  {
    es == [] || (PlacedValue(es[0]) && PlacedValues(es[1..]))
  }

  ghost predicate PlacedWhens(ws: seq<When>)
    decreases ws, 0
  {
    ws == [] || (PlacedWhen(ws[0]) && PlacedWhens(ws[1..]))
  }

  ghost predicate PlacedWhen(w: When)
    decreases w, 0
  {
    match w
    case Searched(cond, result) => Placed(cond) && PlacedValue(result)
    case Simple(e, result) => PlacedValue(e) && PlacedValue(result)
  }

  // ---------- Hoisting is sound ----------

  // One outer row of a query with these sources.
  datatype Outer = Outer(lib: Library, run: Query -> seq<Row>, scalar: (string, seq<Value>) -> Value,
                         quals: set<string>, joined: bool, idx: Index, row: Row)
  {
    ghost function Env(): Env { Exec.Env.Env(SubFn(run, quals, joined), scalar) }
    ghost function Truth(e: Expr): Truth { EvalTruth(lib, Env(), idx, row, e) }
    ghost function Value(e: ValueExpr): Value { EvalValue(lib, Env(), idx, row, e) }
  }

  lemma RunsOnce(o: Outer, q: Query)
    requires !IsCorrelated(q, o.quals)
    ensures o.Env().sub(o.row, o.idx, q) == o.run(q)
  {
    UncorrelatedIsClosed(q, o.quals, o.row, o.idx, o.joined);
  }

  // Replacing uncorrelated EXISTS, IN and scalar subqueries by their one answer keeps the truth value
  // of the condition on every outer row.
  lemma {:induction false} HoistKeepsTruth(o: Outer, e: Expr)
    requires Placed(e)
    ensures o.Truth(ResolveExpr(o.run, e, o.quals)) == o.Truth(e)
    decreases e, 0
  {
    match e
    case Pred(p) =>
      if p.op == Exists && p.sub.Some? {
        if !IsCorrelated(p.sub.value, o.quals) {
          RunsOnce(o, p.sub.value);
          assert EvalPred(o.lib, o.Env(), o.idx, o.row, p) == TruthOf(|o.run(p.sub.value)| > 0);
        }
      } else {
        HoistKeepsPred(o, p);
      }
    case And(es) => HoistKeepsAll(o, es);
    case Or(es) => HoistKeepsAll(o, es);
    case Not(n) => HoistKeepsTruth(o, n);
    case Const(_) =>
  }

  lemma {:induction false} HoistKeepsAll(o: Outer, es: seq<Expr>)
    requires PlacedAll(es)
    ensures EvalAnd(o.lib, o.Env(), o.idx, o.row, ResolveExprs(o.run, es, o.quals)) ==
      EvalAnd(o.lib, o.Env(), o.idx, o.row, es)
    ensures EvalOr(o.lib, o.Env(), o.idx, o.row, ResolveExprs(o.run, es, o.quals)) ==
      EvalOr(o.lib, o.Env(), o.idx, o.row, es)
    decreases es, 0
  {
    if es != [] {
      HoistKeepsTruth(o, es[0]);
      HoistKeepsAll(o, es[1..]);
    }
  }

  lemma {:induction false} HoistKeepsPred(o: Outer, p: Predicate)
    requires PlacedPred(p) && !(p.op == Exists && p.sub.Some?)
    ensures EvalPred(o.lib, o.Env(), o.idx, o.row, ResolvePred(o.run, p, o.quals)) ==
      EvalPred(o.lib, o.Env(), o.idx, o.row, p)
    decreases p, 0
  {
    hide CmpTruth, LikeTruth, InTruth, NullTruth, Lookup, IsCorrelated;
    if p.sub.Some? {
      if !IsCorrelated(p.sub.value, o.quals) { RunsOnce(o, p.sub.value); }
    } else {
      if p.leftExpr.Some? { HoistKeepsValue(o, p.leftExpr.value); }
      if p.value.Computed? { HoistKeepsValue(o, p.value.e); }
    }
  }

  lemma {:induction false} HoistKeepsValue(o: Outer, e: ValueExpr)
    requires PlacedValue(e)
    ensures o.Value(ResolveValue(o.run, e, o.quals)) == o.Value(e)
    decreases e, 0
  {
    match e
    case Subquery(q) =>
      if !IsCorrelated(q, o.quals) { RunsOnce(o, q); }
    case Lit(_) =>
    case Col(_) =>
    case Binary(_, l, r) =>
      HoistKeepsValue(o, l);
      HoistKeepsValue(o, r);
    case Func(_, args, _) =>
      HoistKeepsValues(o, args);
    case Case(operand, whens, els) =>
      if operand.Some? { HoistKeepsValue(o, operand.value); }
      if els.Some? { HoistKeepsValue(o, els.value); }
      HoistKeepsCase(o, if operand.Some? then o.Value(operand.value) else Null, whens,
        if els.Some? then o.Value(els.value) else Null);
    case Cast(_, arg, style) =>
      HoistKeepsValue(o, arg);
      HoistKeepsValues(o, style);
  }

  lemma {:induction false} HoistKeepsValues(o: Outer, es: seq<ValueExpr>)
    requires PlacedValues(es)
    ensures EvalValues(o.lib, o.Env(), o.idx, o.row, ResolveValues(o.run, es, o.quals)) ==
      EvalValues(o.lib, o.Env(), o.idx, o.row, es)
    decreases es, 0
  {
    if es != [] {
      HoistKeepsValue(o, es[0]);
      HoistKeepsValues(o, es[1..]);
    }
  }

  lemma {:induction false} HoistKeepsCase(o: Outer, v: Value, ws: seq<When>, d: Value)
    requires PlacedWhens(ws)
    ensures EvalCase(o.lib, o.Env(), o.idx, o.row, v, ResolveWhens(o.run, ws, o.quals), d) ==
      EvalCase(o.lib, o.Env(), o.idx, o.row, v, ws, d)
    decreases ws, 0
  {
    if ws != [] {
      HoistKeepsWhen(o, v, ws[0]);
      HoistKeepsCase(o, v, ws[1..], d);
    }
  }

  lemma {:induction false} HoistKeepsWhen(o: Outer, v: Value, w: When)
    requires PlacedWhen(w)
    ensures EvalWhen(o.lib, o.Env(), o.idx, o.row, v, ResolveWhen(o.run, w, o.quals)) ==
      EvalWhen(o.lib, o.Env(), o.idx, o.row, v, w)
    decreases w, 0
  {
    HoistKeepsValue(o, w.result);
    match w
    case Searched(cond, _) => HoistKeepsTruth(o, cond);
    case Simple(e, _) => HoistKeepsValue(o, e);
  }
}
