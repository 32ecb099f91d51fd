// Correlated subqueries: the substitution of an enclosing row and the test for correlation
// (internal/engine/bind.go).

module Binder {
  import opened Option
  import opened Fold
  import opened Tds
  import opened Exec

  type Resolver = string -> Option<Value>

  // ---------- Names and scopes ----------

  function Qualifier(col: string): string {
    if AfterDot(col) > 0 then col[..AfterDot(col) - 1] else ""
  }

  // Qualifiers match case-insensitively.
  function Owner(col: string): string { Key(Qualifier(col)) }

  // The names one source goes by; exposed keeps only its alias where it has one.
  function NamesOf(alias: string, schema: string, table: string, exposed: bool): set<string> {
    (if alias != "" then {Key(alias)} else {}) +
    (if (alias != "" && exposed) || table == "" then {}
     else {Key(table)} + (if schema != "" then {Key(schema + "." + table)} else {}))
  }

  function JoinNames(joins: seq<Join>, exposed: bool): set<string> {
    if joins == [] then {}
    else NamesOf(joins[0].alias, joins[0].schema, joins[0].table, exposed) + JoinNames(joins[1..], exposed)
  }

  function SourceQuals(q: Query, exposed: bool): set<string> {
    NamesOf(q.alias, q.schema, q.table, exposed) + JoinNames(q.joins, exposed) +
    NamesOf(q.shape.pivotAlias, "", "", exposed) + NamesOf(q.shape.unpivotAlias, "", "", exposed)
  }

  function WithSources(local: set<string>, q: Query): set<string> { SourceQuals(q, true) + local }

  // lookup: an unqualified name, or one a local source owns, is not the enclosing row's.
  function BindName(resolve: Resolver, col: string, local: set<string>): Option<Value> {
    if Qualifier(col) == "" || Owner(col) in local then None else resolve(col)
  }

  predicate IsStar(col: string) { |col| >= 2 && col[|col| - 2..] == ".*" }

  // ---------- Which names it asks for ----------

  // The columns the walk passes to the resolver as long as the resolver answers none of them.
  function AsksName(col: string, local: set<string>): set<string> {
    if Qualifier(col) == "" || Owner(col) in local then {} else {col}
  }

  function AsksQuery(q: Query, local: set<string>): set<string>
    decreases q, 0
  {
    var inner := WithSources(local, q);
    AsksItems(q.select, inner) + AsksWhere(q.where, inner) + AsksWhere(q.having, inner) +
    AsksOrders(q.orderBy, inner) + AsksJoins(q.joins, inner) +
    AsksSub(q.fromSub, local) + AsksFrom(q.fromFunc, local) + AsksSub(q.union, local)
  }

  function AsksWhere(e: Option<Expr>, local: set<string>): set<string>
    decreases e, 0
  {
    if e.Some? then AsksExpr(e.value, local) else {}
  }

  function AsksSub(q: Option<Query>, local: set<string>): set<string>
    decreases q, 0
  {
    if q.Some? then AsksQuery(q.value, local) else {}
  }

  function AsksFrom(f: Option<TableFunc>, local: set<string>): set<string>
    decreases f, 0
  {
    if f.Some? then AsksFunc(f.value, local) else {}
  }

  function AsksFunc(f: TableFunc, local: set<string>): set<string>
    decreases f, 0
  {
    AsksValues(f.args, local)
  }

  function AsksItems(items: seq<SelectItem>, local: set<string>): set<string>
    decreases items, 0
  {
    if items == [] then {} else AsksItem(items[0], local) + AsksItems(items[1..], local)
  }

  function AsksItem(it: SelectItem, local: set<string>): set<string>
    decreases it, 0
  {
    (if it.column != "" && !IsStar(it.column) then AsksName(it.column, local) else {}) +
    (if it.expr.Some? then AsksValue(it.expr.value, local) else {}) +
    (if it.argExpr.Some? then AsksValue(it.argExpr.value, local) else {}) +
    (if it.window.Some? then AsksWindow(it.window.value, local) else {})
  }

  function AsksWindow(w: WindowSpec, local: set<string>): set<string>
    decreases w, 0
  {
    AsksValues(w.args, local)
  }

  function AsksOrders(os: seq<OrderItem>, local: set<string>): set<string>
    decreases os, 0
  {
    if os == [] then {} else AsksOrder(os[0], local) + AsksOrders(os[1..], local)
  }

  function AsksOrder(o: OrderItem, local: set<string>): set<string>
    decreases o, 0
  {
    (if o.column != "" then AsksName(o.column, local) else {}) +
    (if o.expr.Some? then AsksValue(o.expr.value, local) else {})
  }

  function AsksJoins(js: seq<Join>, local: set<string>): set<string>
    decreases js, 0
  {
    if js == [] then {} else AsksJoin(js[0], local) + AsksJoins(js[1..], local)
  }

  function AsksJoin(j: Join, local: set<string>): set<string>
    decreases j, 0
  {
    AsksWhere(j.on, local) + AsksSub(j.fromSub, local) + AsksFrom(j.fromFunc, local) +
    AsksRows(j.fromValues, local)
  }

  function AsksRows(rows: seq<ValuesRow>, local: set<string>): set<string>
    decreases rows, 0
  {
    if rows == [] then {} else AsksRow(rows[0], local) + AsksRows(rows[1..], local)
  }

  function AsksRow(row: ValuesRow, local: set<string>): set<string>
    decreases row, 0
  {
    AsksValues(row.cells, local)
  }

  function AsksValues(es: seq<ValueExpr>, local: set<string>): set<string>
    decreases es, 0
  {
    if es == [] then {} else AsksValue(es[0], local) + AsksValues(es[1..], local)
  }

  function AsksValue(e: ValueExpr, local: set<string>): set<string>
    decreases e, 0
  {
    match e
    case Lit(_) => {}
    case Col(c) => AsksName(c, local)
    case Binary(_, l, r) => AsksValue(l, local) + AsksValue(r, local)
    case Func(_, args, _) => AsksValues(args, local)
    case Case(operand, whens, els) =>
      (if operand.Some? then AsksValue(operand.value, local) else {}) + AsksWhens(whens, local) +
      (if els.Some? then AsksValue(els.value, local) else {})
    case Cast(_, arg, style) => AsksValue(arg, local) + AsksValues(style, local)
    case Subquery(q) => AsksQuery(q, local)
  }

  function AsksWhens(ws: seq<When>, local: set<string>): set<string>
    decreases ws, 0
  {
    if ws == [] then {} else AsksWhen(ws[0], local) + AsksWhens(ws[1..], local)
  }

  function AsksWhen(w: When, local: set<string>): set<string>
    decreases w, 0
  {
    match w
    case Searched(cond, result) => AsksExpr(cond, local) + AsksValue(result, local)
    case Simple(e, result) => AsksValue(e, local) + AsksValue(result, local)
  }

  function AsksPred(p: Predicate, local: set<string>): set<string>
    decreases p, 0
  {
    (if p.column != "" then AsksName(p.column, local) else {}) +
    (if p.leftExpr.Some? then AsksValue(p.leftExpr.value, local) else {}) +
    AsksOperand(p.value, local) +
    (if p.sub.Some? then AsksQuery(p.sub.value, local) else {})
  }

  function AsksOperand(o: Operand, local: set<string>): set<string>
    decreases o, 0
  {
    match o
    case ColRef(c) => AsksName(c, local)
    case Computed(e) => AsksValue(e, local)
    case _ => {}
  }

  function AsksExpr(e: Expr, local: set<string>): set<string>
    decreases e, 0
  {
    match e
    case Pred(p) => AsksPred(p, local)
    case And(es) => AsksExprs(es, local)
    case Or(es) => AsksExprs(es, local)
    case Not(n) => AsksExpr(n, local)
    case Const(_) => {}
  }

  function AsksExprs(es: seq<Expr>, local: set<string>): set<string>
    decreases es, 0
  {
    if es == [] then {} else AsksExpr(es[0], local) + AsksExprs(es[1..], local)
  }

  // The resolver answers none of these names.
  ghost predicate Silent(rv: Resolver, names: set<string>) {
    forall c :: c in names ==> rv(c).None?
  }

  // ---------- Substitution ----------

  // Each function rebuilds its argument with the answered names replaced by their values; and
  // gives the argument back exactly when no name it asks for is answered.

  function BindQuery(rv: Resolver, q: Query, local: set<string>): (r: Query)
    ensures Silent(rv, AsksQuery(q, local)) <==> r == q
    decreases q, 0
  {
    var inner := WithSources(local, q);
    q.(select := BindItems(rv, q.select, inner), where := BindWhere(rv, q.where, inner),
       having := BindWhere(rv, q.having, inner), orderBy := BindOrders(rv, q.orderBy, inner),
       joins := BindJoins(rv, q.joins, inner),
       // a derived table sees what encloses the query, not its other sources
       fromSub := BindSub(rv, q.fromSub, local), fromFunc := BindFrom(rv, q.fromFunc, local),
       union := BindSub(rv, q.union, local))
  }

  function BindWhere(rv: Resolver, e: Option<Expr>, local: set<string>): (r: Option<Expr>)
    ensures Silent(rv, AsksWhere(e, local)) <==> r == e
    decreases e, 0
  {
    if e.Some? then Some(BindExpr(rv, e.value, local)) else None
  }

  function BindSub(rv: Resolver, q: Option<Query>, local: set<string>): (r: Option<Query>)
    ensures Silent(rv, AsksSub(q, local)) <==> r == q
    decreases q, 0
  {
    if q.Some? then Some(BindQuery(rv, q.value, local)) else None
  }

  function BindFrom(rv: Resolver, f: Option<TableFunc>, local: set<string>): (r: Option<TableFunc>)
    ensures Silent(rv, AsksFrom(f, local)) <==> r == f
    decreases f, 0
  {
    if f.Some? then Some(BindFunc(rv, f.value, local)) else None
  }

  function BindItems(rv: Resolver, items: seq<SelectItem>, local: set<string>): (r: seq<SelectItem>)
    ensures Silent(rv, AsksItems(items, local)) <==> r == items
    ensures |r| == |items|
    decreases items, 0
  {
    if items == [] then [] else [BindItem(rv, items[0], local)] + BindItems(rv, items[1..], local)
  }

  // A bound column keeps its name as its alias.
  function BindItem(rv: Resolver, it: SelectItem, local: set<string>): (r: SelectItem)
    ensures Silent(rv, AsksItem(it, local)) <==> r == it
    decreases it, 0
  {
    var found := if it.column != "" && !IsStar(it.column) then BindName(rv, it.column, local) else None;
    var named := if found.Some?
      then it.(alias := if it.alias == "" then ShortName(it.column) else it.alias, column := "",
               expr := Some(Lit(found.value)))
      else it.(expr := if it.expr.Some? then Some(BindValue(rv, it.expr.value, local)) else None);
    named.(argExpr := if it.argExpr.Some? then Some(BindValue(rv, it.argExpr.value, local)) else None,
           window := if it.window.Some? then Some(BindWindow(rv, it.window.value, local)) else None)
  }

  function BindWindow(rv: Resolver, w: WindowSpec, local: set<string>): (r: WindowSpec)
    ensures Silent(rv, AsksWindow(w, local)) <==> r == w
    decreases w, 0
  {
    w.(args := BindValues(rv, w.args, local))
  }

  function BindOrders(rv: Resolver, os: seq<OrderItem>, local: set<string>): (r: seq<OrderItem>)
    ensures Silent(rv, AsksOrders(os, local)) <==> r == os
    ensures |r| == |os|
    decreases os, 0
  {
    if os == [] then [] else [BindOrder(rv, os[0], local)] + BindOrders(rv, os[1..], local)
  }

  function BindOrder(rv: Resolver, o: OrderItem, local: set<string>): (r: OrderItem)
    ensures Silent(rv, AsksOrder(o, local)) <==> r == o
    decreases o, 0
  {
    var found := if o.column != "" then BindName(rv, o.column, local) else None;
    if found.Some? then o.(column := "", expr := Some(Lit(found.value)))
    else o.(expr := if o.expr.Some? then Some(BindValue(rv, o.expr.value, local)) else None)
  }

  function BindFunc(rv: Resolver, f: TableFunc, local: set<string>): (r: TableFunc)
    ensures Silent(rv, AsksFunc(f, local)) <==> r == f
    decreases f, 0
  {
    f.(args := BindValues(rv, f.args, local))
  }

  function BindJoins(rv: Resolver, js: seq<Join>, local: set<string>): (r: seq<Join>)
    ensures Silent(rv, AsksJoins(js, local)) <==> r == js
    ensures |r| == |js|
    decreases js, 0
  {
    if js == [] then [] else [BindJoin(rv, js[0], local)] + BindJoins(rv, js[1..], local)
  }

  function BindJoin(rv: Resolver, j: Join, local: set<string>): (r: Join)
    ensures Silent(rv, AsksJoin(j, local)) <==> r == j
    decreases j, 0
  {
    j.(on := BindWhere(rv, j.on, local), fromSub := BindSub(rv, j.fromSub, local),
       fromFunc := BindFrom(rv, j.fromFunc, local),
       fromValues := BindRows(rv, j.fromValues, local))
  }

  function BindRows(rv: Resolver, rows: seq<ValuesRow>, local: set<string>): (r: seq<ValuesRow>)
    ensures Silent(rv, AsksRows(rows, local)) <==> r == rows
    ensures |r| == |rows|
    decreases rows, 0
  {
    if rows == [] then [] else [BindRow(rv, rows[0], local)] + BindRows(rv, rows[1..], local)
  }

  function BindRow(rv: Resolver, row: ValuesRow, local: set<string>): (r: ValuesRow)
    ensures Silent(rv, AsksRow(row, local)) <==> r == row
    decreases row, 0
  {
    row.(cells := BindValues(rv, row.cells, local))
  }

  function BindValues(rv: Resolver, es: seq<ValueExpr>, local: set<string>): (r: seq<ValueExpr>)
    ensures Silent(rv, AsksValues(es, local)) <==> r == es
    ensures |r| == |es|
    decreases es, 0
  {
    if es == [] then [] else [BindValue(rv, es[0], local)] + BindValues(rv, es[1..], local)
  }

  function BindValue(rv: Resolver, e: ValueExpr, local: set<string>): (r: ValueExpr)
    ensures Silent(rv, AsksValue(e, local)) <==> r == e
    decreases e, 0
  {
    match e
    case Lit(_) => e
    case Col(c) => var v := BindName(rv, c, local); if v.Some? then Lit(v.value) else e
    case Binary(op, l, r) => Binary(op, BindValue(rv, l, local), BindValue(rv, r, local))
    case Func(name, args, distinct) => Func(name, BindValues(rv, args, local), distinct)
    case Case(operand, whens, els) =>
      Case(if operand.Some? then Some(BindValue(rv, operand.value, local)) else None,
           BindWhens(rv, whens, local),
           if els.Some? then Some(BindValue(rv, els.value, local)) else None)
    case Cast(typ, arg, style) => Cast(typ, BindValue(rv, arg, local), BindValues(rv, style, local))
    case Subquery(q) => Subquery(BindQuery(rv, q, local))
  }

  function BindWhens(rv: Resolver, ws: seq<When>, local: set<string>): (r: seq<When>)
    ensures Silent(rv, AsksWhens(ws, local)) <==> r == ws
    ensures |r| == |ws|
    decreases ws, 0
  {
    if ws == [] then [] else [BindWhen(rv, ws[0], local)] + BindWhens(rv, ws[1..], local)
  }

  function BindWhen(rv: Resolver, w: When, local: set<string>): (r: When)
    ensures Silent(rv, AsksWhen(w, local)) <==> r == w
    decreases w, 0
  {
    match w
    case Searched(cond, result) => Searched(BindExpr(rv, cond, local), BindValue(rv, result, local))
    case Simple(e, result) => Simple(BindValue(rv, e, local), BindValue(rv, result, local))
  }

  function BindPred(rv: Resolver, p: Predicate, local: set<string>): (r: Predicate)
    ensures Silent(rv, AsksPred(p, local)) <==> r == p
    decreases p, 0
  {
    var found := if p.column != "" then BindName(rv, p.column, local) else None;
    var left := if found.Some? then p.(leftExpr := Some(Lit(found.value)), column := "")
      else p.(leftExpr := if p.leftExpr.Some? then Some(BindValue(rv, p.leftExpr.value, local)) else None);
    left.(value := BindOperand(rv, p.value, local),
          sub := if p.sub.Some? then Some(BindQuery(rv, p.sub.value, local)) else None)
  }

  function BindOperand(rv: Resolver, o: Operand, local: set<string>): (r: Operand)
    ensures Silent(rv, AsksOperand(o, local)) <==> r == o
    decreases o, 0
  {
    match o
    case ColRef(c) => var v := BindName(rv, c, local); if v.Some? then Computed(Lit(v.value)) else o
    case Computed(e) => Computed(BindValue(rv, e, local))
    case _ => o
  }

  function BindExpr(rv: Resolver, e: Expr, local: set<string>): (r: Expr)
    ensures Silent(rv, AsksExpr(e, local)) <==> r == e
    decreases e, 0
  {
    match e
    case Pred(p) => Pred(BindPred(rv, p, local))
    case And(es) => And(BindExprs(rv, es, local))
    case Or(es) => Or(BindExprs(rv, es, local))
    case Not(n) => Not(BindExpr(rv, n, local))
    case Const(_) => e
  }

  function BindExprs(rv: Resolver, es: seq<Expr>, local: set<string>): (r: seq<Expr>)
    ensures Silent(rv, AsksExprs(es, local)) <==> r == es
    ensures |r| == |es|
    decreases es, 0
  {
    if es == [] then [] else [BindExpr(rv, es[0], local)] + BindExprs(rv, es[1..], local)
  }

  // isCorrelated: some name asked for belongs to the enclosing query.
  predicate IsCorrelated(sub: Query, quals: set<string>) {
    exists c <- AsksQuery(sub, {}) :: Owner(c) in quals
  }

  // bindOuter: no local source hides a name of the enclosing row at the top.
  function BindOuter(sub: Query, resolve: Resolver): Query { BindQuery(resolve, sub, {}) }
}
