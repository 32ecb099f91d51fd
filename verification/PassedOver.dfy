// The column names the substitution of an enclosing row passes over (internal/engine/bind.go): the argument of a
// plain aggregate, PARTITION BY and ORDER BY of a window, and GROUP BY.
module PassedOver {
  import opened Option
  import opened Tds
  import opened Exec
  import opened Binder

  // The names of a select item that are no expressions.
  function PlainNames(it: SelectItem): seq<string> {
    (if it.arg != "" then [it.arg] else []) + (if it.window.Some? then it.window.value.partitionBy else [])
  }

  function GroupNames(s: Shape): seq<string> { s.groupBy + Joined(s.groupingSets) }

  function Joined(sets: seq<seq<string>>): seq<string> { if sets == [] then [] else sets[0] + Joined(sets[1..]) }

  // An enclosing row may answer for the name, and no local source owns it: the walk should have replaced it.
  predicate Missed(may: string -> bool, n: string, local: set<string>) {
    Qualifier(n) != "" && Owner(n) !in local && may(n)
  }

  ghost predicate AllReached(may: string -> bool, names: seq<string>, local: set<string>) {
    forall n :: n in names ==> !Missed(may, n, local)
  }

  // ---------- Nothing is missed, at any depth ----------

  ghost predicate ReachedQuery(may: string -> bool, q: Query, local: set<string>)
    decreases q, 0
  {
    var inner := WithSources(local, q);
    && AllReached(may, GroupNames(q.shape), inner)
    && ReachedItems(may, q.select, inner) && ReachedWhere(may, q.where, inner) && ReachedWhere(may, q.having, inner)
    && ReachedOrders(may, q.orderBy, inner) && ReachedJoins(may, q.joins, inner)
    && ReachedSub(may, q.fromSub, local) && ReachedFrom(may, q.fromFunc, local) && ReachedSub(may, q.union, local)
  }

  ghost predicate ReachedWhere(may: string -> bool, e: Option<Expr>, local: set<string>)
    decreases e, 0
  {
    e.Some? ==> ReachedExpr(may, e.value, local)
  }

  ghost predicate ReachedSub(may: string -> bool, q: Option<Query>, local: set<string>)
    decreases q, 0
  {
    q.Some? ==> ReachedQuery(may, q.value, local)
  }

  ghost predicate ReachedFrom(may: string -> bool, f: Option<TableFunc>, local: set<string>)
    decreases f, 0
  {
    f.Some? ==> ReachedFunc(may, f.value, local)
  }

  ghost predicate ReachedFunc(may: string -> bool, f: TableFunc, local: set<string>)
    decreases f, 0
  {
    ReachedValues(may, f.args, local)
  }

  ghost predicate ReachedItems(may: string -> bool, items: seq<SelectItem>, local: set<string>)
    decreases items, 0
  {
    items == [] || (ReachedItem(may, items[0], local) && ReachedItems(may, items[1..], local))
  }

  ghost predicate ReachedItem(may: string -> bool, it: SelectItem, local: set<string>)
    decreases it, 0
  {
    && AllReached(may, PlainNames(it), local)
    && (it.expr.Some? ==> ReachedValue(may, it.expr.value, local))
    && (it.argExpr.Some? ==> ReachedValue(may, it.argExpr.value, local))
    && (it.window.Some? ==> ReachedWindow(may, it.window.value, local))
  }

  ghost predicate ReachedWindow(may: string -> bool, w: WindowSpec, local: set<string>)
    decreases w, 0
  {
    && ReachedValues(may, w.args, local)
    && ReachedOrders(may, w.orderBy, local)
    && forall n :: n in AsksOrders(w.orderBy, local) ==> !may(n)
  }

  ghost predicate ReachedOrders(may: string -> bool, os: seq<OrderItem>, local: set<string>)
    decreases os, 0
  {
    os == [] || (ReachedOrder(may, os[0], local) && ReachedOrders(may, os[1..], local))
  }

  ghost predicate ReachedOrder(may: string -> bool, o: OrderItem, local: set<string>)
    decreases o, 0
  {
    o.expr.Some? ==> ReachedValue(may, o.expr.value, local)
  }

  ghost predicate ReachedJoins(may: string -> bool, js: seq<Join>, local: set<string>)
    decreases js, 0
  {
    js == [] || (ReachedJoin(may, js[0], local) && ReachedJoins(may, js[1..], local))
  }

  ghost predicate ReachedJoin(may: string -> bool, j: Join, local: set<string>)
    decreases j, 0
  {
    && ReachedWhere(may, j.on, local) && ReachedSub(may, j.fromSub, local) && ReachedFrom(may, j.fromFunc, local)
    && ReachedRows(may, j.fromValues, local)
  }

  ghost predicate ReachedRows(may: string -> bool, rows: seq<ValuesRow>, local: set<string>)
    decreases rows, 0
  {
    rows == [] || (ReachedRow(may, rows[0], local) && ReachedRows(may, rows[1..], local))
  }

  ghost predicate ReachedRow(may: string -> bool, row: ValuesRow, local: set<string>)
    decreases row, 0
  {
    ReachedValues(may, row.cells, local)
  }

  ghost predicate ReachedValues(may: string -> bool, es: seq<ValueExpr>, local: set<string>)
    decreases es, 0
  {
    es == [] || (ReachedValue(may, es[0], local) && ReachedValues(may, es[1..], local))
  }

  ghost predicate ReachedValue(may: string -> bool, e: ValueExpr, local: set<string>)
    decreases e, 0
  {
    match e
    case Lit(_) => true
    case Col(_) => true
    case Binary(_, l, r) => ReachedValue(may, l, local) && ReachedValue(may, r, local)
    case Func(_, args, _) => ReachedValues(may, args, local)
    case Case(operand, whens, els) =>
      && (operand.Some? ==> ReachedValue(may, operand.value, local)) && ReachedWhens(may, whens, local)
      && (els.Some? ==> ReachedValue(may, els.value, local))
    case Cast(_, arg, style) => ReachedValue(may, arg, local) && ReachedValues(may, style, local)
    case Subquery(q) => ReachedQuery(may, q, local)
  }

  ghost predicate ReachedWhens(may: string -> bool, ws: seq<When>, local: set<string>)
    decreases ws, 0
  {
    ws == [] || (ReachedWhen(may, ws[0], local) && ReachedWhens(may, ws[1..], local))
  }

  ghost predicate ReachedWhen(may: string -> bool, w: When, local: set<string>)
    decreases w, 0
  {
    match w
    case Searched(cond, result) => ReachedExpr(may, cond, local) && ReachedValue(may, result, local)
    case Simple(e, result) => ReachedValue(may, e, local) && ReachedValue(may, result, local)
  }

  ghost predicate ReachedPred(may: string -> bool, p: Predicate, local: set<string>)
    decreases p, 0
  {
    && (p.leftExpr.Some? ==> ReachedValue(may, p.leftExpr.value, local))
    && ReachedOperand(may, p.value, local)
    && (p.sub.Some? ==> ReachedQuery(may, p.sub.value, local))
  }

  ghost predicate ReachedOperand(may: string -> bool, o: Operand, local: set<string>)
    decreases o, 0
  {
    match o
    case Computed(e) => ReachedValue(may, e, local)
    case _ => true
  }

  ghost predicate ReachedExpr(may: string -> bool, e: Expr, local: set<string>)
    decreases e, 0
  {
    match e
    case Pred(p) => ReachedPred(may, p, local)
    case And(es) => ReachedExprs(may, es, local)
    case Or(es) => ReachedExprs(may, es, local)
    case Not(n) => ReachedExpr(may, n, local)
    case Const(_) => true
  }

  ghost predicate ReachedExprs(may: string -> bool, es: seq<Expr>, local: set<string>)
    decreases es, 0
  {
    es == [] || (ReachedExpr(may, es[0], local) && ReachedExprs(may, es[1..], local))
  }
}
