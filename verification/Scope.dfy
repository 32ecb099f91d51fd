// What a correlated query means, by lexical scoping: each name is the innermost source's that owns it.

module Scope {
  import opened Option
  import opened Fold
  import opened Tds
  import opened Exec
  import opened Rows
  import opened JoinExec
  import Planner
  import opened Aggregates
  import opened Binder
  import opened Hoist
  import opened PassedOver

  // ---------- The engine's parts that do not look at names ----------

  datatype Rel = Rel(cols: seq<string>, rows: seq<Row>)

  // A select item apart from the expressions the walk rewrites.
  datatype ItemInfo = ItemInfo(name: string, star: string, agg: string, arg: string,
                               window: Option<(string, seq<string>, seq<OrderItem>)>)

  // An ORDER BY term apart from its value: a bare name may be a select alias.
  datatype OrderInfo = OrderInfo(bare: string, desc: bool, caseSensitive: bool)

  // A row that reaches the select list: a filtered row, or a group with the row that stands for it.
  datatype Context = Context(row: Row, group: Option<seq<Row>>)

  // What a select item reads there: its value, its aggregate's argument over the group, its plain names over the
  // group, and its window's arguments and order.
  datatype OutItem = OutItem(value: Value, args: seq<Value>, plain: seq<seq<Value>>,
                             windowArgs: seq<Value>, windowOrder: seq<Value>)

  datatype Out = Out(context: Context, items: seq<OutItem>, orders: seq<Value>)

  // Tables, table functions, PIVOT, grouping, aggregates, set operations, and what a SELECT does with its
  // evaluated rows (DISTINCT, windows, ORDER BY, paging), none of which reads an enclosing row.
  datatype Machine = Machine(
    lib: Library,
    agg: Aggregator,
    scalar: (string, seq<Value>) -> Value,
    table: (string, string) -> Rel,
    rowset: (string, seq<Value>) -> Rel,
    values: (string, seq<seq<Value>>) -> Rel,
    rotate: (Shape, Rel) -> Rel,
    contexts: (Shape, seq<ItemInfo>, Index, seq<Row>, seq<seq<Value>>) -> seq<Context>,
    finish: (bool, Shape, seq<ItemInfo>, seq<OrderInfo>, seq<string>, seq<Out>) -> Rel,
    combine: (seq<Rel>, seq<SetOp>) -> Rel,
    page: (Shape, seq<OrderInfo>, Rel, seq<seq<Value>>) -> Rel)

  function ItemName(it: SelectItem): string {
    if it.alias != "" then it.alias else ShortName(it.column)
  }

  function Info(it: SelectItem): ItemInfo {
    ItemInfo(ItemName(it), if IsStar(it.column) then it.column else "", it.agg, it.arg,
      if it.window.Some? then Some((it.window.value.func, it.window.value.partitionBy, it.window.value.orderBy))
      else None)
  }

  function Infos(items: seq<SelectItem>): seq<ItemInfo> {
    if items == [] then [] else [Info(items[0])] + Infos(items[1..])
  }

  function OrderOf(o: OrderItem): OrderInfo {
    OrderInfo(if Qualifier(o.column) == "" then o.column else "", o.desc, o.caseSensitive)
  }

  function OrderInfos(os: seq<OrderItem>): seq<OrderInfo> {
    if os == [] then [] else [OrderOf(os[0])] + OrderInfos(os[1..])
  }

  // ---------- Scopes ----------

  // Inside a query: its columns, the names its sources own, what encloses it, the group if any, and whether
  // subqueries run here (VALUES cells and table function arguments are evaluated without an *Env).
  datatype Scope = Scope(idx: Index, local: set<string>, quals: set<string>, joined: bool,
                         outer: Resolver, group: Option<seq<Row>>, runs: bool)

  // A name is the enclosing query's unless a source of this query owns it.
  ghost function Read(sc: Scope, row: Row, name: string): Value {
    if IsOuter(sc, name) then sc.outer(name).value else Lookup(sc.idx, row, name)
  }

  function Shadow(outer: Resolver, local: set<string>): Resolver {
    name => if Owner(name) in local then None else outer(name)
  }

  function Over(first: Resolver, then_: Resolver): Resolver {
    name => if first(name).Some? then first(name) else then_(name)
  }

  // What encloses a subquery met at this row.
  ghost function Around(sc: Scope, row: Row): Resolver {
    Over(Shadow(sc.outer, sc.local), RowResolver(row, sc.idx, sc.quals, sc.joined))
  }

  // leftRowResolver: an APPLY's right side sees the qualified columns of the left row.
  ghost function LeftRow(idx: Index, row: Row): Resolver {
    RowResolver(row, idx, set c | c in idx :: Owner(c), true)
  }

  // ---------- Meaning ----------

  // A separator is a literal, or an enclosing query's column, whose value is one.
  ghost function RefSeparator(sc: Scope, args: seq<ValueExpr>): string {
    if |args| >= 2 && args[1].Col? && IsOuter(sc, args[1].col)
    then Separator([args[0], Lit(sc.outer(args[1].col).value)])
    else Separator(args)
  }

  ghost predicate IsOuter(sc: Scope, name: string) {
    Qualifier(name) != "" && Owner(name) !in sc.local && sc.outer(name).Some?
  }

  ghost function RefValue(m: Machine, sc: Scope, row: Row, e: ValueExpr): Value
    decreases e, 0
  {
    match e
    case Lit(v) => v
    case Col(c) => Read(sc, row, c)
    case Binary(op, l, r) => m.lib.binary(op, RefValue(m, sc, row, l), RefValue(m, sc, row, r))
    case Func(name, args, distinct) =>
      if sc.group.Some? && m.agg.isAgg(name) then
        m.agg.over(name, distinct, RefSeparator(sc, args), |sc.group.value|,
          if IsStarCall(args) then None else Some(RefOver(m, sc.(group := None), sc.group.value, args[0])))
      else m.scalar(name, RefValues(m, sc, row, args))
    case Case(operand, whens, els) =>
      var v := if operand.Some? then RefValue(m, sc, row, operand.value) else Null;
      var d := if els.Some? then RefValue(m, sc, row, els.value) else Null;
      RefCase(m, sc, row, v, whens, d)
    case Cast(typ, arg, style) => m.lib.cast(typ, RefValue(m, sc, row, arg), RefValues(m, sc, row, style))
    case Subquery(q) => if sc.runs then FirstCell(RefQuery(m, q, Around(sc, row)).rows) else Null
  }

  ghost function RefOver(m: Machine, sc: Scope, rows: seq<Row>, e: ValueExpr): seq<Value>
    decreases e, 1, |rows|
  {
    if rows == [] then [] else [RefValue(m, sc, rows[0], e)] + RefOver(m, sc, rows[1..], e)
  }

  ghost function RefValues(m: Machine, sc: Scope, row: Row, es: seq<ValueExpr>): seq<Value>
    decreases es, 0
  {
    if es == [] then [] else [RefValue(m, sc, row, es[0])] + RefValues(m, sc, row, es[1..])
  }

  ghost function RefCase(m: Machine, sc: Scope, row: Row, v: Value, ws: seq<When>, els: Value): Value
    decreases ws, 0
  {
    if ws == [] then els
    else match RefWhen(m, sc, row, v, ws[0])
      case Some(r) => r
      case None => RefCase(m, sc, row, v, ws[1..], els)
  }

  ghost function RefWhen(m: Machine, sc: Scope, row: Row, v: Value, w: When): Option<Value>
    decreases w, 0
  {
    match w
    case Searched(cond, r) => if RefTruth(m, sc, row, cond) == True then Some(RefValue(m, sc, row, r)) else None
    case Simple(e, r) =>
      if Compare(m.lib.coerce, v, RefValue(m, sc, row, e), false) == Some(0) then Some(RefValue(m, sc, row, r))
      else None
  }

  ghost function RefOperand(m: Machine, sc: Scope, row: Row, o: Operand): Value
    decreases o, 0
  {
    match o
    case Constant(v) => v
    case List(_) => Null
    case ColRef(c) => Read(sc, row, c)
    case Computed(e) => RefValue(m, sc, row, e)
  }

  function Listed(o: Operand): seq<Value> { if o.List? then o.vs else [] }

  // A predicate on values.
  function Test(lib: Library, op: Op, v: Value, list: seq<Value>, rhs: Value, exact: bool, esc: Option<char>): Truth {
    match op
    case IsNull => NullTruth(IsNull, v)
    case IsNotNull => NullTruth(IsNotNull, v)
    case In => InTruth(lib, v, list, exact)
    case Like => LikeTruth(lib, v, rhs, exact, esc)
    case _ => CmpTruth(lib, op, v, rhs, exact)
  }

  // The parser gives a predicate a column or a left expression, never both.
  ghost function RefSubject(m: Machine, sc: Scope, row: Row, p: Predicate): Value
    decreases p, 0
  {
    if p.column != "" || p.leftExpr.None? then Read(sc, row, p.column) else RefValue(m, sc, row, p.leftExpr.value)
  }

  ghost function RefPred(m: Machine, sc: Scope, row: Row, p: Predicate): Truth
    decreases p, 1
  {
    if p.op == Exists && p.sub.Some? then
      (if sc.runs then TruthOf(|RefQuery(m, p.sub.value, Around(sc, row)).rows| > 0) else False)
    else
      var v := RefSubject(m, sc, row, p);
      if p.op == In && p.sub.Some? then
        (if sc.runs then InTruth(m.lib, v, FirstColumn(RefQuery(m, p.sub.value, Around(sc, row)).rows), p.caseSensitive)
         else False)
      else Test(m.lib, p.op, v, Listed(p.value), RefOperand(m, sc, row, p.value), p.caseSensitive, p.escape)
  }

  ghost function RefTruth(m: Machine, sc: Scope, row: Row, e: Expr): Truth
    decreases e, 0
  {
    match e
    case Const(b) => TruthOf(b)
    case Pred(p) => RefPred(m, sc, row, p)
    case Not(n) => RefTruth(m, sc, row, n).Not()
    case And(es) => RefAnd(m, sc, row, es)
    case Or(es) => if es == [] then True else RefOr(m, sc, row, es)
  }

  ghost function RefAnd(m: Machine, sc: Scope, row: Row, es: seq<Expr>): Truth
    decreases es, 0
  {
    if es == [] then True
    else
      var t := RefTruth(m, sc, row, es[0]);
      var rest := RefAnd(m, sc, row, es[1..]);
      if t == False || rest == False then False else if t == Unknown then Unknown else rest
  }

  ghost function RefOr(m: Machine, sc: Scope, row: Row, es: seq<Expr>): Truth
    decreases es, 0
  {
    if es == [] then False
    else
      var t := RefTruth(m, sc, row, es[0]);
      var rest := RefOr(m, sc, row, es[1..]);
      if t == True || rest == True then True else if t == Unknown then Unknown else rest
  }

  ghost predicate RefKeeps(m: Machine, sc: Scope, row: Row, e: Option<Expr>)
    decreases e, 0
  {
    e.Some? ==> RefTruth(m, sc, row, e.value) == True
  }

  function Bare(idx: Index, local: set<string>, outer: Resolver): Scope {
    Scope(idx, local, {}, false, outer, None, false)
  }

  ghost function RefRowset(m: Machine, f: TableFunc, outer: Resolver): Rel
    decreases f, 0
  {
    m.rowset(f.name, RefValues(m, Bare(map[], {}, outer), [], f.args))
  }

  ghost function RefCells(m: Machine, sc: Scope, row: Row, rows: seq<ValuesRow>): seq<seq<Value>>
    decreases rows, 0
  {
    if rows == [] then [] else [RefCellRow(m, sc, row, rows[0])] + RefCells(m, sc, row, rows[1..])
  }

  ghost function RefCellRow(m: Machine, sc: Scope, row: Row, r: ValuesRow): seq<Value>
    decreases r, 0
  {
    RefValues(m, sc, row, r.cells)
  }

  function IsApply(jt: JoinType): bool { jt == CrossApply || jt == OuterApply }

  // A query's own columns and what encloses it, as its joins see them.
  datatype Frame = Frame(local: set<string>, quals: set<string>, outer: Resolver)

  // The right side of a join; under APPLY it also sees the left row. The walk hides the names of the query's own
  // sources from a joined derived table, and so does this, although no sibling answers for them there.
  ghost function RefRight(m: Machine, j: Join, fr: Frame, idx: Index, row: Row): Rel
    decreases j, 0
  {
    var apply := IsApply(j.jt);
    var hidden := Shadow(fr.outer, fr.local);
    var outer := if apply then Over(hidden, LeftRow(idx, row)) else hidden;
    var cells := if apply then Bare(idx, fr.local, fr.outer) else Bare(map[], fr.local, fr.outer);
    if j.fromValues != [] then m.values(j.alias, RefCells(m, cells, if apply then row else [], j.fromValues))
    else if j.fromSub.Some? then RefQuery(m, j.fromSub.value, outer)
    else if j.fromFunc.Some? then RefRowset(m, j.fromFunc.value, outer)
    else m.table(j.schema, j.table)
  }

  function Named(r: Rel, alias: string): Rel { Rel(Planner.Qualify(r.cols, alias), r.rows) }

  function JoinAlias(j: Join): string { if j.alias != "" then j.alias else j.table }

  // applyJoin: the right side once per left row; a left input without rows is probed for its columns.
  function RunApply(left: Rel, outer: bool, alias: string, right: Row -> Rel): Rel {
    var probe := if left.rows != [] then left.rows[0] else seq(|left.cols|, _ => Str(""));
    Rel(left.cols + Named(right(probe), alias).cols, Flat(ApplyRow(outer, right), left.rows))
  }

  function ApplyRow(outer: bool, right: Row -> Rel): Row -> seq<Row> {
    l => if right(l).rows == [] && outer then [l + Nulls(|right(l).cols|)] else Flat(Pair(l, _ => true), right(l).rows)
  }

  function RunJoin(left: Rel, jt: JoinType, right: Rel, keep: Row -> bool): Rel {
    Rel(left.cols + right.cols, JoinRows(left.rows, jt, |left.cols|, right.rows, |right.cols|, keep))
  }

  ghost function OnScope(fr: Frame, cols: seq<string>): Scope {
    Scope(Planner.IndexCols(cols), fr.local, fr.quals, true, fr.outer, None, true)
  }

  ghost function RefJoin(m: Machine, left: Rel, j: Join, fr: Frame): Rel
    decreases j, 1
  {
    var idx := Planner.IndexCols(left.cols);
    if IsApply(j.jt) then RunApply(left, j.jt == OuterApply, JoinAlias(j), row => RefRight(m, j, fr, idx, row))
    else
      var right := Named(RefRight(m, j, fr, idx, []), JoinAlias(j));
      var sc := OnScope(fr, left.cols + right.cols);
      RunJoin(left, j.jt, right, x => RefKeeps(m, sc, x, j.on))
  }

  ghost function RefJoins(m: Machine, left: Rel, js: seq<Join>, fr: Frame): Rel
    decreases js, 0
  {
    if js == [] then left else RefJoins(m, RefJoin(m, left, js[0], fr), js[1..], fr)
  }

  // ---------- SELECT ----------

  ghost function RefCell(m: Machine, sc: Scope, row: Row, it: SelectItem): Value
    decreases it, 0
  {
    if it.column != "" then (if IsStar(it.column) then Null else Read(sc, row, it.column))
    else if it.expr.Some? then RefValue(m, sc, row, it.expr.value) else Null
  }

  ghost function RefItem(m: Machine, sc: Scope, all: seq<Row>, row: Row, it: SelectItem): OutItem
    decreases it, 1
  {
    OutItem(RefCell(m, sc, row, it),
      if it.argExpr.Some? then RefOver(m, sc.(group := None), all, it.argExpr.value) else [],
      ReadNames(sc.(group := None), all, PlainNames(it)),
      if it.window.Some? then RefWindow(m, sc, row, it.window.value) else [],
      if it.window.Some? then RefWindowOrder(m, sc, row, it.window.value) else [])
  }

  // Names over some rows.
  ghost function ReadNames(sc: Scope, rows: seq<Row>, names: seq<string>): (r: seq<seq<Value>>)
    ensures |r| == |names|
  {
    seq(|names|, k requires 0 <= k < |names| => ReadOver(sc, rows, names[k]))
  }

  ghost function ReadOver(sc: Scope, rows: seq<Row>, name: string): (vs: seq<Value>)
    ensures |vs| == |rows|
  {
    seq(|rows|, i requires 0 <= i < |rows| => Read(sc, rows[i], name))
  }

  ghost function RefWindow(m: Machine, sc: Scope, row: Row, w: WindowSpec): seq<Value>
    decreases w, 0
  {
    RefValues(m, sc, row, w.args)
  }

  ghost function RefWindowOrder(m: Machine, sc: Scope, row: Row, w: WindowSpec): seq<Value>
    decreases w, 0
  {
    RefOrders(m, sc, row, w.orderBy)
  }

  ghost function RefItems(m: Machine, sc: Scope, all: seq<Row>, row: Row, items: seq<SelectItem>): seq<OutItem>
    decreases items, 0
  {
    if items == [] then [] else [RefItem(m, sc, all, row, items[0])] + RefItems(m, sc, all, row, items[1..])
  }

  ghost function RefOrder(m: Machine, sc: Scope, row: Row, o: OrderItem): Value
    decreases o, 0
  {
    if o.column != "" || o.expr.None? then Read(sc, row, o.column) else RefValue(m, sc, row, o.expr.value)
  }

  ghost function RefOrders(m: Machine, sc: Scope, row: Row, os: seq<OrderItem>): seq<Value>
    decreases os, 0
  {
    if os == [] then [] else [RefOrder(m, sc, row, os[0])] + RefOrders(m, sc, row, os[1..])
  }

  ghost function RefOut(m: Machine, sc: Scope, q: Query, arm: bool, c: Context): Out
    decreases q, 0
  {
    var here := sc.(group := c.group);
    var all := if c.group.Some? then c.group.value else [c.row];
    Out(c, RefItems(m, here, all, c.row, q.select), if arm then [] else RefOrders(m, here, c.row, q.orderBy))
  }

  ghost function RefOuts(m: Machine, sc: Scope, q: Query, arm: bool, cs: seq<Context>): seq<Out>
    decreases q, 1, |cs|
  {
    if cs == [] then [] else [RefOut(m, sc, q, arm, cs[0])] + RefOuts(m, sc, q, arm, cs[1..])
  }

  function FrameOf(q: Query, outer: Resolver): Frame { Frame(WithSources({}, q), SourceQuals(q, false), outer) }

  // FROM and the joins; one source alone keeps its bare column names.
  ghost function RefFrom(m: Machine, q: Query, outer: Resolver): Rel
    decreases q, 1
  {
    var from := if q.fromSub.Some? then RefQuery(m, q.fromSub.value, outer)
      else if q.fromFunc.Some? then RefRowset(m, q.fromFunc.value, outer)
      else m.table(q.schema, q.table);
    var alias := if q.alias != "" then q.alias else q.table;
    m.rotate(q.shape, if q.joins == [] then from else RefJoins(m, Named(from, alias), q.joins, FrameOf(q, outer)))
  }

  ghost function SelectScope(q: Query, cols: seq<string>, outer: Resolver): Scope {
    Scope(Planner.IndexCols(cols), WithSources({}, q), SourceQuals(q, false), q.joins != [], outer, None, true)
  }

  ghost function RefWhere(m: Machine, sc: Scope, q: Query, rows: seq<Row>): seq<Row>
    decreases q, 0
  {
    Filter(row => RefKeeps(m, sc, row, q.where), rows)
  }

  ghost function RefHaving(m: Machine, sc: Scope, q: Query, cs: seq<Context>): seq<Context>
    decreases q, 0
  {
    Filter((c: Context) => RefKeeps(m, sc.(group := c.group), c.row, q.having), cs)
  }

  // One SELECT; an arm of a set operation leaves ordering and paging to the whole.
  ghost function RefSelect(m: Machine, q: Query, arm: bool, outer: Resolver): Rel
    decreases q, 2
  {
    var from := RefFrom(m, q, outer);
    var sc := SelectScope(q, from.cols, outer);
    var rows := RefWhere(m, sc, q, from.rows);
    var cs := m.contexts(q.shape, Infos(q.select), sc.idx, rows, ReadNames(sc, rows, GroupNames(q.shape)));
    m.finish(arm, q.shape, Infos(q.select), if arm then [] else OrderInfos(q.orderBy), from.cols,
      RefOuts(m, sc, q, arm, RefHaving(m, sc, q, cs)))
  }

  function Ops(q: Query): seq<SetOp>
    decreases q
  {
    if q.union.Some? then [q.setOp] + Ops(q.union.value) else []
  }

  ghost function RefArms(m: Machine, q: Query, outer: Resolver): seq<Rel>
    decreases q, 3
  {
    [RefSelect(m, q, true, outer)] + (if q.union.Some? then RefArms(m, q.union.value, outer) else [])
  }

  ghost function RefOrderRows(m: Machine, sc: Scope, q: Query, rows: seq<Row>): seq<seq<Value>>
    decreases q, 1, |rows|
  {
    if rows == [] then [] else [RefOrders(m, sc, rows[0], q.orderBy)] + RefOrderRows(m, sc, q, rows[1..])
  }

  // The last arm's ORDER BY and paging apply to the whole.
  ghost function RefTail(m: Machine, q: Query, all: Rel, outer: Resolver): Rel
    decreases q, 3
  {
    if q.union.Some? then RefTail(m, q.union.value, all, outer)
    else m.page(q.shape, OrderInfos(q.orderBy), all,
      RefOrderRows(m, Bare(Planner.IndexCols(all.cols), WithSources({}, q), outer), q, all.rows))
  }

  // The rows of q where outer answers for the names no source of q owns.
  ghost function RefQuery(m: Machine, q: Query, outer: Resolver): Rel
    decreases q, 4
  {
    if q.union.None? then RefSelect(m, q, false, outer)
    else RefTail(m, q, m.combine(RefArms(m, q, outer), Ops(q)), outer)
  }
}
