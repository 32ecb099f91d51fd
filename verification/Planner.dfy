// The join planner (joinQuery and its helpers in internal/engine/engine.go): what it pushes into each
// source's scan, and the loop that fetches, joins and filters.

module Planner {
  import opened Option
  import opened Fold
  import opened Tds
  import opened Exec
  import opened Rows
  import opened JoinExec

  // ---------- Sources and backends ----------

  datatype Kind = IntKind | StrKind | BoolKind

  predicate HasKind(v: Value, k: Kind) {
    match v
    case Null => true
    case Int(_) => k == IntKind
    case Str(_) => k == StrKind
    case Bool(_) => k == BoolKind
  }

  predicate RowTyped(r: Row, kinds: seq<Kind>) {
    |r| == |kinds| && forall i :: 0 <= i < |kinds| ==> HasKind(r[i], kinds[i])
  }

  ghost predicate Typed(rows: seq<Row>, kinds: seq<Kind>) {
    forall r :: r in rows ==> RowTyped(r, kinds)
  }

  datatype Table = Table(cols: seq<string>, kinds: seq<Kind>, rows: seq<Row>)

  // A named table is scanned; a derived table, table function or VALUES list arrives materialised; the
  // right side of an APPLY is computed from each left row.
  datatype Source =
    | Named(table: string, alias: string)
    | Given(alias: string, data: Table)
    | Lateral(alias: string, cols: seq<string>, kinds: seq<Kind>, right: Row -> seq<Row>)

  datatype Step = Step(jt: JoinType, source: Source, on: Option<Expr>)

  // FROM source, joins in order, WHERE.
  datatype Plan = Plan(from: Source, joins: seq<Step>, where: Option<Expr>)

  // The tables, and a backend's answer to a scan of a table with a pushed-down hint.
  datatype World = World(lib: Library, env: Env, tables: map<string, Table>, scan: (string, Option<Expr>) -> seq<Row>)

  function TableOf(w: World, name: string): Table {
    if name in w.tables then w.tables[name] else Table([], [], [])
  }

  function HintOn(w: World, cols: seq<string>, hint: Option<Expr>): Row -> bool {
    row => Keeps(w.lib, w.env, IndexCols(cols), row, hint)
  }

  // A backend may drop rows of a scan, but none on which the hint is TRUE.
  ghost predicate Honest(w: World) {
    forall t, hint :: t in w.tables ==>
      Leaves(w.tables[t].rows, w.scan(t, hint), HintOn(w, w.tables[t].cols, hint))
  }

  // ---------- Column indexes ----------

  function FullNames(cols: seq<string>): Index {
    if cols == [] then map[]
    else FullNames(cols[..|cols| - 1])[cols[|cols| - 1] := |cols| - 1]
  }

  // Short names from position i on, with the ones two columns claim.
  function ShortNames(cols: seq<string>, i: nat, m: Index, dup: set<string>): (Index, set<string>)
    requires i <= |cols|
    decreases |cols| - i
  {
    if i == |cols| then (m, dup)
    else
      var short := ShortName(cols[i]);
      if AfterDot(cols[i]) == 0 then ShortNames(cols, i + 1, m, dup)
      else if short in m then ShortNames(cols, i + 1, m, dup + {short})
      else ShortNames(cols, i + 1, m[short := i], dup)
  }

  // indexCols: full names, then unambiguous short ones.
  function IndexCols(cols: seq<string>): Index {
    var (m, dup) := ShortNames(cols, 0, FullNames(cols), {});
    m - dup
  }

  // The two loops of indexCols.
  method BuildIndex(cols: seq<string>) returns (m: Index)
    ensures m == IndexCols(cols)
  {
    m := map[];
    for i := 0 to |cols|
      invariant m == FullNames(cols[..i])
    {
      assert cols[..i + 1][..i] == cols[..i];
      m := m[cols[i] := i];
    }
    assert cols[..|cols|] == cols;
    var dup: set<string> := {};
    for i := 0 to |cols|
      invariant ShortNames(cols, i, m, dup) == ShortNames(cols, 0, FullNames(cols), {})
    {
      if AfterDot(cols[i]) == 0 { continue; }
      var short := ShortName(cols[i]);
      if short in m {
        dup := dup + {short};
      } else {
        m := m[short := i];
      }
    }
    m := m - dup;
  }

  function Qualify(cols: seq<string>, alias: string): (q: seq<string>)
    ensures |q| == |cols|
  {
    seq(|cols|, i requires 0 <= i < |cols| => alias + "." + cols[i])
  }

  function EffAlias(s: Source): string {
    match s
    case Named(table, alias) => if alias != "" then alias else table
    case Given(alias, _) => alias
    case Lateral(alias, _, _, _) => alias
  }

  function BareCols(w: World, s: Source): seq<string> {
    match s
    case Named(table, _) => TableOf(w, table).cols
    case Given(_, data) => data.cols
    case Lateral(_, cols, _, _) => cols
  }

  function KindsOf(w: World, s: Source): seq<Kind> {
    match s
    case Named(table, _) => TableOf(w, table).kinds
    case Given(_, data) => data.kinds
    case Lateral(_, _, kinds, _) => kinds
  }

  function SourceCols(w: World, s: Source): seq<string> { Qualify(BareCols(w, s), EffAlias(s)) }

  // The columns and kinds of the rows accumulated before join n.
  function ColsBefore(w: World, p: Plan, n: nat): seq<string>
    requires n <= |p.joins|
  {
    if n == 0 then SourceCols(w, p.from) else ColsBefore(w, p, n - 1) + SourceCols(w, p.joins[n - 1].source)
  }

  function KindsBefore(w: World, p: Plan, n: nat): seq<Kind>
    requires n <= |p.joins|
  {
    if n == 0 then KindsOf(w, p.from) else KindsBefore(w, p, n - 1) + KindsOf(w, p.joins[n - 1].source)
  }

  // ---------- What is pushed down ----------

  function FlattenAnd(e: Expr): seq<Expr>
    decreases e, 0
  {
    if e.And? && e.conjuncts != [] then FlattenAll(e.conjuncts) else [e]
  }

  function FlattenAll(es: seq<Expr>): seq<Expr>
    decreases es, 0
  {
    if es == [] then [] else FlattenAnd(es[0]) + FlattenAll(es[1..])
  }

  function Conjuncts(e: Option<Expr>): seq<Expr> {
    if e.None? then [] else FlattenAnd(e.value)
  }

  function Conjoin(keep: seq<Expr>): Option<Expr> {
    if |keep| == 0 then None else if |keep| == 1 then Some(keep[0]) else Some(And(keep))
  }

  predicate QualifiedBy(col: string, alias: string, table: string) {
    alias + "." <= col || table + "." <= col
  }

  // singleTableWhere's test: the conjunct reads columns, all of them named after this source.
  function Attributed(alias: string, table: string): Expr -> bool {
    c => ExprCols(c) != [] && forall i :: 0 <= i < |ExprCols(c)| ==> QualifiedBy(ExprCols(c)[i], alias, table)
  }

  function SingleTableWhere(where: Option<Expr>, alias: string, table: string): Option<Expr> {
    Conjoin(Filter(Attributed(alias, table), Conjuncts(where)))
  }

  // Whether the source joined at i (-1: the FROM) is NULL-extended by some outer join.
  predicate SuppliesNulls(joins: seq<Step>, i: int)
    requires -1 <= i < |joins|
  {
    (i >= 0 && ExtendsLeft(joins[i].jt)) || exists j :: i < j < |joins| && ExtendsRight(joins[j].jt)
  }

  // RejectsNulls: e is not TRUE when every column it reads is NULL, evaluated without *Env.
  function RejectsNulls(lib: Library): Expr -> bool {
    c => EvalTruth(lib, Nil, map x | x in ExprCols(c) :: 0, [Null], c) != True
  }

  function NullRejecting(lib: Library, where: Option<Expr>): Option<Expr> {
    Conjoin(Filter(RejectsNulls(lib), Conjuncts(where)))
  }

  // The WHERE hint for the source at i.
  function Hint(w: World, p: Plan, i: int, table: string, alias: string): Option<Expr>
    requires -1 <= i < |p.joins|
  {
    var single := SingleTableWhere(p.where, alias, table);
    if SuppliesNulls(p.joins, i) then NullRejecting(w.lib, single) else single
  }

  const SEMI_JOIN_CAP := 10000

  // joinKeys: a single equality with exactly one side named after the right table. The names are the
  // left key, the right key as written, and the right key's bare name.
  function JoinKeys(on: Option<Expr>, alias: string, table: string): Option<(string, string)> {
    if on.None? || !on.value.Pred? || on.value.pred.op != Eq then None
    else
      var p := on.value.pred;
      var a := if p.column == "" && p.leftExpr.Some? && p.leftExpr.value.Col? then p.leftExpr.value.col else p.column;
      var b := match p.value
        case Computed(e) => if e.Col? then e.col else ""
        case ColRef(c) => c
        case _ => "";
      if a == "" || b == "" then None
      else if QualifiedBy(a, alias, table) && !QualifiedBy(b, alias, table) then Some((b, a))
      else if QualifiedBy(b, alias, table) && !QualifiedBy(a, alias, table) then Some((a, b))
      else None
  }

  // The key's column: its own name first, else the first column with the same bare name.
  function KeyIndex(cols: seq<string>, key: string): Option<nat> {
    var exact := FirstWhere(cols, (c: string) => c == key, 0);
    if exact.Some? then exact else FirstWhere(cols, (c: string) => ShortName(c) == ShortName(key), 0)
  }

  function FirstWhere(cols: seq<string>, p: string -> bool, i: nat): (r: Option<nat>)
    requires i <= |cols|
    ensures r.Some? ==> i <= r.value < |cols| && p(cols[r.value])
    ensures forall j :: i <= j < (if r.Some? then r.value else |cols|) ==> !p(cols[j])
    decreases |cols| - i
  {
    if i == |cols| then None else if p(cols[i]) then Some(i) else FirstWhere(cols, p, i + 1)
  }

  // Distinct non-NULL values of column k, by printed text, in first-occurrence order.
  function DistinctFrom(text: Value -> string, rows: seq<Row>, k: nat, seen: set<string>): seq<Value> {
    if rows == [] then []
    else if k >= |rows[0]| || rows[0][k].Null? || text(rows[0][k]) in seen then DistinctFrom(text, rows[1..], k, seen)
    else [rows[0][k]] + DistinctFrom(text, rows[1..], k, seen + {text(rows[0][k])})
  }

  function InPredicate(column: string, vals: seq<Value>): Expr {
    Pred(Predicate(column, None, In, List(vals), None, None, false))
  }

  function AndExpr(a: Option<Expr>, b: Expr): Expr {
    if a.None? then b else And([a.value, b])
  }

  // The values a semi-join restricts the right scan to, with the column they restrict.
  function SemiJoin(w: World, p: Plan, n: nat, ls: seq<Row>): Option<(string, seq<Value>)>
    requires n < |p.joins|
  {
    var st := p.joins[n];
    if !st.source.Named? || (st.jt != Inner && st.jt != Left) then None
    else match JoinKeys(st.on, EffAlias(st.source), st.source.table)
      case None => None
      case Some((lk, rk)) =>
        match KeyIndex(ColsBefore(w, p, n), lk)
        case None => None
        case Some(k) =>
          var vals := DistinctFrom(w.lib.text, ls, k, {});
          if 0 < |vals| <= SEMI_JOIN_CAP then Some((ShortName(rk), vals)) else None
  }

  // The whole hint of join n's scan.
  function FullHint(w: World, p: Plan, n: nat, ls: seq<Row>): Option<Expr>
    requires n < |p.joins| && p.joins[n].source.Named?
  {
    var s := p.joins[n].source;
    var hint := Hint(w, p, n, s.table, EffAlias(s));
    match SemiJoin(w, p, n, ls)
    case None => hint
    case Some((col, vals)) => Some(AndExpr(hint, InPredicate(col, vals)))
  }

  // ---------- The rows ----------

  function OnKeep(w: World, p: Plan, n: nat): Row -> bool
    requires n < |p.joins|
  {
    row => Keeps(w.lib, w.env, IndexCols(ColsBefore(w, p, n + 1)), row, p.joins[n].on)
  }

  // One turn of the join loop, given the right rows.
  function StepRows(w: World, p: Plan, n: nat, ls: seq<Row>, rs: seq<Row>): seq<Row>
    requires n < |p.joins|
  {
    var st := p.joins[n];
    var rw := |BareCols(w, st.source)|;
    match st.source
    case Lateral(_, _, _, right) => Flat(Applied(st.jt == OuterApply, right, rw), ls)
    case _ => JoinRows(ls, st.jt, |ColsBefore(w, p, n)|, rs, rw, OnKeep(w, p, n))
  }

  // All of a source's rows, and what the engine fetches of them.
  function AllRows(w: World, s: Source): seq<Row> {
    match s
    case Named(table, _) => TableOf(w, table).rows
    case Given(_, data) => data.rows
    case Lateral(_, _, _, _) => []
  }

  function FetchFrom(w: World, p: Plan): seq<Row> {
    match p.from
    case Named(table, _) => w.scan(table, Hint(w, p, -1, table, EffAlias(p.from)))
    case _ => AllRows(w, p.from)
  }

  function Fetch(w: World, p: Plan, n: nat, ls: seq<Row>): seq<Row>
    requires n < |p.joins|
  {
    match p.joins[n].source
    case Named(table, _) => w.scan(table, FullHint(w, p, n, ls))
    case _ => AllRows(w, p.joins[n].source)
  }

  // The joins from n on: over whole tables, and over what the engine fetches.
  function Whole(w: World, p: Plan, n: nat, ls: seq<Row>): seq<Row>
    requires n <= |p.joins|
    decreases |p.joins| - n
  {
    if n == |p.joins| then ls else Whole(w, p, n + 1, StepRows(w, p, n, ls, AllRows(w, p.joins[n].source)))
  }

  function Pushed(w: World, p: Plan, n: nat, ls: seq<Row>): seq<Row>
    requires n <= |p.joins|
    decreases |p.joins| - n
  {
    if n == |p.joins| then ls else Pushed(w, p, n + 1, StepRows(w, p, n, ls, Fetch(w, p, n, ls)))
  }

  function WhereKeep(w: World, p: Plan): Row -> bool {
    row => Keeps(w.lib, w.env, IndexCols(ColsBefore(w, p, |p.joins|)), row, p.where)
  }

  // ---------- Running it ----------

  method DistinctColValues(text: Value -> string, cols: seq<string>, rows: seq<Row>, key: string)
    returns (out: seq<Value>)
    ensures out == (match KeyIndex(cols, key) case None => [] case Some(k) => DistinctFrom(text, rows, k, {}))
  {
    var at := KeyIndex(cols, key);
    if at.None? { return []; }
    var k := at.value;
    out := [];
    var seen: set<string> := {};
    assert rows[0..] == rows;
    for i := 0 to |rows|
      invariant DistinctFrom(text, rows, k, {}) == out + DistinctFrom(text, rows[i..], k, seen)
    {
      assert rows[i..][1..] == rows[i + 1..];
      var r := rows[i];
      if k >= |r| || r[k].Null? { continue; }
      var key := text(r[k]);
      if key !in seen {
        seen := seen + {key};
        out := out + [r[k]];
      }
    }
  }

  method RunStep(w: World, p: Plan, n: nat, ls: seq<Row>) returns (out: seq<Row>)
    requires n < |p.joins|
    ensures out == StepRows(w, p, n, ls, Fetch(w, p, n, ls))
  {
    var st := p.joins[n];
    var rw := |BareCols(w, st.source)|;
    match st.source {
      case Lateral(_, _, _, right) =>
        out := ApplyLoop(ls, st.jt == OuterApply, right, rw);
      case Given(_, data) =>
        out := NestedLoop(ls, st.jt, |ColsBefore(w, p, n)|, data.rows, rw, OnKeep(w, p, n));
      case Named(table, _) =>
        var rs := w.scan(table, FullHint(w, p, n, ls));
        out := NestedLoop(ls, st.jt, |ColsBefore(w, p, n)|, rs, rw, OnKeep(w, p, n));
    }
  }

  // The filter stage of ApplyWith.
  method RunFilter(keep: Row -> bool, rows: seq<Row>) returns (out: seq<Row>)
    ensures out == Filter(keep, rows)
  {
    out := [];
    for i := 0 to |rows|
      invariant out == Filter(keep, rows[..i])
    {
      assert rows[..i + 1] == rows[..i] + [rows[i]];
      FilterAppend(keep, rows[..i], [rows[i]]);
      if keep(rows[i]) {
        out := out + [rows[i]];
      }
    }
    assert rows[..|rows|] == rows;
  }

  // joinQuery: scan FROM, then join source by source, each scan carrying its hint; filter at the end.
  method JoinQuery(w: World, p: Plan) returns (rows: seq<Row>)
    ensures rows == Filter(WhereKeep(w, p), Pushed(w, p, 0, FetchFrom(w, p)))
  {
    hide StepRows, Fetch, FetchFrom, WhereKeep;
    var acc := FetchFrom(w, p);
    for n := 0 to |p.joins|
      invariant Pushed(w, p, n, acc) == Pushed(w, p, 0, FetchFrom(w, p))
    {
      acc := RunStep(w, p, n, acc);
    }
    rows := RunFilter(WhereKeep(w, p), acc);
  }
}
