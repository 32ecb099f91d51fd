// The expression evaluator: SQL truth values (internal/exec/truth.go), scalar expressions
// (internal/exec/value.go) and predicates (evalPred in internal/exec/exec.go).

module Exec {
  import opened Option
  import opened Fold
  import opened Tds
  import Like

  type Index = map<string, nat>

  // ---------- Column names ----------

  // The index just after the last '.' of a name, 0 when it has none.
  function AfterDot(name: string): (k: nat)
    ensures k <= |name|
    ensures k > 0 ==> name[k - 1] == '.'
    ensures forall i :: k <= i < |name| ==> name[i] != '.'
  {
    if name == [] then 0
    else if name[|name| - 1] == '.' then |name|
    else AfterDot(name[..|name| - 1])
  }

  function ShortName(name: string): string { name[AfterDot(name)..] }

  // resolveCol: the name itself, or what follows its last dot.
  function ResolveCol(idx: Index, name: string): Option<nat> {
    if name in idx then Some(idx[name])
    else if AfterDot(name) > 0 && ShortName(name) in idx then Some(idx[ShortName(name)])
    else None
  }

  // A name that resolves to nothing is an error in the engine; here it reads as NULL.
  function Lookup(idx: Index, row: Row, name: string): Value {
    match ResolveCol(idx, name)
    case Some(i) => if i < |row| then row[i] else Null
    case None => Null
  }

  // ---------- Truth values ----------

  datatype Truth = False | True | Unknown {
    function Not(): Truth {
      match this
      case True => False
      case False => True
      case Unknown => Unknown
    }
  }

  function TruthOf(b: bool): Truth { if b then True else False }

  function Satisfies(op: Op, c: int): bool {
    match op
    case Eq => c == 0
    case Ne => c != 0
    case Lt => c < 0
    case Le => c <= 0
    case Gt => c > 0
    case Ge => c >= 0
    case _ => false
  }

  // ---------- What the evaluator calls but does not define ----------

  // Mixed-kind comparison, arithmetic, the scalar function library, CAST and text rendering.
  datatype Library = Library(
    coerce: Coercion,
    binary: (string, Value, Value) -> Value,
    func: (string, seq<Value>) -> Value,
    cast: (string, Value, seq<Value>) -> Value,
    text: Value -> string)

  // *Env: the runner of correlated subqueries and the catalog scalars. A nil *Env has neither.
  datatype Env = Nil | Env(sub: (Row, Index, Query) -> seq<Row>, scalar: (string, seq<Value>) -> Value)

  // Scalars that evalFunc answers from *Env rather than from the function registry.
  predicate IsEnvScalar(name: string) {
    name in ["OBJECT_NAME", "DB_NAME", "COL_NAME", "COL_LENGTH", "COLUMNPROPERTY", "OBJECTPROPERTY",
      "OBJECTPROPERTYEX", "OBJECT_DEFINITION", "INDEXPROPERTY", "INDEXKEY_PROPERTY", "ERROR_MESSAGE",
      "ERROR_NUMBER", "ERROR_SEVERITY", "ERROR_STATE", "ERROR_LINE", "ERROR_PROCEDURE", "@@SPID"]
  }

  function EvalFunc(lib: Library, env: Env, name: string, args: seq<Value>): Value {
    if IsEnvScalar(name) && env.Env? then env.scalar(name, args)
    else if IsEnvScalar(name) && name != "@@SPID" then Null
    else lib.func(name, args)
  }

  // ---------- Predicates on values ----------

  function CmpTruth(lib: Library, op: Op, v: Value, rhs: Value, exact: bool): Truth {
    match Compare(lib.coerce, v, rhs, exact)
    case None => Unknown
    case Some(c) => TruthOf(Satisfies(op, c))
  }

  // x IN (list): true on a match, unknown when some member leaves it open, else false.
  function InTruth(lib: Library, v: Value, list: seq<Value>, exact: bool): Truth {
    if list == [] then False
    else
      var t := CmpTruth(lib, Eq, v, list[0], exact);
      if t == True then True
      else
        var rest := InTruth(lib, v, list[1..], exact);
        if rest == True then True else if t == Unknown then Unknown else rest
  }

  method RunInTruth(lib: Library, v: Value, list: seq<Value>, exact: bool) returns (out: Truth)
    ensures out == InTruth(lib, v, list, exact)
    ensures out == True <==> exists i :: 0 <= i < |list| && Compare(lib.coerce, v, list[i], exact) == Some(0)
    ensures out == False <==>
      forall i :: 0 <= i < |list| ==> CmpTruth(lib, Eq, v, list[i], exact) == False
  {
    out := False;
    assert list[0..] == list;
    for i := 0 to |list|
      invariant out != True
      invariant InTruth(lib, v, list, exact) ==
        (if InTruth(lib, v, list[i..], exact) == True then True
         else if out == Unknown then Unknown else InTruth(lib, v, list[i..], exact))
      invariant forall j :: 0 <= j < i ==> Compare(lib.coerce, v, list[j], exact) != Some(0)
      invariant out == False <==> forall j :: 0 <= j < i ==> CmpTruth(lib, Eq, v, list[j], exact) == False
    {
      assert list[i..][1..] == list[i + 1..];
      var t := CmpTruth(lib, Eq, v, list[i], exact);
      if t == True { return True; }
      if t == Unknown { out := Unknown; }
    }
  }

  // Trailing blanks of the text are ignored, those of the pattern are significant.
  function LikeTruth(lib: Library, v: Value, pat: Value, exact: bool, esc: Option<char>): Truth {
    if v.Null? || pat.Null? then Unknown
    else
      var s, p := lib.text(v), lib.text(pat);
      TruthOf(Like.LikeMatch(s, p, exact, esc) || (Pad(s) != s && Like.LikeMatch(Pad(s), p, exact, esc)))
  }

  function NullTruth(op: Op, v: Value): Truth {
    TruthOf(if op == IsNull then v.Null? else !v.Null?)
  }

  function FirstColumn(rows: seq<Row>): seq<Value> {
    if rows == [] then []
    else (if rows[0] == [] then [] else [rows[0][0]]) + FirstColumn(rows[1..])
  }

  function FirstCell(rows: seq<Row>): Value {
    if rows != [] && rows[0] != [] then rows[0][0] else Null
  }

  // ---------- The evaluator ----------

  function EvalValue(lib: Library, env: Env, idx: Index, row: Row, e: ValueExpr): Value
    decreases e, 0
  {
    match e
    case Lit(v) => v
    case Col(c) => Lookup(idx, row, c)
    case Binary(op, l, r) => lib.binary(op, EvalValue(lib, env, idx, row, l), EvalValue(lib, env, idx, row, r))
    case Func(name, args, _) => EvalFunc(lib, env, name, EvalValues(lib, env, idx, row, args))
    case Case(operand, whens, els) =>
      var v := if operand.Some? then EvalValue(lib, env, idx, row, operand.value) else Null;
      var d := if els.Some? then EvalValue(lib, env, idx, row, els.value) else Null;
      EvalCase(lib, env, idx, row, v, whens, d)
    case Cast(typ, arg, style) =>
      lib.cast(typ, EvalValue(lib, env, idx, row, arg), EvalValues(lib, env, idx, row, style))
    case Subquery(q) => if env.Nil? then Null else FirstCell(env.sub(row, idx, q))
  }

  function EvalValues(lib: Library, env: Env, idx: Index, row: Row, es: seq<ValueExpr>): (vs: seq<Value>)
    ensures |vs| == |es|
    decreases es, 0
  {
    if es == [] then [] else [EvalValue(lib, env, idx, row, es[0])] + EvalValues(lib, env, idx, row, es[1..])
  }

  // The first WHEN that holds decides; a simple CASE compares with the folding collation.
  function EvalCase(lib: Library, env: Env, idx: Index, row: Row, operand: Value, whens: seq<When>, els: Value): Value
    decreases whens, 0
  {
    if whens == [] then els
    else
      match EvalWhen(lib, env, idx, row, operand, whens[0])
      case Some(v) => v
      case None => EvalCase(lib, env, idx, row, operand, whens[1..], els)
  }

  function EvalWhen(lib: Library, env: Env, idx: Index, row: Row, operand: Value, w: When): Option<Value>
    decreases w, 0
  {
    match w
    case Searched(cond, result) =>
      if EvalTruth(lib, env, idx, row, cond) == True then Some(EvalValue(lib, env, idx, row, result)) else None
    case Simple(e, result) =>
      if Compare(lib.coerce, operand, EvalValue(lib, env, idx, row, e), false) == Some(0)
      then Some(EvalValue(lib, env, idx, row, result)) else None
  }

  function EvalOperand(lib: Library, env: Env, idx: Index, row: Row, o: Operand): Value
    decreases o, 0
  {
    match o
    case Constant(v) => v
    case List(_) => Null
    case ColRef(c) => Lookup(idx, row, c)
    case Computed(e) => EvalValue(lib, env, idx, row, e)
  }

  function EvalPred(lib: Library, env: Env, idx: Index, row: Row, p: Predicate): Truth
    decreases p, 0
  {
    if p.op == Exists && p.sub.Some? then
      (if env.Nil? then False else TruthOf(|env.sub(row, idx, p.sub.value)| > 0))
    else
      var v := if p.leftExpr.Some? then EvalValue(lib, env, idx, row, p.leftExpr.value)
               else Lookup(idx, row, p.column);
      if p.op == In && p.sub.Some? then
        (if env.Nil? then False
         else InTruth(lib, v, FirstColumn(env.sub(row, idx, p.sub.value)), p.caseSensitive))
      else match p.op
        case IsNull => NullTruth(IsNull, v)
        case IsNotNull => NullTruth(IsNotNull, v)
        case In => InTruth(lib, v, if p.value.List? then p.value.vs else [], p.caseSensitive)
        case Like => LikeTruth(lib, v, EvalOperand(lib, env, idx, row, p.value), p.caseSensitive, p.escape)
        case _ => CmpTruth(lib, p.op, v, EvalOperand(lib, env, idx, row, p.value), p.caseSensitive)
  }

  function EvalTruth(lib: Library, env: Env, idx: Index, row: Row, e: Expr): Truth
    decreases e, 0
  {
    match e
    case Const(b) => TruthOf(b)
    case Pred(p) => EvalPred(lib, env, idx, row, p)
    case Not(n) => EvalTruth(lib, env, idx, row, n).Not()
    case And(es) => EvalAnd(lib, env, idx, row, es)
    case Or(es) => if es == [] then True else EvalOr(lib, env, idx, row, es)
  }

  // AND is false on any false operand, else unknown on any unknown one.
  function EvalAnd(lib: Library, env: Env, idx: Index, row: Row, es: seq<Expr>): Truth
    decreases es, 0
  {
    if es == [] then True
    else
      var t := EvalTruth(lib, env, idx, row, es[0]);
      if t == False then False
      else
        var rest := EvalAnd(lib, env, idx, row, es[1..]);
        if rest == False then False else if t == Unknown then Unknown else rest
  }

  function EvalOr(lib: Library, env: Env, idx: Index, row: Row, es: seq<Expr>): Truth
    decreases es, 0
  {
    if es == [] then False
    else
      var t := EvalTruth(lib, env, idx, row, es[0]);
      if t == True then True
      else
        var rest := EvalOr(lib, env, idx, row, es[1..]);
        if rest == True then True else if t == Unknown then Unknown else rest
  }

  // evalExpr: only TRUE keeps a row. A nil expression keeps every row.
  predicate Keeps(lib: Library, env: Env, idx: Index, row: Row, e: Option<Expr>) {
    e.Some? ==> EvalTruth(lib, env, idx, row, e.value) == True
  }

  // ---------- What an expression reads ----------

  // exprCols: every column name outside subqueries, in the order the walk meets it.
  function ValueCols(e: ValueExpr): seq<string>
    decreases e, 0
  {
    match e
    case Lit(_) => []
    case Col(c) => if c == "" then [] else [c]
    case Binary(_, l, r) => ValueCols(l) + ValueCols(r)
    case Func(_, args, _) => ValuesCols(args)
    case Case(operand, whens, els) =>
      (if operand.Some? then ValueCols(operand.value) else []) + WhensCols(whens) +
      (if els.Some? then ValueCols(els.value) else [])
    case Cast(_, arg, style) => ValueCols(arg) + ValuesCols(style)
    case Subquery(_) => []
  }

  function ValuesCols(es: seq<ValueExpr>): seq<string>
    decreases es, 0
  {
    if es == [] then [] else ValueCols(es[0]) + ValuesCols(es[1..])
  }

  function WhensCols(whens: seq<When>): seq<string>
    decreases whens, 0
  {
    if whens == [] then [] else WhenCols(whens[0]) + WhensCols(whens[1..])
  }

  function WhenCols(w: When): seq<string>
    decreases w, 0
  {
    match w
    case Searched(cond, r) => ExprCols(cond) + ValueCols(r)
    case Simple(e, r) => ValueCols(e) + ValueCols(r)
  }

  function PredCols(p: Predicate): seq<string>
    decreases p, 0
  {
    (if p.column == "" then [] else [p.column]) +
    (if p.leftExpr.Some? then ValueCols(p.leftExpr.value) else []) +
    (match p.value
     case ColRef(c) => [c]
     case Computed(e) => ValueCols(e)
     case _ => [])
  }

  function ExprCols(e: Expr): seq<string>
    decreases e, 0
  {
    match e
    case Const(_) => []
    case Pred(p) => PredCols(p)
    case Not(n) => ExprCols(n)
    case And(es) => ExprsCols(es)
    case Or(es) => ExprsCols(es)
  }

  function ExprsCols(es: seq<Expr>): seq<string>
    decreases es, 0
  {
    if es == [] then [] else ExprCols(es[0]) + ExprsCols(es[1..])
  }

  // ---------- Evaluation reads nothing else ----------

  // Well-formed expressions that run no subquery and, in the second form, call no *Env scalar either.
  predicate LocalValue(e: ValueExpr, pure: bool)
    decreases e, 0
  {
    match e
    case Lit(_) => true
    case Col(c) => c != ""
    case Binary(_, l, r) => LocalValue(l, pure) && LocalValue(r, pure)
    case Func(name, args, _) => (pure ==> !IsEnvScalar(name)) && LocalValues(args, pure)
    case Case(operand, whens, els) =>
      && (operand.Some? ==> LocalValue(operand.value, pure))
      && LocalWhens(whens, pure)
      && (els.Some? ==> LocalValue(els.value, pure))
    case Cast(_, arg, style) => LocalValue(arg, pure) && LocalValues(style, pure)
    case Subquery(_) => false
  }

  predicate LocalValues(es: seq<ValueExpr>, pure: bool)
    decreases es, 0
  {
    es == [] || (LocalValue(es[0], pure) && LocalValues(es[1..], pure))
  }

  predicate LocalWhens(whens: seq<When>, pure: bool)
    decreases whens, 0
  {
    whens == [] || (LocalWhen(whens[0], pure) && LocalWhens(whens[1..], pure))
  }

  predicate LocalWhen(w: When, pure: bool)
    decreases w, 0
  {
    match w
    case Searched(cond, r) => LocalExpr(cond, pure) && LocalValue(r, pure)
    case Simple(e, r) => LocalValue(e, pure) && LocalValue(r, pure)
  }

  predicate LocalPred(p: Predicate, pure: bool)
    decreases p, 0
  {
    && p.sub.None?
    && (p.leftExpr.None? ==> p.column != "")
    && (p.leftExpr.Some? ==> LocalValue(p.leftExpr.value, pure))
    && (p.value.Computed? ==> LocalValue(p.value.e, pure))
  }

  predicate LocalExpr(e: Expr, pure: bool)
    decreases e, 0
  {
    match e
    case Const(_) => true
    case Pred(p) => LocalPred(p, pure)
    case Not(n) => LocalExpr(n, pure)
    case And(es) => LocalExprs(es, pure)
    case Or(es) => LocalExprs(es, pure)
  }

  predicate LocalExprs(es: seq<Expr>, pure: bool)
    decreases es, 0
  {
    es == [] || (LocalExpr(es[0], pure) && LocalExprs(es[1..], pure))
  }

  // Where an expression is evaluated.
  datatype Site = Site(env: Env, idx: Index, row: Row) {
    function At(name: string): Value { Lookup(idx, row, name) }
  }

  // Two places agree on an expression when they give its columns the same values; an expression that
  // calls *Env scalars also needs the same *Env.
  ghost predicate Agree(a: Site, b: Site, cols: seq<string>, pure: bool) {
    && (pure || a.env == b.env)
    && forall c <- cols :: a.At(c) == b.At(c)
  }

  lemma {:induction false} ValueIsLocal(lib: Library, a: Site, b: Site, e: ValueExpr, pure: bool)
    requires LocalValue(e, pure) && Agree(a, b, ValueCols(e), pure)
    ensures EvalValue(lib, a.env, a.idx, a.row, e) == EvalValue(lib, b.env, b.idx, b.row, e)
    decreases e, 0
  {
    match e
    case Lit(_) =>
    case Col(c) =>
      assert c in ValueCols(e);
    case Binary(_, l, r) =>
      ValueIsLocal(lib, a, b, l, pure);
      ValueIsLocal(lib, a, b, r, pure);
    case Func(_, args, _) =>
      ValuesAreLocal(lib, a, b, args, pure);
    case Case(operand, whens, els) =>
      if operand.Some? { ValueIsLocal(lib, a, b, operand.value, pure); }
      if els.Some? { ValueIsLocal(lib, a, b, els.value, pure); }
      var v := if operand.Some? then EvalValue(lib, a.env, a.idx, a.row, operand.value) else Null;
      var d := if els.Some? then EvalValue(lib, a.env, a.idx, a.row, els.value) else Null;
      CaseIsLocal(lib, a, b, v, whens, d, pure);
    case Cast(_, arg, style) =>
      ValueIsLocal(lib, a, b, arg, pure);
      ValuesAreLocal(lib, a, b, style, pure);
  }

  lemma {:induction false} ValuesAreLocal(lib: Library, a: Site, b: Site, es: seq<ValueExpr>, pure: bool)
    requires LocalValues(es, pure) && Agree(a, b, ValuesCols(es), pure)
    ensures EvalValues(lib, a.env, a.idx, a.row, es) == EvalValues(lib, b.env, b.idx, b.row, es)
    decreases es, 0
  {
    if es != [] {
      ValueIsLocal(lib, a, b, es[0], pure);
      ValuesAreLocal(lib, a, b, es[1..], pure);
    }
  }

  lemma {:induction false} CaseIsLocal(lib: Library, a: Site, b: Site, v: Value, whens: seq<When>, d: Value, pure: bool)
    requires LocalWhens(whens, pure) && Agree(a, b, WhensCols(whens), pure)
    ensures EvalCase(lib, a.env, a.idx, a.row, v, whens, d) == EvalCase(lib, b.env, b.idx, b.row, v, whens, d)
    decreases whens, 0
  {
    if whens != [] {
      WhenIsLocal(lib, a, b, v, whens[0], pure);
      CaseIsLocal(lib, a, b, v, whens[1..], d, pure);
    }
  }

  lemma {:induction false} WhenIsLocal(lib: Library, a: Site, b: Site, v: Value, w: When, pure: bool)
    requires LocalWhen(w, pure) && Agree(a, b, WhenCols(w), pure)
    ensures EvalWhen(lib, a.env, a.idx, a.row, v, w) == EvalWhen(lib, b.env, b.idx, b.row, v, w)
    decreases w, 0
  {
    ValueIsLocal(lib, a, b, w.result, pure);
    match w
    case Searched(cond, _) => TruthIsLocal(lib, a, b, cond, pure);
    case Simple(e, _) => ValueIsLocal(lib, a, b, e, pure);
  }

  lemma {:induction false} PredIsLocal(lib: Library, a: Site, b: Site, p: Predicate, pure: bool)
    requires LocalPred(p, pure) && Agree(a, b, PredCols(p), pure)
    ensures EvalPred(lib, a.env, a.idx, a.row, p) == EvalPred(lib, b.env, b.idx, b.row, p)
    decreases p, 0
  {
    hide CmpTruth, LikeTruth, InTruth, NullTruth, Lookup;
    if p.leftExpr.Some? { ValueIsLocal(lib, a, b, p.leftExpr.value, pure); }
    if p.value.Computed? { ValueIsLocal(lib, a, b, p.value.e, pure); }
    if p.leftExpr.None? { assert p.column in PredCols(p); }
    if p.value.ColRef? { assert p.value.name in PredCols(p); }
  }

  // The truth of a local expression depends on nothing but the columns exprCols lists.
  lemma {:induction false} TruthIsLocal(lib: Library, a: Site, b: Site, e: Expr, pure: bool)
    requires LocalExpr(e, pure) && Agree(a, b, ExprCols(e), pure)
    ensures EvalTruth(lib, a.env, a.idx, a.row, e) == EvalTruth(lib, b.env, b.idx, b.row, e)
    decreases e, 0
  {
    match e
    case Const(_) =>
    case Pred(p) => PredIsLocal(lib, a, b, p, pure);
    case Not(n) => TruthIsLocal(lib, a, b, n, pure);
    case And(es) => TruthsAreLocal(lib, a, b, es, pure);
    case Or(es) => TruthsAreLocal(lib, a, b, es, pure);
  }

  lemma {:induction false} TruthsAreLocal(lib: Library, a: Site, b: Site, es: seq<Expr>, pure: bool)
    requires LocalExprs(es, pure) && Agree(a, b, ExprsCols(es), pure)
    ensures EvalAnd(lib, a.env, a.idx, a.row, es) == EvalAnd(lib, b.env, b.idx, b.row, es)
    ensures EvalOr(lib, a.env, a.idx, a.row, es) == EvalOr(lib, b.env, b.idx, b.row, es)
    decreases es, 0
  {
    if es != [] {
      TruthIsLocal(lib, a, b, es[0], pure);
      TruthsAreLocal(lib, a, b, es[1..], pure);
    }
  }
}
