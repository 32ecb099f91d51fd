// Aggregate calls inside expressions (hasAggCall and bindAggregates in internal/exec/aggregate.go): a group
// is evaluated by first putting each aggregate's value in the place of its call.

module Aggregates {
  import opened Option
  import opened Fold
  import opened Tds
  import opened Exec

  // Which names are aggregates, and what one yields over a group: the name, DISTINCT, the STRING_AGG
  // separator, and the argument's value on every row of the group, or none for COUNT(*).
  datatype Aggregator = Aggregator(
    isAgg: string -> bool,
    over: (string, bool, string, nat, Option<seq<Value>>) -> Value)

  // ---------- Finding the calls ----------

  // hasAggCall: a subquery's own aggregates belong to it.
  predicate HasAgg(a: Aggregator, e: ValueExpr)
    decreases e, 0
  {
    match e
    case Func(name, args, _) => a.isAgg(name) || AnyAgg(a, args)
    case Binary(_, l, r) => HasAgg(a, l) || HasAgg(a, r)
    case Case(operand, whens, els) =>
      (operand.Some? && HasAgg(a, operand.value)) || (els.Some? && HasAgg(a, els.value)) || WhensHaveAgg(a, whens)
    case Cast(_, arg, style) => HasAgg(a, arg) || AnyAgg(a, style)
    case _ => false
  }

  predicate AnyAgg(a: Aggregator, es: seq<ValueExpr>)
    decreases es, 0
  {
    es != [] && (HasAgg(a, es[0]) || AnyAgg(a, es[1..]))
  }

  predicate WhensHaveAgg(a: Aggregator, ws: seq<When>)
    decreases ws, 0
  {
    ws != [] && (WhenHasAgg(a, ws[0]) || WhensHaveAgg(a, ws[1..]))
  }

  predicate WhenHasAgg(a: Aggregator, w: When)
    decreases w, 0
  {
    match w
    case Searched(cond, r) => ExprHasAgg(a, cond) || HasAgg(a, r)
    case Simple(e, r) => HasAgg(a, e) || HasAgg(a, r)
  }

  predicate ExprHasAgg(a: Aggregator, e: Expr)
    decreases e, 0
  {
    match e
    case And(es) => AnyExprHasAgg(a, es)
    case Or(es) => AnyExprHasAgg(a, es)
    case Not(n) => ExprHasAgg(a, n)
    case Pred(p) => PredHasAgg(a, p)
    case Const(_) => false
  }

  predicate PredHasAgg(a: Aggregator, p: Predicate)
    decreases p, 0
  {
    (p.leftExpr.Some? && HasAgg(a, p.leftExpr.value)) || (p.value.Computed? && HasAgg(a, p.value.e))
  }

  predicate AnyExprHasAgg(a: Aggregator, es: seq<Expr>)
    decreases es, 0
  {
    es != [] && (ExprHasAgg(a, es[0]) || AnyExprHasAgg(a, es[1..]))
  }

  // ---------- One group ----------

  // idx names the columns; row stands for the group in everything outside the aggregates.
  datatype Group = Group(lib: Library, agg: Aggregator, env: Env, idx: Index, rows: seq<Row>, row: Row)

  predicate IsStarCall(args: seq<ValueExpr>) { args == [] || args[0] == Col("*") }

  // aggSep: the literal second argument.
  function Separator(args: seq<ValueExpr>): string {
    if |args| >= 2 && args[1].Lit? && args[1].lit.Str? then args[1].lit.s else ""
  }

  // The argument on every row of the group.
  function OverRows(g: Group, rows: seq<Row>, e: ValueExpr): (vs: seq<Value>)
    ensures |vs| == |rows|
    ensures forall i :: 0 <= i < |rows| ==> vs[i] == EvalValue(g.lib, g.env, g.idx, rows[i], e)
  {
    if rows == [] then [] else [EvalValue(g.lib, g.env, g.idx, rows[0], e)] + OverRows(g, rows[1..], e)
  }

  function AggValue(g: Group, name: string, args: seq<ValueExpr>, distinct: bool): Value {
    g.agg.over(name, distinct, Separator(args), |g.rows|,
      if IsStarCall(args) then None else Some(OverRows(g, g.rows, args[0])))
  }

  // ---------- bindAggregates ----------

  function BindAgg(g: Group, e: ValueExpr): ValueExpr
    decreases e, 0
  {
    match e
    case Func(name, args, distinct) =>
      if g.agg.isAgg(name) then Lit(AggValue(g, name, args, distinct)) else Func(name, BindAggs(g, args), distinct)
    case Binary(op, l, r) => Binary(op, BindAgg(g, l), BindAgg(g, r))
    case Case(operand, whens, els) =>
      Case(if operand.Some? then Some(BindAgg(g, operand.value)) else None, BindWhensAgg(g, whens),
           if els.Some? then Some(BindAgg(g, els.value)) else None)
    case Cast(typ, arg, style) => Cast(typ, BindAgg(g, arg), BindAggs(g, style))
    case _ => e
  }

  function BindAggs(g: Group, es: seq<ValueExpr>): seq<ValueExpr>
    decreases es, 0
  {
    if es == [] then [] else [BindAgg(g, es[0])] + BindAggs(g, es[1..])
  }

  function BindWhensAgg(g: Group, ws: seq<When>): seq<When>
    decreases ws, 0
  {
    if ws == [] then [] else [BindWhenAgg(g, ws[0])] + BindWhensAgg(g, ws[1..])
  }

  function BindWhenAgg(g: Group, w: When): When
    decreases w, 0
  {
    match w
    case Searched(cond, r) => Searched(BindAggExpr(g, cond), BindAgg(g, r))
    case Simple(e, r) => Simple(BindAgg(g, e), BindAgg(g, r))
  }

  // bindAggExpr leaves a condition without aggregates as it is.
  function BindAggExpr(g: Group, e: Expr): Expr
    decreases e, 0
  {
    if !ExprHasAgg(g.agg, e) then e
    else
      match e
      case And(es) => And(BindAggExprs(g, es))
      case Or(es) => Or(BindAggExprs(g, es))
      case Not(n) => Not(BindAggExpr(g, n))
      case Pred(p) => Pred(BindAggPred(g, p))
      case Const(_) => e
  }

  function BindAggPred(g: Group, p: Predicate): Predicate
    decreases p, 0
  {
    p.(leftExpr := if p.leftExpr.Some? then Some(BindAgg(g, p.leftExpr.value)) else None,
       value := if p.value.Computed? then Computed(BindAgg(g, p.value.e)) else p.value)
  }

  function BindAggExprs(g: Group, es: seq<Expr>): seq<Expr>
    decreases es, 0
  {
    if es == [] then [] else [BindAggExpr(g, es[0])] + BindAggExprs(g, es[1..])
  }

  // ---------- No call is left ----------

  lemma {:induction false} BoundHasNoAgg(g: Group, e: ValueExpr)
    ensures !HasAgg(g.agg, BindAgg(g, e))
    decreases e, 0
  {
    match e
    case Func(name, args, _) => BoundListHasNoAgg(g, args);
    case Binary(_, l, r) =>
      BoundHasNoAgg(g, l);
      BoundHasNoAgg(g, r);
    case Case(operand, whens, els) =>
      if operand.Some? { BoundHasNoAgg(g, operand.value); }
      if els.Some? { BoundHasNoAgg(g, els.value); }
      BoundWhensHaveNoAgg(g, whens);
    case Cast(_, arg, style) =>
      BoundHasNoAgg(g, arg);
      BoundListHasNoAgg(g, style);
    case _ =>
  }

  lemma {:induction false} BoundListHasNoAgg(g: Group, es: seq<ValueExpr>)
    ensures !AnyAgg(g.agg, BindAggs(g, es))
    decreases es, 0
  {
    if es != [] {
      BoundHasNoAgg(g, es[0]);
      BoundListHasNoAgg(g, es[1..]);
    }
  }

  lemma {:induction false} BoundWhensHaveNoAgg(g: Group, ws: seq<When>)
    ensures !WhensHaveAgg(g.agg, BindWhensAgg(g, ws))
    decreases ws, 0
  {
    if ws != [] {
      BoundWhenHasNoAgg(g, ws[0]);
      BoundWhensHaveNoAgg(g, ws[1..]);
    }
  }

  lemma {:induction false} BoundWhenHasNoAgg(g: Group, w: When)
    ensures !WhenHasAgg(g.agg, BindWhenAgg(g, w))
    decreases w, 0
  {
    BoundHasNoAgg(g, w.result);
    match w
    case Searched(cond, _) => BoundExprHasNoAgg(g, cond);
    case Simple(e, _) => BoundHasNoAgg(g, e);
  }

  lemma {:induction false} BoundExprHasNoAgg(g: Group, e: Expr)
    ensures !ExprHasAgg(g.agg, BindAggExpr(g, e))
    decreases e, 0
  {
    match e
    case And(es) => BoundExprsHaveNoAgg(g, es);
    case Or(es) => BoundExprsHaveNoAgg(g, es);
    case Not(n) => BoundExprHasNoAgg(g, n);
    case Pred(p) =>
      if p.leftExpr.Some? { BoundHasNoAgg(g, p.leftExpr.value); }
      if p.value.Computed? { BoundHasNoAgg(g, p.value.e); }
    case Const(_) =>
  }

  lemma {:induction false} BoundExprsHaveNoAgg(g: Group, es: seq<Expr>)
    ensures !AnyExprHasAgg(g.agg, BindAggExprs(g, es))
    decreases es, 0
  {
    if es != [] {
      BoundExprHasNoAgg(g, es[0]);
      BoundExprsHaveNoAgg(g, es[1..]);
    }
  }

  // ---------- Meaning ----------

  // Direct evaluation: an aggregate call reads the group where it stands, everything else the row.
  function GroupValue(g: Group, e: ValueExpr): Value
    decreases e, 0
  {
    match e
    case Lit(v) => v
    case Col(c) => Lookup(g.idx, g.row, c)
    case Binary(op, l, r) => g.lib.binary(op, GroupValue(g, l), GroupValue(g, r))
    case Func(name, args, distinct) =>
      if g.agg.isAgg(name) then AggValue(g, name, args, distinct)
      else EvalFunc(g.lib, g.env, name, GroupValues(g, args))
    case Case(operand, whens, els) =>
      GroupCase(g, if operand.Some? then GroupValue(g, operand.value) else Null, whens,
        if els.Some? then GroupValue(g, els.value) else Null)
    case Cast(typ, arg, style) => g.lib.cast(typ, GroupValue(g, arg), GroupValues(g, style))
    case Subquery(q) => if g.env.Nil? then Null else FirstCell(g.env.sub(g.row, g.idx, q))
  }

  function GroupValues(g: Group, es: seq<ValueExpr>): seq<Value>
    decreases es, 0
  {
    if es == [] then [] else [GroupValue(g, es[0])] + GroupValues(g, es[1..])
  }

  function GroupCase(g: Group, operand: Value, ws: seq<When>, els: Value): Value
    decreases ws, 0
  {
    if ws == [] then els
    else match GroupWhen(g, operand, ws[0])
      case Some(v) => v
      case None => GroupCase(g, operand, ws[1..], els)
  }

  function GroupWhen(g: Group, operand: Value, w: When): Option<Value>
    decreases w, 0
  {
    match w
    case Searched(cond, r) => if GroupTruth(g, cond) == True then Some(GroupValue(g, r)) else None
    case Simple(e, r) =>
      if Compare(g.lib.coerce, operand, GroupValue(g, e), false) == Some(0) then Some(GroupValue(g, r)) else None
  }

  function GroupPred(g: Group, p: Predicate): Truth
    decreases p, 0
  {
    if p.op == Exists && p.sub.Some? then
      (if g.env.Nil? then False else TruthOf(|g.env.sub(g.row, g.idx, p.sub.value)| > 0))
    else
      var v := if p.leftExpr.Some? then GroupValue(g, p.leftExpr.value) else Lookup(g.idx, g.row, p.column);
      if p.op == In && p.sub.Some? then
        (if g.env.Nil? then False
         else InTruth(g.lib, v, FirstColumn(g.env.sub(g.row, g.idx, p.sub.value)), p.caseSensitive))
      else
        var rhs := match p.value {
          case Constant(x) => x
          case List(_) => Null
          case ColRef(c) => Lookup(g.idx, g.row, c)
          case Computed(e) => GroupValue(g, e)
        };
        match p.op
        case IsNull => NullTruth(IsNull, v)
        case IsNotNull => NullTruth(IsNotNull, v)
        case In => InTruth(g.lib, v, if p.value.List? then p.value.vs else [], p.caseSensitive)
        case Like => LikeTruth(g.lib, v, rhs, p.caseSensitive, p.escape)
        case _ => CmpTruth(g.lib, p.op, v, rhs, p.caseSensitive)
  }

  // Kleene's connectives over the group.
  function GroupTruth(g: Group, e: Expr): Truth
    decreases e, 0
  {
    match e
    case Const(b) => TruthOf(b)
    case Pred(p) => GroupPred(g, p)
    case Not(n) => GroupTruth(g, n).Not()
    case And(es) => GroupAll(g, es)
    case Or(es) => if es == [] then True else GroupAny(g, es)
  }

  function GroupAll(g: Group, es: seq<Expr>): Truth
    decreases es, 0
  {
    if es == [] then True
    else
      var t, rest := GroupTruth(g, es[0]), GroupAll(g, es[1..]);
      if t == False || rest == False then False else if t == Unknown then Unknown else rest
  }

  function GroupAny(g: Group, es: seq<Expr>): Truth
    decreases es, 0
  {
    if es == [] then False
    else
      var t, rest := GroupTruth(g, es[0]), GroupAny(g, es[1..]);
      if t == True || rest == True then True else if t == Unknown then Unknown else rest
  }

  // ---------- The rewriting keeps it ----------

  lemma {:induction false} BindAggKeepsValue(g: Group, e: ValueExpr)
    ensures EvalValue(g.lib, g.env, g.idx, g.row, BindAgg(g, e)) == GroupValue(g, e)
    decreases e, 1
  {
    hide AggValue, Compare, Lookup, EvalFunc;
    match e
    case Func(name, args, _) => if !g.agg.isAgg(name) { BindAggsKeepValues(g, args); }
    case Binary(_, l, r) =>
      BindAggKeepsValue(g, l);
      BindAggKeepsValue(g, r);
    case Case(operand, whens, els) =>
      if operand.Some? { BindAggKeepsValue(g, operand.value); }
      if els.Some? { BindAggKeepsValue(g, els.value); }
      BindWhensKeepCase(g, if operand.Some? then GroupValue(g, operand.value) else Null, whens,
        if els.Some? then GroupValue(g, els.value) else Null);
    case Cast(_, arg, style) =>
      BindAggKeepsValue(g, arg);
      BindAggsKeepValues(g, style);
    case _ =>
  }

  lemma {:induction false} BindAggsKeepValues(g: Group, es: seq<ValueExpr>)
    ensures EvalValues(g.lib, g.env, g.idx, g.row, BindAggs(g, es)) == GroupValues(g, es)
    decreases es, 1
  {
    if es != [] {
      BindAggKeepsValue(g, es[0]);
      BindAggsKeepValues(g, es[1..]);
    }
  }

  lemma {:induction false} BindWhensKeepCase(g: Group, v: Value, ws: seq<When>, d: Value)
    ensures EvalCase(g.lib, g.env, g.idx, g.row, v, BindWhensAgg(g, ws), d) == GroupCase(g, v, ws, d)
    decreases ws, 1
  {
    if ws != [] {
      BindWhenKeepsCase(g, v, ws[0]);
      BindWhensKeepCase(g, v, ws[1..], d);
    }
  }

  lemma {:induction false} BindWhenKeepsCase(g: Group, v: Value, w: When)
    ensures EvalWhen(g.lib, g.env, g.idx, g.row, v, BindWhenAgg(g, w)) == GroupWhen(g, v, w)
    decreases w, 1
  {
    BindAggKeepsValue(g, w.result);
    match w
    case Searched(cond, _) => BindAggKeepsTruth(g, cond);
    case Simple(e, _) => BindAggKeepsValue(g, e);
  }

  // A condition without aggregates means the same to a row and to a group.
  lemma {:induction false} BindAggKeepsTruth(g: Group, e: Expr)
    ensures EvalTruth(g.lib, g.env, g.idx, g.row, BindAggExpr(g, e)) == GroupTruth(g, e)
    decreases e, 1
  {
    if !ExprHasAgg(g.agg, e) { PlainBindsToItself(g, e); }
    match e
    case And(es) => BindAggsKeepTruths(g, es);
    case Or(es) => BindAggsKeepTruths(g, es);
    case Not(n) => BindAggKeepsTruth(g, n);
    case Pred(p) => BindAggKeepsPred(g, p);
    case Const(_) =>
  }

  lemma {:induction false} BindAggKeepsPred(g: Group, p: Predicate)
    ensures EvalPred(g.lib, g.env, g.idx, g.row, BindAggPred(g, p)) == GroupPred(g, p)
    decreases p, 1
  {
    hide CmpTruth, LikeTruth, InTruth, NullTruth, Lookup;
    if p.leftExpr.Some? { BindAggKeepsValue(g, p.leftExpr.value); }
    if p.value.Computed? { BindAggKeepsValue(g, p.value.e); }
  }

  lemma {:induction false} BindAggsKeepTruths(g: Group, es: seq<Expr>)
    ensures EvalAnd(g.lib, g.env, g.idx, g.row, BindAggExprs(g, es)) == GroupAll(g, es)
    ensures EvalOr(g.lib, g.env, g.idx, g.row, BindAggExprs(g, es)) == GroupAny(g, es)
    decreases es, 1
  {
    if es != [] {
      BindAggKeepsTruth(g, es[0]);
      BindAggsKeepTruths(g, es[1..]);
    }
  }

  // The early exit of bindAggExpr changes nothing: where there is no call, the rewriting is the identity.
  lemma {:induction false} PlainBindsToItself(g: Group, e: Expr)
    requires !ExprHasAgg(g.agg, e)
    ensures e.And? ==> BindAggExprs(g, e.conjuncts) == e.conjuncts
    ensures e.Or? ==> BindAggExprs(g, e.disjuncts) == e.disjuncts
    ensures e.Pred? ==> BindAggPred(g, e.pred) == e.pred
    decreases e, 0
  {
    match e
    case And(es) => PlainListBindsToItself(g, es);
    case Or(es) => PlainListBindsToItself(g, es);
    case Pred(p) =>
      if p.leftExpr.Some? { PlainValueBindsToItself(g, p.leftExpr.value); }
      if p.value.Computed? { PlainValueBindsToItself(g, p.value.e); }
    case _ =>
  }

  lemma {:induction false} PlainListBindsToItself(g: Group, es: seq<Expr>)
    requires !AnyExprHasAgg(g.agg, es)
    ensures BindAggExprs(g, es) == es
    decreases es, 0
  {
    if es != [] { PlainListBindsToItself(g, es[1..]); }
  }

  lemma {:induction false} PlainValueBindsToItself(g: Group, e: ValueExpr)
    requires !HasAgg(g.agg, e)
    ensures BindAgg(g, e) == e
    decreases e, 0
  {
    match e
    case Func(_, args, _) => PlainValuesBindToThemselves(g, args);
    case Binary(_, l, r) =>
      PlainValueBindsToItself(g, l);
      PlainValueBindsToItself(g, r);
    case Case(operand, whens, els) =>
      if operand.Some? { PlainValueBindsToItself(g, operand.value); }
      if els.Some? { PlainValueBindsToItself(g, els.value); }
      PlainWhensBindToThemselves(g, whens);
    case Cast(_, arg, style) =>
      PlainValueBindsToItself(g, arg);
      PlainValuesBindToThemselves(g, style);
    case _ =>
  }

  lemma {:induction false} PlainValuesBindToThemselves(g: Group, es: seq<ValueExpr>)
    requires !AnyAgg(g.agg, es)
    ensures BindAggs(g, es) == es
    decreases es, 0
  {
    if es != [] {
      PlainValueBindsToItself(g, es[0]);
      PlainValuesBindToThemselves(g, es[1..]);
    }
  }

  lemma {:induction false} PlainWhensBindToThemselves(g: Group, ws: seq<When>)
    requires !WhensHaveAgg(g.agg, ws)
    ensures BindWhensAgg(g, ws) == ws
    decreases ws, 0
  {
    if ws != [] {
      PlainWhenBindsToItself(g, ws[0]);
      PlainWhensBindToThemselves(g, ws[1..]);
    }
  }

  lemma {:induction false} PlainWhenBindsToItself(g: Group, w: When)
    requires !WhenHasAgg(g.agg, w)
    ensures BindWhenAgg(g, w) == w
    decreases w, 0
  {
    PlainValueBindsToItself(g, w.result);
    if w.Simple? { PlainValueBindsToItself(g, w.equals); }
  }

  // An aggregate call is given its group's rows in order: COUNT(*) their number alone, any other call its argument's
  // value at each of them as well. Neither the row that stands for the group nor anything else of it matters.
  lemma CallReadsGroup(g: Group, name: string, x: ValueExpr, rest: seq<ValueExpr>, distinct: bool)
    requires g.agg.isAgg(name)
    ensures GroupValue(g, Func(name, [x] + rest, distinct)) ==
      g.agg.over(name, distinct, if rest != [] && rest[0].Lit? && rest[0].lit.Str? then rest[0].lit.s else "", |g.rows|,
        if x == Col("*") then None
        else Some(seq(|g.rows|, i requires 0 <= i < |g.rows| => EvalValue(g.lib, g.env, g.idx, g.rows[i], x))))
    ensures GroupValue(g, Func(name, [], distinct)) == g.agg.over(name, distinct, "", |g.rows|, None)
  {
    var args := [x] + rest;
    assert args[0] == x && (rest != [] ==> args[1] == rest[0]);
    var vs := OverRows(g, g.rows, x);
    assert vs == seq(|g.rows|, i requires 0 <= i < |g.rows| => EvalValue(g.lib, g.env, g.idx, g.rows[i], x));
  }
}
