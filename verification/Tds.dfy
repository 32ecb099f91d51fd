// The logical query the parser hands to the engine (tds/query.go).

module Tds {
  import opened Option
  import opened Fold

  datatype Op = Eq | Ne | Lt | Le | Gt | Ge | In | Like | IsNull | IsNotNull | Exists

  // A scalar expression; exactly the variants of ValueKind.
  datatype ValueExpr =
    | Col(col: string)
    | Lit(lit: Value)
    | Binary(op: string, left: ValueExpr, right: ValueExpr)
    | Func(func: string, args: seq<ValueExpr>, distinct: bool)
    | Case(operand: Option<ValueExpr>, whens: seq<When>, els: Option<ValueExpr>)
    | Cast(typ: string, arg: ValueExpr, style: seq<ValueExpr>)
    | Subquery(sub: Query)

  datatype When =
    | Searched(cond: Expr, result: ValueExpr)
    | Simple(equals: ValueExpr, result: ValueExpr)

  // The right-hand side of a predicate: a literal, an IN list, another column, or an expression.
  datatype Operand =
    | Constant(v: Value)
    | List(vs: seq<Value>)
    | ColRef(name: string)
    | Computed(e: ValueExpr)

  // Column (or leftExpr) op value; sub is the subquery of EXISTS and IN.
  datatype Predicate = Predicate(
    column: string, leftExpr: Option<ValueExpr>, op: Op, value: Operand, sub: Option<Query>,
    escape: Option<char>, caseSensitive: bool)

  datatype Expr =
    | And(conjuncts: seq<Expr>)
    | Or(disjuncts: seq<Expr>)
    | Not(negated: Expr)
    | Pred(pred: Predicate)
    | Const(truth: bool)

  datatype JoinType = Inner | Left | Right | Full | Cross | CrossApply | OuterApply

  datatype SelectItem = SelectItem(
    column: string, agg: string, arg: string, argExpr: Option<ValueExpr>,
    expr: Option<ValueExpr>, window: Option<WindowSpec>, alias: string)

  datatype WindowSpec = WindowSpec(
    func: string, args: seq<ValueExpr>, partitionBy: seq<string>, orderBy: seq<OrderItem>)

  datatype OrderItem = OrderItem(column: string, expr: Option<ValueExpr>, desc: bool, caseSensitive: bool)

  datatype TableFunc = TableFunc(name: string, args: seq<ValueExpr>)

  datatype ValuesRow = ValuesRow(cells: seq<ValueExpr>)

  datatype Join = Join(
    jt: JoinType, schema: string, table: string, alias: string,
    fromSub: Option<Query>, fromFunc: Option<TableFunc>, fromValues: seq<ValuesRow>, on: Option<Expr>)

  datatype SetOp = Union | UnionAll | Intersect | Except

  // What a SELECT does with its filtered rows besides evaluating expressions; aggregated says that some
  // select expression calls an aggregate.
  datatype Shape = Shape(
    distinct: bool, aggregated: bool, groupBy: seq<string>, groupingSets: seq<seq<string>>,
    limit: int, offset: int, limitTop: bool, pivotAlias: string, unpivotAlias: string)

  datatype Query = Query(
    schema: string, table: string, alias: string,
    fromSub: Option<Query>, fromFunc: Option<TableFunc>, joins: seq<Join>,
    select: seq<SelectItem>, where: Option<Expr>, having: Option<Expr>, orderBy: seq<OrderItem>,
    shape: Shape, union: Option<Query>, setOp: SetOp)
}
