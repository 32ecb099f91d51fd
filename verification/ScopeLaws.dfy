// The scoped meaning of a query, clause by clause.
module ScopeLaws {
  import opened Option
  import opened Fold
  import opened Tds
  import opened Exec
  import opened Rows
  import opened JoinExec
  import opened Binder
  import opened Scope

  // WHERE keeps the rows on which its condition is TRUE, HAVING the rows and groups on which its own is.
  lemma ClausesKeepTrue(m: Machine, sc: Scope, q: Query, rows: seq<Row>, cs: seq<Context>, row: Row, c: Context)
    ensures row in RefWhere(m, sc, q, rows) <==>
      row in rows && (q.where == None || RefTruth(m, sc, row, q.where.value) == True)
    ensures c in RefHaving(m, sc, q, cs) <==>
      c in cs && (q.having == None || RefTruth(m, sc.(group := c.group), c.row, q.having.value) == True)
  {
    hide RefTruth;
    FilterMember(x => RefKeeps(m, sc, x, q.where), rows, row);
    FilterMember((x: Context) => RefKeeps(m, sc.(group := x.group), x.row, q.having), cs, c);
  }

  lemma {:induction false} FilterMember<T>(keep: T -> bool, xs: seq<T>, x: T)
    ensures x in Filter(keep, xs) <==> x in xs && keep(x)
  {
    if xs != [] { FilterMember(keep, xs[1..], x); }
  }

  // The i-th SELECT of a chain.
  function Nth(q: Query, i: nat): Query
    decreases i
  {
    if i == 0 || q.union.None? then q else Nth(q.union.value, i - 1)
  }

  // The arms of a chain are its SELECTs in order, each with the operator behind it.
  lemma {:induction false} ChainInOrder(m: Machine, q: Query, outer: Resolver, i: nat)
    requires i < |RefArms(m, q, outer)|
    ensures |RefArms(m, q, outer)| == |Ops(q)| + 1
    ensures RefArms(m, q, outer)[i] == RefSelect(m, Nth(q, i), true, outer)
    ensures i < |Ops(q)| ==> Ops(q)[i] == Nth(q, i).setOp
    ensures i < |Ops(q)| <==> Nth(q, i).union.Some?
    decreases q
  {
    hide RefSelect;
    if q.union.Some? {
      assert RefArms(m, q, outer)[1..] == RefArms(m, q.union.value, outer);
      assert Ops(q)[1..] == Ops(q.union.value);
      ChainInOrder(m, q.union.value, outer, if i == 0 then 0 else i - 1);
    }
  }

  // A row that is put out holds the select items and the ORDER BY terms in order; an arm has no terms.
  lemma OutInOrder(m: Machine, sc: Scope, q: Query, c: Context)
    ensures var out, here := RefOut(m, sc, q, false, c), sc.(group := c.group);
      var all := if c.group.Some? then c.group.value else [c.row];
      && out.context == c && |out.items| == |q.select| && |out.orders| == |q.orderBy|
      && (forall i :: 0 <= i < |q.select| ==> out.items[i] == RefItem(m, here, all, c.row, q.select[i]))
      && (forall i :: 0 <= i < |q.orderBy| ==> out.orders[i] == RefOrder(m, here, c.row, q.orderBy[i]))
    ensures RefOut(m, sc, q, true, c) == RefOut(m, sc, q, false, c).(orders := [])
  {
    hide RefItem, RefOrder;
    var here, all := sc.(group := c.group), if c.group.Some? then c.group.value else [c.row];
    ItemsInOrder(m, here, all, c.row, q.select);
    OrdersInOrder(m, here, c.row, q.orderBy);
  }

  lemma {:induction false} ItemsInOrder(m: Machine, sc: Scope, all: seq<Row>, row: Row, items: seq<SelectItem>)
    ensures |RefItems(m, sc, all, row, items)| == |items|
    ensures forall i :: 0 <= i < |items| ==>
      RefItems(m, sc, all, row, items)[i] == RefItem(m, sc, all, row, items[i])
    decreases |items|
  {
    hide RefItem;
    if items != [] { ItemsInOrder(m, sc, all, row, items[1..]); }
  }

  lemma {:induction false} OrdersInOrder(m: Machine, sc: Scope, row: Row, os: seq<OrderItem>)
    ensures |RefOrders(m, sc, row, os)| == |os|
    ensures forall i :: 0 <= i < |os| ==> RefOrders(m, sc, row, os)[i] == RefOrder(m, sc, row, os[i])
    decreases |os|
  {
    hide RefOrder;
    if os != [] { OrdersInOrder(m, sc, row, os[1..]); }
  }

  // APPLY is the planner's.
  lemma ApplyIsPlanned(outer: bool, right: Row -> Rel, l: Row)
    ensures ApplyRow(outer, right)(l) == Applied(outer, x => right(x).rows, |right(l).cols|)(l)
  {
  }
}
