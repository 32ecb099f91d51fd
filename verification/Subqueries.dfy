// What running a rewritten subquery by itself answers (makeSubFn and applyRight in internal/engine/engine.go), and
// exactly when the walk's passing over plain names shows.
module Subqueries {
  import opened Option
  import opened Fold
  import opened Tds
  import opened Exec
  import opened Rows
  import Planner
  import Names
  import opened Binder
  import opened Hoist
  import opened PassedOver
  import opened Scope
  import opened Substitution

  // Nothing encloses a closed query.
  const NOBODY: Resolver := _ => None

  // The names an enclosing query with these sources may answer.
  function OfQuals(quals: set<string>): string -> bool { n => Owner(n) in quals }

  // ---------- What the engine does with it ----------

  // bindOuter: the subquery with the row's values put in, evaluated by itself, gives what the subquery
  // means where its own sources hide the row's names.
  lemma BindOuterKeepsMeaning(m: Machine, sub: Query, resolve: Resolver, may: string -> bool, after: Resolver)
    requires forall n {:trigger after(n)} :: after(n) == (if Qualifier(n) == "" then None else resolve(n))
    requires (forall n {:trigger resolve(n)} :: resolve(n).Some? ==> may(n)) && ReachedQuery(may, sub, {})
    ensures RefQuery(m, BindOuter(sub, resolve), NOBODY) == RefQuery(m, sub, after)
  {
    hide RefQuery, BindQuery, ReachedQuery;
    QueryBound(m, Sub(resolve, {}, may), sub, NOBODY, after);
  }

  // makeSubFn: running the bound subquery is evaluating it in the scope of the enclosing row.
  lemma SubFnIsScoped(m: Machine, sc: Scope, row: Row, sub: Query)
    requires sc.outer == NOBODY && ReachedQuery(OfQuals(sc.quals), sub, {})
    ensures SubFn(q => RefQuery(m, q, NOBODY).rows, sc.quals, sc.joined)(row, sc.idx, sub) ==
      RefQuery(m, sub, Around(sc, row)).rows
  {
    hide RefQuery, BindQuery, ReachedQuery;
    var resolve := RowResolver(row, sc.idx, sc.quals, sc.joined);
    forall n ensures Around(sc, row)(n) == (if Qualifier(n) == "" then None else resolve(n)) {
    }
    BindOuterKeepsMeaning(m, sub, resolve, OfQuals(sc.quals), Around(sc, row));
  }

  // applyRight: likewise for a derived table on the right of an APPLY.
  lemma ApplyRightIsScoped(m: Machine, j: Join, fr: Frame, idx: Index, left: Row)
    requires IsApply(j.jt) && j.fromValues == [] && j.fromSub.Some? && fr.outer == NOBODY
    requires ReachedQuery(OfQuals(set c | c in idx :: Owner(c)), j.fromSub.value, {})
    ensures RefQuery(m, BindOuter(j.fromSub.value, LeftRow(idx, left)), NOBODY) == RefRight(m, j, fr, idx, left)
  {
    hide RefQuery, BindQuery, ReachedQuery;
    var resolve := LeftRow(idx, left);
    var after := Over(Shadow(fr.outer, fr.local), resolve);
    forall n ensures after(n) == (if Qualifier(n) == "" then None else resolve(n)) {
    }
    BindOuterKeepsMeaning(m, j.fromSub.value, resolve, OfQuals(set c | c in idx :: Owner(c)), after);
  }

  // A query reads nothing of what encloses it but the names it asks for and those it should.
  lemma OnlyAskedNamesMatter(m: Machine, q: Query, outer: Resolver, may: string -> bool)
    requires Silent(outer, AsksQuery(q, {}))
    requires forall n :: Qualifier(n) == "" ==> outer(n).None?
    requires (forall n {:trigger outer(n)} :: outer(n).Some? ==> may(n)) && ReachedQuery(may, q, {})
    ensures RefQuery(m, q, outer) == RefQuery(m, q, NOBODY)
  {
    hide RefQuery, BindQuery, ReachedQuery;
    BindOuterKeepsMeaning(m, q, outer, may, outer);
  }

  // So a subquery isCorrelated calls independent has one answer for every row of the enclosing query.
  lemma UncorrelatedHasOneAnswer(m: Machine, sc: Scope, row: Row, sub: Query)
    requires sc.outer == NOBODY && !IsCorrelated(sub, sc.quals) && ReachedQuery(OfQuals(sc.quals), sub, {})
    ensures RefQuery(m, sub, Around(sc, row)) == RefQuery(m, sub, NOBODY)
  {
    hide RefQuery, AsksQuery, ReachedQuery;
    OnlyAskedNamesMatter(m, sub, Around(sc, row), OfQuals(sc.quals));
  }

  // ---------- Exactly when a passed-over name shows ----------

  // No plain name of q's own select list is one that rv answers.
  ghost predicate OwnReached(s: Sub, q: Query) {
    forall i :: 0 <= i < |q.select| ==> AllReached(s.may, PlainNames(q.select[i]), Enter(s, q).hidden)
  }

  ghost predicate Faithful(m: Machine, s: Sub, q: Query, before: Resolver, after: Resolver) {
    Relates(s, {}, before, after) ==> RefQuery(m, BindQuery(s.rv, q, s.hidden), before) == RefQuery(m, q, after)
  }

  // A machine that answers with what the first row reads for the k-th plain name of item i.
  function Telling(m: Machine, i: nat, k: nat): Machine {
    m.(contexts := (_, _, _, _, _) => [Context([], None)],
       finish := (_, _, _, _, _, outs) => Rel([], [[Told(outs, i, k)]]),
       combine := (arms, _) => if arms == [] then Rel([], []) else arms[0],
       page := (_, _, all, _) => all)
  }

  function Told(outs: seq<Out>, i: nat, k: nat): Value {
    if outs != [] && i < |outs[0].items| && k < |outs[0].items[i].plain| && outs[0].items[i].plain[k] != []
    then outs[0].items[i].plain[k][0] else Null
  }

  lemma {:induction false} ItemAt(m: Machine, sc: Scope, all: seq<Row>, row: Row, items: seq<SelectItem>, i: nat)
    requires i < |items|
    ensures |RefItems(m, sc, all, row, items)| == |items|
    ensures RefItems(m, sc, all, row, items)[i] == RefItem(m, sc, all, row, items[i])
  {
    hide RefItem;
    if |items| > 1 { ItemAt(m, sc, all, row, items[1..], if i > 0 then i - 1 else 0); }
  }

  lemma TellingSelect(m: Machine, q: Query, arm: bool, outer: Resolver, i: nat, k: nat)
    requires q.having.None? && i < |q.select| && k < |PlainNames(q.select[i])|
    ensures var t := Telling(m, i, k);
      var sc := SelectScope(q, RefFrom(t, q, outer).cols, outer);
      RefSelect(t, q, arm, outer) == Rel([], [[Read(sc, [], PlainNames(q.select[i])[k])]])
  {
    hide RefFrom, RefItems, RefItem, Read, WithSources, SourceQuals, Infos, OrderInfos, RefOrders, PlainNames,
      RefWhere, GroupNames;
    var t := Telling(m, i, k);
    var from := RefFrom(t, q, outer);
    var sc := SelectScope(q, from.cols, outer);
    var c := Context([], None);
    NoHaving(t, sc, q, [c]);
    var out := RefOut(t, sc, q, arm, c);
    assert RefOuts(t, sc, q, arm, [c]) == [out];
    ItemAt(t, sc, [[]], [], q.select, i);
    PlainOf(t, sc, [[]], [], q.select[i]);
    assert out.items == RefItems(t, sc, [[]], [], q.select);
  }

  lemma NoHaving(m: Machine, sc: Scope, q: Query, cs: seq<Context>)
    requires q.having.None?
    ensures RefHaving(m, sc, q, cs) == cs
  {
    FilterAll((c: Context) => RefKeeps(m, sc.(group := c.group), c.row, q.having), cs);
  }

  lemma PlainOf(m: Machine, sc: Scope, all: seq<Row>, row: Row, it: SelectItem)
    ensures RefItem(m, sc, all, row, it).plain == ReadNames(sc.(group := None), all, PlainNames(it))
  {
  }

  lemma {:induction false} TellingTail(m: Machine, q: Query, all: Rel, outer: Resolver, i: nat, k: nat)
    ensures RefTail(Telling(m, i, k), q, all, outer) == all
    decreases q
  {
    if q.union.Some? { TellingTail(m, q.union.value, all, outer, i, k); }
  }

  lemma TellingQuery(m: Machine, q: Query, outer: Resolver, i: nat, k: nat, v: Value)
    requires q.having.None? && i < |q.select| && k < |PlainNames(q.select[i])|
    requires var n := PlainNames(q.select[i])[k];
      Qualifier(n) != "" && Owner(n) !in WithSources({}, q) && outer(n) == Some(v)
    ensures RefQuery(Telling(m, i, k), q, outer) == Rel([], [[v]])
  {
    hide RefSelect, RefTail, RefFrom, WithSources, SourceQuals, PlainNames;
    TellingSelect(m, q, q.union.Some?, outer, i, k);
    var t := Telling(m, i, k);
    if q.union.Some? {
      var arms := RefArms(t, q, outer);
      assert t.combine(arms, Ops(q)) == arms[0];
      TellingTail(m, q, arms[0], outer, i, k);
    }
  }

  // What a scope answers when everything around it answers other: v where the walk would have put v in.
  function Answering(s: Sub, other: Value): Resolver {
    n => if BindName(s.rv, n, s.hidden).Some? then BindName(s.rv, n, s.hidden) else Some(other)
  }

  lemma AnsweringRelates(s: Sub, other: Value)
    requires forall n :: s.may(n) <==> s.rv(n).Some?
    ensures Relates(s, {}, _ => Some(other), Answering(s, other))
  {
    hide BindName;
  }

  // A missed name of the select list shows in some engine: before answers one value where after answers another.
  lemma MissedShows(m: Machine, s: Sub, q: Query, i: nat, k: nat)
    returns (t: Machine, before: Resolver, after: Resolver)
    requires q.having.None? && forall n :: s.may(n) <==> s.rv(n).Some?
    requires i < |q.select| && k < |PlainNames(q.select[i])| &&
      Missed(s.may, PlainNames(q.select[i])[k], Enter(s, q).hidden)
    ensures !Faithful(t, s, q, before, after)
  {
    hide RefQuery, PlainNames, BindQuery, Telling, Relates, WithSources, Qualifier, Owner;
    var n := PlainNames(q.select[i])[k];
    NotLocal(s, q, n);
    var v := s.rv(n).value;
    var other := if v == Null then Int(0) else Null;
    t, before, after := Telling(m, i, k), _ => Some(other), Answering(s, other);
    AnsweringRelates(s, other);
    BoundItem(s, q, i);
    SourcesKept(s, q);
    TellingQuery(m, BindQuery(s.rv, q, s.hidden), before, i, k, other);
    TellingQuery(m, q, after, i, k, v);
  }

  lemma NotLocal(s: Sub, q: Query, n: string)
    requires Missed(s.may, n, Enter(s, q).hidden) && (s.may(n) <==> s.rv(n).Some?)
    ensures Owner(n) !in WithSources({}, q) && Qualifier(n) != ""
    ensures BindName(s.rv, n, s.hidden) == s.rv(n) && s.rv(n).Some?
  {
    hide SourceQuals;
  }

  lemma BoundItem(s: Sub, q: Query, i: nat)
    requires i < |q.select|
    ensures var bound := BindQuery(s.rv, q, s.hidden);
      |bound.select| == |q.select| && PlainNames(bound.select[i]) == PlainNames(q.select[i]) &&
        (q.having.None? ==> bound.having.None?)
  {
    hide BindItem, BindOrders, BindJoins, BindSub, BindFrom, PlainNames, WithSources;
    ItemOfBound(Enter(s, q), q.select, i);
    PlainKept(Enter(s, q), q.select[i]);
  }

  lemma {:induction false} ItemOfBound(s: Sub, items: seq<SelectItem>, i: nat)
    requires i < |items|
    ensures BindItems(s.rv, items, s.hidden)[i] == BindItem(s.rv, items[i], s.hidden)
  {
    hide BindItem;
    if i > 0 { ItemOfBound(s, items[1..], i - 1); }
  }

  // The substitution keeps the meaning of a query that misses no other names, in every engine and every scope,
  // exactly when the row answers none of the plain names in its select list.
  lemma KeepsMeaningExactly(m: Machine, s: Sub, q: Query)
    requires q.having.None? && forall n :: s.may(n) <==> s.rv(n).Some?
    requires OwnReached(s, q) ==> ReachedQuery(s.may, q, s.hidden)
    ensures (forall t: Machine, before: Resolver, after: Resolver :: Faithful(t, s, q, before, after)) <==>
      OwnReached(s, q)
  {
    hide RefQuery, BindQuery, ReachedQuery, PlainNames, Relates, Enter;
    if OwnReached(s, q) {
      forall t: Machine, before: Resolver, after: Resolver ensures Faithful(t, s, q, before, after) {
        if Relates(s, {}, before, after) { QueryBound(t, s, q, before, after); }
      }
    } else {
      var i :| 0 <= i < |q.select| && !AllReached(s.may, PlainNames(q.select[i]), Enter(s, q).hidden);
      var names := PlainNames(q.select[i]);
      var n :| n in names && Missed(s.may, n, Enter(s, q).hidden);
      var k :| 0 <= k < |names| && names[k] == n;
      var t, before, after := MissedShows(m, s, q, i, k);
    }
  }

  // ---------- An outer aggregate argument goes wrong ----------

  function Largest(coerce: Coercion, vs: seq<Value>): Value {
    if vs == [] then Null
    else
      var rest := Largest(coerce, vs[1..]);
      if vs[0] == Null || (rest != Null && Compare(coerce, rest, vs[0], false) == Some(1)) then rest else vs[0]
  }

  // One table with column x and the row 7, grouped as a whole; the select list is one MAX.
  function MaxMachine(m: Machine): Machine {
    m.(table := (_, _) => Rel(["x"], [[Int(7)]]),
       rotate := (_, r) => r,
       contexts := (_, _, _, rows, _) => [Context([], Some(rows))],
       finish := (_, _, _, _, _, outs) => Rel(["max"], [[MaxOut(m.lib.coerce, outs)]]))
  }

  function MaxOut(coerce: Coercion, outs: seq<Out>): Value {
    if outs != [] && outs[0].items != [] && outs[0].items[0].plain != [] then Largest(coerce, outs[0].items[0].plain[0])
    else Null
  }

  // SELECT MAX(o.x) FROM t, perhaps with a HAVING.
  function MaxOfOuter(having: Option<Expr>): Query {
    Query("", "t", "", None, None, [], [SelectItem("", "MAX", "o.x", None, None, None, "")], None, having, [],
      Shape(false, false, [], [], 0, 0, false, "", ""), None, UnionAll)
  }

  const OUTER_ROW: Resolver := n => if n == "o.x" then Some(Int(1)) else None

  lemma OuterName()
    ensures Qualifier("o.x") == "o" && Owner("o.x") == "o" && Owner("o.x") !in WithSources({}, MaxOfOuter(None))
  {
    assert "o.x" == "o" + "." + "x";
    Names.AfterDotOf("o", "x");
    assert Key("o") == "o" && Key("t") == "t";
    assert SourceQuals(MaxOfOuter(None), true) == {"t"} by { assert JoinNames([], true) == {}; }
  }

  // The answer is what the table's row reads for o.x.
  lemma MaxAnswer(m: Machine, outer: Resolver)
    ensures var q, t := MaxOfOuter(None), MaxMachine(m);
      RefQuery(t, q, outer) == Rel(["max"], [[Read(SelectScope(q, ["x"], outer), [Int(7)], "o.x")]])
  {
    hide Read, WithSources, SourceQuals, Infos;
    var q, t := MaxOfOuter(None), MaxMachine(m);
    var sc := SelectScope(q, ["x"], outer);
    var rows: seq<Row> := [[Int(7)]];
    assert RefFrom(t, q, outer) == Rel(["x"], rows);
    assert RefWhere(t, sc, q, rows) == rows;
    var c := Context([], Some(rows));
    NoHaving(t, sc, q, [c]);
    var out := RefOut(t, sc, q, false, c);
    assert RefOuts(t, sc, q, false, [c]) == [out];
    ItemAt(t, sc.(group := c.group), rows, [], q.select, 0);
    PlainOf(t, sc.(group := c.group), rows, [], q.select[0]);
    assert out.items[0].plain == ReadNames(sc, rows, ["o.x"]);
    assert out.items[0].plain[0] == [Read(sc, rows[0], "o.x")];
    LargestOfOne(m.lib.coerce, Read(sc, rows[0], "o.x"));
  }

  lemma LargestOfOne(coerce: Coercion, v: Value)
    ensures Largest(coerce, [v]) == v
  {
    assert [v][1..] == [];
  }

  // Over o with x = 1 and t with x = 7 the subquery means 1. The walk takes it for uncorrelated and leaves it alone,
  // so it is run once, by itself, and answers 7.
  lemma OuterAggregateGoesWrong(m: Machine)
    ensures var q, t := MaxOfOuter(None), MaxMachine(m);
      && !IsCorrelated(q, {"o"}) && BindOuter(q, OUTER_ROW) == q
      && RefQuery(t, q, OUTER_ROW) == Rel(["max"], [[Int(1)]])
      && RefQuery(t, BindOuter(q, OUTER_ROW), NOBODY) == Rel(["max"], [[Int(7)]])
  {
    hide RefQuery, WithSources, BindOuter, IsCorrelated;
    var q := MaxOfOuter(None);
    PlainAggregateArgIsNotBound(q, OUTER_ROW, {"o"});
    OuterName();
    MaxAnswer(m, OUTER_ROW);
    MaxAnswer(m, NOBODY);
    assert "o.x" == "o" + "." + "x";
    Names.ScanResolves(["x"], "o", 0);
  }

  lemma EmptyAsksNothing(local: set<string>)
    ensures AsksItems([], local) == {} && AsksOrders([], local) == {} && AsksJoins([], local) == {}
    ensures AsksWhere(None, local) == {} && AsksSub(None, local) == {} && AsksFrom(None, local) == {}
    ensures AsksWhere(Some(Const(false)), local) == {}
  {
  }

  // The walk does not look at a select item's plain aggregate argument.
  lemma PlainAggregateArgIsNotBound(sub: Query, resolve: Resolver, quals: set<string>)
    requires sub == MaxOfOuter(None) || sub == MaxOfOuter(Some(Const(false)))
    ensures !IsCorrelated(sub, quals) && BindOuter(sub, resolve) == sub
  {
    hide WithSources;
    var inner := WithSources({}, sub);
    assert sub.select[1..] == [];
    EmptyAsksNothing(inner);
    EmptyAsksNothing({});
    assert AsksItem(sub.select[0], inner) == {} && AsksItems(sub.select, inner) == {};
  }

  // A missed name may stay without effect further in: under HAVING FALSE the argument is missed, and every engine
  // answers alike.
  lemma MissedUnderHavingFalse(m: Machine, before: Resolver, after: Resolver)
    ensures var q := MaxOfOuter(Some(Const(false)));
      && Missed(n => OUTER_ROW(n).Some?, "o.x", WithSources({}, q))
      && RefQuery(m, BindOuter(q, OUTER_ROW), before) == RefQuery(m, q, after)
  {
    hide WithSources, BindOuter, RefQuery;
    var q := MaxOfOuter(Some(Const(false)));
    OuterName();
    SameSources();
    PlainAggregateArgIsNotBound(q, OUTER_ROW, {});
    NothingUnderHavingFalse(m, before);
    NothingUnderHavingFalse(m, after);
  }

  lemma NothingUnderHavingFalse(m: Machine, outer: Resolver)
    ensures var q := MaxOfOuter(Some(Const(false)));
      var from := m.rotate(q.shape, m.table("", "t"));
      RefQuery(m, q, outer) == m.finish(false, q.shape, Infos(q.select), [], from.cols, [])
  {
    hide WithSources, SourceQuals, Infos, RefKeeps;
    var q := MaxOfOuter(Some(Const(false)));
    var from := m.rotate(q.shape, m.table("", "t"));
    assert RefFrom(m, q, outer) == from;
    var sc := SelectScope(q, from.cols, outer);
    var rows := RefWhere(m, sc, q, from.rows);
    var cs := m.contexts(q.shape, Infos(q.select), sc.idx, rows, ReadNames(sc, rows, GroupNames(q.shape)));
    forall c: Context ensures !RefKeeps(m, sc.(group := c.group), c.row, q.having) {
      NeverFalse(m, sc.(group := c.group), c.row);
    }
    FilterNone((c: Context) => RefKeeps(m, sc.(group := c.group), c.row, q.having), cs);
  }

  lemma NeverFalse(m: Machine, sc: Scope, row: Row)
    ensures !RefKeeps(m, sc, row, Some(Const(false)))
  {
  }

  lemma SameSources()
    ensures WithSources({}, MaxOfOuter(Some(Const(false)))) == WithSources({}, MaxOfOuter(None))
  {
  }
}
