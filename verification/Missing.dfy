// Names missed further in: in derived tables and the arms of set operations, at any depth.
module Missing {
  import opened Option
  import opened Fold
  import opened Tds
  import opened Exec
  import opened Rows
  import Planner
  import opened Binder
  import opened PassedOver
  import opened Scope
  import opened Substitution
  import opened Subqueries

  // A query over one table, table function or such a query, or a set operation of such queries, that filters nothing.
  ghost predicate Stacked(q: Query)
    decreases q
  {
    && q.joins == [] && q.where.None? && q.having.None?
    && (q.fromSub.Some? ==> Stacked(q.fromSub.value)) && (q.union.Some? ==> Stacked(q.union.value))
  }

  // No plain name of a select list of the stack is one that rv answers.
  ghost predicate StackReached(s: Sub, q: Query)
    decreases q
  {
    && OwnReached(s, q)
    && (q.fromSub.Some? ==> StackReached(s, q.fromSub.value)) && (q.union.Some? ==> StackReached(s, q.union.value))
  }

  // The name n stands missed in a select list of the stack.
  ghost predicate OwnMiss(s: Sub, q: Query, n: string) {
    Missed(s.may, n, Enter(s, q).hidden) && exists j :: 0 <= j < |q.select| && n in PlainNames(q.select[j])
  }

  ghost predicate Miss(s: Sub, q: Query, n: string)
    decreases q
  {
    || OwnMiss(s, q, n)
    || (q.fromSub.Some? && Miss(s, q.fromSub.value, n)) || (q.union.Some? && Miss(s, q.union.value, n))
  }

  lemma {:induction false} SomeMiss(s: Sub, q: Query) returns (n: string)
    requires !StackReached(s, q)
    ensures Miss(s, q, n)
    decreases q
  {
    hide PlainNames, Enter;
    if !OwnReached(s, q) {
      var i :| 0 <= i < |q.select| && !AllReached(s.may, PlainNames(q.select[i]), Enter(s, q).hidden);
      n :| n in PlainNames(q.select[i]) && Missed(s.may, n, Enter(s, q).hidden);
    } else if q.fromSub.Some? && !StackReached(s, q.fromSub.value) {
      n := SomeMiss(s, q.fromSub.value);
    } else {
      n := SomeMiss(s, q.union.value);
    }
  }

  // ---------- A machine that passes on whether n read w ----------

  const SEEN: Value := Bool(true)
  const UNSEEN: Value := Bool(false)

  function Flag(b: bool): Rel { Rel([], [[if b then SEEN else UNSEEN]]) }

  function InfoNames(it: ItemInfo): seq<string> {
    (if it.arg != "" then [it.arg] else []) + (if it.window.Some? then it.window.value.1 else [])
  }

  predicate ItemSees(info: ItemInfo, item: OutItem, n: string, w: Value) {
    exists k :: 0 <= k < |InfoNames(info)| && k < |item.plain| && InfoNames(info)[k] == n && w in item.plain[k]
  }

  predicate Sees(infos: seq<ItemInfo>, outs: seq<Out>, n: string, w: Value) {
    && outs != []
    && (SEEN in outs[0].context.row ||
        exists j :: 0 <= j < |infos| && j < |outs[0].items| && ItemSees(infos[j], outs[0].items[j], n, w))
  }

  function FirstRow(rows: seq<Row>): Row { if rows == [] then [] else rows[0] }

  function Watching(m: Machine, n: string, w: Value): Machine {
    m.(table := (_, _) => Rel([], []),
       rowset := (_, _) => Rel([], []),
       rotate := (_, r) => r,
       contexts := (_, _, _, rows, _) => [Context(FirstRow(rows), None)],
       finish := (_, _, infos, _, _, outs) => Flag(Sees(infos, outs, n, w)),
       combine := (arms, _) => Flag(Flag(true) in arms),
       page := (_, _, all, _) => all)
  }

  // What one SELECT of the stack sees: a flag from below, or n reading w.
  ghost predicate SelectSees(q: Query, n: string, w: Value, below: Rel, outer: Resolver) {
    var sc, row := SelectScope(q, below.cols, outer), FirstRow(below.rows);
    SEEN in row || (Read(sc, row, n) == w && exists j :: 0 <= j < |q.select| && n in PlainNames(q.select[j]))
  }

  ghost function Below(m: Machine, q: Query, n: string, w: Value, outer: Resolver): Rel {
    if q.fromSub.Some? then RefQuery(Watching(m, n, w), q.fromSub.value, outer) else Rel([], [])
  }

  lemma InfosAt(items: seq<SelectItem>, j: nat)
    requires j < |items|
    ensures |Infos(items)| == |items| && Infos(items)[j] == Info(items[j]) &&
      InfoNames(Info(items[j])) == PlainNames(items[j])
  {
    InfosLength(items);
    InfosIndex(items, j);
  }

  lemma {:induction false} InfosLength(items: seq<SelectItem>)
    ensures |Infos(items)| == |items|
  {
    if items != [] { InfosLength(items[1..]); }
  }

  lemma {:induction false} InfosIndex(items: seq<SelectItem>, j: nat)
    requires j < |items|
    ensures j < |Infos(items)| && Infos(items)[j] == Info(items[j])
  {
    InfosLength(items);
    if j > 0 { InfosIndex(items[1..], j - 1); }
  }

  lemma ItemSeesIt(m: Machine, sc: Scope, row: Row, it: SelectItem, n: string, w: Value)
    requires sc.group.None?
    ensures InfoNames(Info(it)) == PlainNames(it)
    ensures ItemSees(Info(it), RefItem(m, sc, [row], row, it), n, w) <==> n in PlainNames(it) && Read(sc, row, n) == w
  {
    hide Read, RefItem, PlainNames, Info, InfoNames;
    PlainOf(m, sc, [row], row, it);
    NamesOfInfo(it);
    assert sc.(group := None) == sc;
    var names, item := PlainNames(it), RefItem(m, sc, [row], row, it);
    assert forall k :: 0 <= k < |names| ==> item.plain[k] == [Read(sc, row, names[k])];
    if n in names && Read(sc, row, n) == w {
      var k :| 0 <= k < |names| && names[k] == n;
      assert w in item.plain[k];
    }
  }

  lemma NamesOfInfo(it: SelectItem)
    ensures InfoNames(Info(it)) == PlainNames(it)
  {
  }

  lemma {:induction false} WatchSelect(m: Machine, q: Query, arm: bool, n: string, w: Value, outer: Resolver)
    requires q.joins == [] && q.where.None? && q.having.None?
    ensures RefSelect(Watching(m, n, w), q, arm, outer) == Flag(SelectSees(q, n, w, Below(m, q, n, w, outer), outer))
  {
    hide RefQuery, RefItems, RefItem, Read, WithSources, SourceQuals, Infos, Info, OrderInfos, RefOrders, PlainNames,
      GroupNames, RefRowset, ItemSees;
    var t := Watching(m, n, w);
    var from := RefFrom(t, q, outer);
    FromBelow(m, q, n, w, outer);
    var sc := SelectScope(q, from.cols, outer);
    var row := FirstRow(from.rows);
    NoWhere(t, sc, q, from.rows);
    var c := Context(row, None);
    NoHaving(t, sc, q, [c]);
    var out := RefOut(t, sc, q, arm, c);
    assert RefOuts(t, sc, q, arm, [c]) == [out];
    assert out.context.row == row && out.items == RefItems(t, sc, [row], row, q.select);
    forall j | 0 <= j < |q.select|
      ensures |out.items| == |Infos(q.select)| == |q.select|
      ensures ItemSees(Infos(q.select)[j], out.items[j], n, w) <==>
        n in PlainNames(q.select[j]) && Read(sc, row, n) == w
    {
      ItemAt(t, sc, [row], row, q.select, j);
      InfosAt(q.select, j);
      ItemSeesIt(t, sc, row, q.select[j], n, w);
    }
    InfosLength(q.select);
    if q.select != [] { ItemAt(t, sc, [row], row, q.select, 0); }
  }

  lemma NoWhere(m: Machine, sc: Scope, q: Query, rows: seq<Row>)
    requires q.where.None?
    ensures RefWhere(m, sc, q, rows) == rows
  {
    FilterAll((row: Row) => RefKeeps(m, sc, row, q.where), rows);
  }

  lemma FromBelow(m: Machine, q: Query, n: string, w: Value, outer: Resolver)
    requires q.joins == []
    ensures RefFrom(Watching(m, n, w), q, outer) == Below(m, q, n, w, outer)
  {
    hide RefQuery;
  }

  lemma {:induction false} WatchTail(m: Machine, q: Query, all: Rel, n: string, w: Value, outer: Resolver)
    ensures RefTail(Watching(m, n, w), q, all, outer) == all
    decreases q
  {
    if q.union.Some? { WatchTail(m, q.union.value, all, n, w, outer); }
  }

  // Whether some arm of the chain sees it.
  ghost predicate ArmSees(m: Machine, q: Query, n: string, w: Value, outer: Resolver)
    decreases q
  {
    || SelectSees(q, n, w, Below(m, q, n, w, outer), outer)
    || (q.union.Some? && ArmSees(m, q.union.value, n, w, outer))
  }

  lemma {:induction false} WatchArms(m: Machine, q: Query, n: string, w: Value, outer: Resolver)
    requires Stacked(q)
    ensures Flag(true) in RefArms(Watching(m, n, w), q, outer) <==> ArmSees(m, q, n, w, outer)
    decreases q
  {
    hide RefSelect, SelectSees, Below;
    WatchSelect(m, q, true, n, w, outer);
    if q.union.Some? { WatchArms(m, q.union.value, n, w, outer); }
  }

  lemma WatchQuery(m: Machine, q: Query, n: string, w: Value, outer: Resolver)
    requires Stacked(q)
    ensures RefQuery(Watching(m, n, w), q, outer) == Flag(ArmSees(m, q, n, w, outer))
  {
    hide RefSelect, RefTail, RefArms, SelectSees, Below;
    if q.union.None? {
      WatchSelect(m, q, false, n, w, outer);
    } else {
      var t := Watching(m, n, w);
      WatchArms(m, q, n, w, outer);
      WatchTail(m, q, t.combine(RefArms(t, q, outer), Ops(q)), n, w, outer);
    }
  }

  // ---------- The original never sees it ----------

  lemma {:induction false} OriginalUnseen(m: Machine, q: Query, n: string, w: Value, v: Value, outer: Resolver)
    requires Stacked(q) && outer(n) == Some(v) && v != w && w.Int?
    requires Qualifier(n) != ""
    ensures !ArmSees(m, q, n, w, outer)
    decreases q
  {
    hide RefQuery, WithSources, SourceQuals, PlainNames, Qualifier, Owner;
    if q.fromSub.Some? {
      OriginalUnseen(m, q.fromSub.value, n, w, v, outer);
      WatchQuery(m, q.fromSub.value, n, w, outer);
    }
    if q.union.Some? { OriginalUnseen(m, q.union.value, n, w, v, outer); }
  }

  // ---------- The rewritten query sees it ----------

  lemma BoundStack(s: Sub, q: Query)
    requires q.joins == [] && q.where.None? && q.having.None?
    ensures var k := BindQuery(s.rv, q, s.hidden);
      && k.joins == [] && k.where.None? && k.having.None?
      && k.fromSub == BindSub(s.rv, q.fromSub, s.hidden) && k.union == BindSub(s.rv, q.union, s.hidden)
  {
    hide BindItems, BindOrders, BindFrom, BindSub, WithSources;
  }

  lemma {:induction false} BoundStacked(s: Sub, q: Query)
    requires Stacked(q)
    ensures Stacked(BindQuery(s.rv, q, s.hidden))
    decreases q
  {
    hide BindQuery;
    BoundStack(s, q);
    if q.fromSub.Some? { BoundStacked(s, q.fromSub.value); }
    if q.union.Some? { BoundStacked(s, q.union.value); }
  }

  lemma {:induction false} BoundSeen(m: Machine, s: Sub, q: Query, n: string, w: Value, outer: Resolver)
    requires Stacked(q) && Miss(s, q, n) && outer(n) == Some(w)
    ensures ArmSees(m, BindQuery(s.rv, q, s.hidden), n, w, outer)
    decreases q
  {
    hide RefQuery, BindQuery, SelectSees, OwnMiss;
    var k := BindQuery(s.rv, q, s.hidden);
    BoundStack(s, q);
    if OwnMiss(s, q, n) {
      OwnSeen(s, q, n, w, Below(m, k, n, w, outer), outer);
    } else if q.fromSub.Some? && Miss(s, q.fromSub.value, n) {
      BoundSeen(m, s, q.fromSub.value, n, w, outer);
      BoundStacked(s, q.fromSub.value);
      WatchQuery(m, k.fromSub.value, n, w, outer);
      FlagSeen(k, n, w, outer);
    } else {
      BoundSeen(m, s, q.union.value, n, w, outer);
    }
  }

  lemma FlagSeen(q: Query, n: string, w: Value, outer: Resolver)
    ensures SelectSees(q, n, w, Flag(true), outer)
  {
    hide Read;
    assert SEEN in [SEEN];
  }

  lemma OwnSeen(s: Sub, q: Query, n: string, w: Value, below: Rel, outer: Resolver)
    requires OwnMiss(s, q, n) && outer(n) == Some(w)
    ensures SelectSees(BindQuery(s.rv, q, s.hidden), n, w, below, outer)
  {
    hide BindQuery, PlainNames, SourceQuals;
    var k := BindQuery(s.rv, q, s.hidden);
    SourcesKept(s, q);
    var j :| 0 <= j < |q.select| && n in PlainNames(q.select[j]);
    BoundItem(s, q, j);
    assert n in PlainNames(k.select[j]);
  }

  // ---------- Exactly ----------

  // The substitution keeps the meaning of a stack of derived tables and set operations that misses no name elsewhere,
  // in every engine and every scope, exactly when no select list of the stack has a plain name that the row answers.
  lemma StackKeepsMeaningExactly(m: Machine, s: Sub, q: Query)
    requires Stacked(q) && forall n :: s.may(n) <==> s.rv(n).Some?
    requires StackReached(s, q) ==> ReachedQuery(s.may, q, s.hidden)
    ensures (forall t: Machine, before: Resolver, after: Resolver :: Faithful(t, s, q, before, after)) <==>
      StackReached(s, q)
  {
    hide RefQuery, BindQuery, ReachedQuery, Relates, Stacked, StackReached, Miss;
    if StackReached(s, q) {
      forall t: Machine, before: Resolver, after: Resolver ensures Faithful(t, s, q, before, after) {
        if Relates(s, {}, before, after) { QueryBound(t, s, q, before, after); }
      }
    } else {
      var n := SomeMiss(s, q);
      MissShows(m, s, q, n);
    }
  }

  lemma MissShows(m: Machine, s: Sub, q: Query, n: string)
    requires Stacked(q) && Miss(s, q, n) && forall n :: s.may(n) <==> s.rv(n).Some?
    ensures exists t: Machine, before: Resolver, after: Resolver :: !Faithful(t, s, q, before, after)
  {
    hide RefQuery, BindQuery, Relates, Stacked, Miss, Watching, ArmSees;
    MissIsAnswered(s, q, n);
    var v := s.rv(n).value;
    var w := if v == Int(0) then Int(1) else Int(0);
    var t, before, after := Watching(m, n, w), _ => Some(w), Answering(s, w);
    AnsweringRelates(s, w);
    BoundStacked(s, q);
    BoundSeen(m, s, q, n, w, before);
    WatchQuery(m, BindQuery(s.rv, q, s.hidden), n, w, before);
    OriginalUnseen(m, q, n, w, v, after);
    WatchQuery(m, q, n, w, after);
    assert Flag(true) != Flag(false);
    assert !Faithful(t, s, q, before, after);
  }

  lemma {:induction false} MissIsAnswered(s: Sub, q: Query, n: string)
    requires Miss(s, q, n) && forall n :: s.may(n) <==> s.rv(n).Some?
    ensures Qualifier(n) != "" && BindName(s.rv, n, s.hidden) == s.rv(n) && s.rv(n).Some?
    decreases q
  {
    hide Qualifier, Owner, SourceQuals;
    if OwnMiss(s, q, n) {
    } else if q.fromSub.Some? && Miss(s, q.fromSub.value, n) {
      MissIsAnswered(s, q.fromSub.value, n);
    } else {
      MissIsAnswered(s, q.union.value, n);
    }
  }
}
