// Pushing WHERE conjuncts and semi-join lists into the scans keeps the answer.

module Pushdown {
  import opened Option
  import opened Fold
  import opened Tds
  import opened Exec
  import opened Rows
  import opened JoinExec
  import opened Planner

  // ---------- Conjuncts ----------

  ghost predicate AllTrue(lib: Library, s: Site, es: seq<Expr>) {
    forall c :: c in es ==> EvalTruth(lib, s.env, s.idx, s.row, c) == True
  }

  lemma {:induction false} AndIsAll(lib: Library, s: Site, es: seq<Expr>)
    ensures EvalAnd(lib, s.env, s.idx, s.row, es) == True <==> AllTrue(lib, s, es)
  {
    if es != [] {
      AndIsAll(lib, s, es[1..]);
      assert forall c :: c in es <==> c == es[0] || c in es[1..];
    }
  }

  lemma {:induction false} FlattenIsAll(lib: Library, s: Site, e: Expr)
    ensures EvalTruth(lib, s.env, s.idx, s.row, e) == True <==> AllTrue(lib, s, FlattenAnd(e))
    decreases e, 0
  {
    if e.And? && e.conjuncts != [] { FlattenAllIsAll(lib, s, e.conjuncts); }
  }

  lemma {:induction false} FlattenAllIsAll(lib: Library, s: Site, es: seq<Expr>)
    ensures EvalAnd(lib, s.env, s.idx, s.row, es) == True <==> AllTrue(lib, s, FlattenAll(es))
    decreases es, 0
  {
    if es != [] {
      FlattenIsAll(lib, s, es[0]);
      FlattenAllIsAll(lib, s, es[1..]);
    }
  }

  // A WHERE clause holds exactly when each of its conjuncts does.
  lemma ConjunctsDecide(lib: Library, s: Site, e: Option<Expr>)
    ensures Keeps(lib, s.env, s.idx, s.row, e) <==> AllTrue(lib, s, Conjuncts(e))
  {
    if e.Some? { FlattenIsAll(lib, s, e.value); }
  }

  lemma ConjoinDecides(lib: Library, s: Site, es: seq<Expr>)
    ensures Keeps(lib, s.env, s.idx, s.row, Conjoin(es)) <==> AllTrue(lib, s, es)
  {
    AndIsAll(lib, s, es);
    if |es| == 1 { assert forall c :: c in es <==> c == es[0]; }
  }

  predicate Flat1(e: Expr) { e.And? ==> e.conjuncts == [] }

  lemma {:induction false} FlattenedIsFlat(e: Expr)
    ensures forall c :: c in FlattenAnd(e) ==> Flat1(c)
    decreases e, 0
  {
    if e.And? && e.conjuncts != [] { FlattenedAllFlat(e.conjuncts); }
  }

  lemma {:induction false} FlattenedAllFlat(es: seq<Expr>)
    ensures forall c :: c in FlattenAll(es) ==> Flat1(c)
    decreases es, 0
  {
    if es != [] {
      FlattenedIsFlat(es[0]);
      FlattenedAllFlat(es[1..]);
    }
  }

  lemma {:induction false} FlattenAllOfFlat(es: seq<Expr>)
    requires forall c :: c in es ==> Flat1(c)
    ensures FlattenAll(es) == es
  {
    if es != [] {
      FlattenAllOfFlat(es[1..]);
      assert es[0] in es;
      assert FlattenAnd(es[0]) == [es[0]];
    }
  }

  // Taking a hint apart gives back the conjuncts it was made of.
  lemma ConjunctsOfConjoin(es: seq<Expr>)
    requires forall c :: c in es ==> Flat1(c)
    ensures Conjuncts(Conjoin(es)) == es
  {
    if |es| > 1 { FlattenAllOfFlat(es); } else if |es| == 1 { assert es[0] in es; }
  }

  // The conjuncts in the hint of the source at i.
  function HintParts(w: World, p: Plan, i: int, table: string, alias: string): seq<Expr>
    requires -1 <= i < |p.joins|
  {
    var single := Filter(Attributed(alias, table), Conjuncts(p.where));
    if SuppliesNulls(p.joins, i) then Filter(RejectsNulls(w.lib), single) else single
  }

  lemma HintIsItsParts(w: World, p: Plan, i: int, table: string, alias: string)
    requires -1 <= i < |p.joins|
    ensures Hint(w, p, i, table, alias) == Conjoin(HintParts(w, p, i, table, alias))
  {
    var single := Filter(Attributed(alias, table), Conjuncts(p.where));
    if p.where.Some? { FlattenedIsFlat(p.where.value); }
    ConjunctsOfConjoin(single);
  }

  // ---------- When names mean what the planner takes them to mean ----------

  // Column k of a source is read by this name both in a joined row, at offset off, and in the scan.
  predicate SameColumn(all: Index, own: Index, off: nat, width: nat, name: string) {
    match ResolveCol(own, name)
    case None => false
    case Some(k) => k < width && ResolveCol(all, name) == Some(off + k)
  }

  // Every conjunct pushed to the source at i reads that source and runs no subquery.
  predicate PartsScoped(w: World, p: Plan, i: int)
    requires -1 <= i < |p.joins|
  {
    var s := SourceAt(p, i);
    s.Named? ==>
      var parts := HintParts(w, p, i, s.table, EffAlias(s));
      var all, own := IndexCols(ColsBefore(w, p, |p.joins|)), IndexCols(BareCols(w, s));
      forall c :: c in parts ==> PartScoped(c, all, own, OffsetOf(w, p, i), |BareCols(w, s)|)
  }

  // Where an outer join may NULL-extend the source at i, some pushed conjunct is not TRUE on its row of NULLs: the
  // planner's own test, but with the *Env that the query runs in.
  predicate NullsFail(w: World, p: Plan, i: int)
    requires -1 <= i < |p.joins|
  {
    var s := SourceAt(p, i);
    s.Named? && SuppliesNulls(p.joins, i) ==>
      var parts := HintParts(w, p, i, s.table, EffAlias(s));
      parts == [] || exists k :: 0 <= k < |parts| && FailsOnNulls(w, BareCols(w, s), parts[k])
  }

  predicate FailsOnNulls(w: World, cols: seq<string>, c: Expr) {
    EvalTruth(w.lib, w.env, IndexCols(cols), Nulls(|cols|), c) != True
  }

  predicate PartScoped(c: Expr, all: Index, own: Index, off: nat, width: nat) {
    && LocalExpr(c, false)
    && forall x :: x in ExprCols(c) ==> SameColumn(all, own, off, width, x)
  }

  function SourceAt(p: Plan, i: int): Source
    requires -1 <= i < |p.joins|
  {
    if i < 0 then p.from else p.joins[i].source
  }

  function OffsetOf(w: World, p: Plan, i: int): nat
    requires -1 <= i < |p.joins|
  {
    if i < 0 then 0 else |ColsBefore(w, p, i)|
  }

  // The two keys of a semi-join are the columns ON compares, of one kind.
  predicate KeysScoped(w: World, p: Plan, n: nat)
    requires n < |p.joins|
  {
    var st := p.joins[n];
    st.source.Named? && (st.jt == Inner || st.jt == Left) ==>
      match JoinKeys(st.on, EffAlias(st.source), st.source.table)
      case None => true
      case Some((lk, rk)) =>
        && st.on.value.pred.sub.None? && (st.on.value.pred.column == "" || st.on.value.pred.leftExpr.None?)
        && (KeyIndex(ColsBefore(w, p, n), lk).Some? ==> KeysMeet(w, p, n, lk, rk))
  }

  predicate KeysMeet(w: World, p: Plan, n: nat, lk: string, rk: string)
    requires n < |p.joins|
  {
    var s := p.joins[n].source;
    var lcols, rcols := ColsBefore(w, p, n), BareCols(w, s);
    var idx := IndexCols(ColsBefore(w, p, n + 1));
    match (KeyIndex(lcols, lk), ResolveCol(IndexCols(rcols), ShortName(rk)))
    case (Some(i), Some(k)) =>
      && k < |rcols| && ResolveCol(idx, lk) == Some(i) && ResolveCol(idx, rk) == Some(|lcols| + k)
      && i < |KindsBefore(w, p, n)| && k < |KindsOf(w, s)|
      && KindsBefore(w, p, n)[i] == KindsOf(w, s)[k]
    case _ => false
  }

  ghost predicate SourceTyped(w: World, s: Source) {
    && |KindsOf(w, s)| == |BareCols(w, s)|
    && Typed(AllRows(w, s), KindsOf(w, s))
    && (s.Named? ==> s.table in w.tables)
    && (s.Lateral? ==> forall l :: Typed(s.right(l), s.kinds))
  }

  // Printed text tells apart the values of one kind.
  ghost predicate PrintsApart(text: Value -> string) {
    forall a, b :: SameKind(a, b) && text(a) == text(b) ==> a == b
  }

  // The planner reads every column name right.
  ghost predicate Readable(w: World, p: Plan) {
    && SourceTyped(w, p.from) && !p.from.Lateral?
    && PartsScoped(w, p, -1)
    && forall n :: 0 <= n < |p.joins| ==>
         && SourceTyped(w, p.joins[n].source) && PartsScoped(w, p, n) && KeysScoped(w, p, n)
         && (p.joins[n].source.Lateral? ==> !ExtendsLeft(p.joins[n].jt) && !ExtendsRight(p.joins[n].jt))
  }

  // What the theorem asks of a plan; all of it can be read off the schema, the query and its *Env.
  ghost predicate Sound(w: World, p: Plan) {
    Readable(w, p) && forall i :: -1 <= i < |p.joins| ==> NullsFail(w, p, i)
  }

  // ---------- Rows keep their columns ----------

  lemma {:induction false} WidthBefore(w: World, p: Plan, n: nat)
    requires Readable(w, p) && n <= |p.joins|
    ensures |ColsBefore(w, p, n)| == |KindsBefore(w, p, n)|
  {
    hide PartsScoped, KeysScoped, Typed;
    if n > 0 {
      WidthBefore(w, p, n - 1);
      assert SourceTyped(w, p.joins[n - 1].source);
    } else {
      assert SourceTyped(w, p.from);
    }
  }

  lemma StepShape(w: World, p: Plan, n: nat, ls: seq<Row>, rs: seq<Row>, x: Row) returns (l: Row, r: Row)
    requires n < |p.joins| && x in StepRows(w, p, n, ls, rs)
    ensures x == l + r
    ensures l in ls || l == Nulls(|ColsBefore(w, p, n)|)
    ensures var s := p.joins[n].source;
      r in rs || r == Nulls(|BareCols(w, s)|) || (s.Lateral? && r in s.right(l))
  {
    var st := p.joins[n];
    var lw, rw := |ColsBefore(w, p, n)|, |BareCols(w, st.source)|;
    if st.source.Lateral? {
      l, r := ApplyShape(ls, st.jt == OuterApply, st.source.right, rw, x);
    } else {
      l, r := JoinShape(ls, st.jt, lw, rs, rw, OnKeep(w, p, n), x);
    }
  }

  lemma PairTyped(l: Row, r: Row, a: seq<Kind>, b: seq<Kind>)
    requires RowTyped(l, a) || l == Nulls(|a|)
    requires RowTyped(r, b) || r == Nulls(|b|)
    ensures RowTyped(l + r, a + b)
  {
  }

  lemma StepTyped(w: World, p: Plan, n: nat, ls: seq<Row>, rs: seq<Row>)
    requires Readable(w, p) && n < |p.joins|
    requires Typed(ls, KindsBefore(w, p, n)) && Typed(rs, KindsOf(w, p.joins[n].source))
    ensures Typed(StepRows(w, p, n, ls, rs), KindsBefore(w, p, n + 1))
  {
    WidthBefore(w, p, n);
    var s := p.joins[n].source;
    var a, b := KindsBefore(w, p, n), KindsOf(w, s);
    assert SourceTyped(w, s);
    assert a + b == KindsBefore(w, p, n + 1) && (s.Lateral? ==> b == s.kinds);
    hide StepRows, PartsScoped, KeysScoped, ColsBefore, KindsBefore, KindsOf, Readable, RowTyped;
    forall x | x in StepRows(w, p, n, ls, rs) ensures RowTyped(x, a + b) {
      var l, r := StepShape(w, p, n, ls, rs, x);
      PairTyped(l, r, a, b);
    }
  }

  // ---------- The hint's verdict on a row's segment ----------

  // Whether columns off.. of a row, taken as a row of the source, satisfy the hint.
  function Segment(w: World, cols: seq<string>, hint: Option<Expr>, off: nat): Row -> bool {
    row => off + |cols| <= |row| && Keeps(w.lib, w.env, IndexCols(cols), row[off..off + |cols|], hint)
  }

  lemma SegmentReads(w: World, cols: seq<string>, hint: Option<Expr>, off: nat, n: nat)
    requires off + |cols| <= n
    ensures ReadsPrefix(Segment(w, cols, hint, off), n)
    ensures ReadsSuffix(Segment(w, cols, hint, off), Segment(w, cols, hint, 0), off)
  {
    var good, ok := Segment(w, cols, hint, off), Segment(w, cols, hint, 0);
    forall x: Row | |x| >= n ensures good(x) == good(x[..n]) {
      assert x[..n][off..off + |cols|] == x[off..off + |cols|];
    }
    forall x: Row | |x| >= off ensures good(x) == ok(x[off..]) {
      if |x| >= off + |cols| { assert x[off..][0..|cols|] == x[off..off + |cols|]; }
    }
  }

  lemma SegmentOfNulls(w: World, cols: seq<string>, hint: Option<Expr>, off: nat, n: nat)
    requires off + |cols| <= n
    ensures Segment(w, cols, hint, off)(Nulls(n)) == HintOn(w, cols, hint)(Nulls(|cols|))
  {
    assert Nulls(n)[off..off + |cols|] == Nulls(|cols|);
  }

  lemma SegmentOnTable(w: World, cols: seq<string>, hint: Option<Expr>, rows: seq<Row>)
    requires Wide(rows, |cols|)
    ensures Filter(Segment(w, cols, hint, 0), rows) == Filter(HintOn(w, cols, hint), rows)
  {
    forall r | r in rows ensures Segment(w, cols, hint, 0)(r) == HintOn(w, cols, hint)(r) {
      assert r[0..|cols|] == r;
    }
    FilterAgree(Segment(w, cols, hint, 0), HintOn(w, cols, hint), rows);
  }

  // On expressions that call no *Env scalar, RejectsNulls without *Env decides exactly whether a row whose columns
  // are all NULL can make the expression TRUE, whatever the environment.
  lemma RejectsNullsExactly(lib: Library, env: Env, idx: Index, n: nat, c: Expr)
    requires LocalExpr(c, true)
    ensures RejectsNulls(lib)(c) <==> EvalTruth(lib, env, idx, Nulls(n), c) != True
  {
    var here := Site(env, idx, Nulls(n));
    var bare := Site(Nil, map x | x in ExprCols(c) :: 0, [Null]);
    forall x | x in ExprCols(c) ensures here.At(x) == bare.At(x) {
      assert bare.At(x) == Null;
    }
    TruthIsLocal(lib, here, bare, c, true);
  }

  // So conjuncts that call none always meet the condition on NULL-extended sources.
  lemma EnvFreeFailsOnNulls(w: World, p: Plan, i: int)
    requires -1 <= i < |p.joins| && SourceAt(p, i).Named?
    requires var s := SourceAt(p, i); forall c :: c in HintParts(w, p, i, s.table, EffAlias(s)) ==> LocalExpr(c, true)
    ensures NullsFail(w, p, i)
  {
    var s := SourceAt(p, i);
    var cols := BareCols(w, s);
    var parts := HintParts(w, p, i, s.table, EffAlias(s));
    if SuppliesNulls(p.joins, i) && parts != [] {
      var c := parts[0];
      assert c in parts;
      assert RejectsNulls(w.lib)(c);
      RejectsNullsExactly(w.lib, w.env, IndexCols(cols), |cols|, c);
      assert FailsOnNulls(w, cols, parts[0]);
    }
  }

  // The condition is exact: the hint of a NULL-supplying source is not TRUE of its row of NULLs.
  lemma NullsFailHint(w: World, p: Plan, i: int)
    requires -1 <= i < |p.joins| && SuppliesNulls(p.joins, i) && SourceAt(p, i).Named?
    ensures var s := SourceAt(p, i);
      var hint := Hint(w, p, i, s.table, EffAlias(s));
      NullsFail(w, p, i) <==> (hint.Some? ==> !HintOn(w, BareCols(w, s), hint)(Nulls(|BareCols(w, s)|)))
  {
    var s := SourceAt(p, i);
    var cols := BareCols(w, s);
    var parts := HintParts(w, p, i, s.table, EffAlias(s));
    HintIsItsParts(w, p, i, s.table, EffAlias(s));
    hide Hint, HintParts;
    ConjoinDecides(w.lib, Site(w.env, IndexCols(cols), Nulls(|cols|)), parts);
    if parts != [] && !AllTrue(w.lib, Site(w.env, IndexCols(cols), Nulls(|cols|)), parts) {
      var c :| c in parts && EvalTruth(w.lib, w.env, IndexCols(cols), Nulls(|cols|), c) != True;
      var k :| 0 <= k < |parts| && parts[k] == c;
      assert FailsOnNulls(w, cols, parts[k]);
    }
  }

  // A conjunct of a source's hint says the same of the joined row and of the source's segment of it.
  lemma PartReadsSegment(lib: Library, env: Env, all: Index, own: Index, off: nat, width: nat, row: Row, c: Expr)
    requires off + width <= |row| && PartScoped(c, all, own, off, width)
    ensures EvalTruth(lib, env, all, row, c) == EvalTruth(lib, env, own, row[off..off + width], c)
  {
    var joined, scanned := Site(env, all, row), Site(env, own, row[off..off + width]);
    forall x | x in ExprCols(c) ensures joined.At(x) == scanned.At(x) {
      assert SameColumn(all, own, off, width, x);
    }
    TruthIsLocal(lib, joined, scanned, c, false);
  }

  lemma PartsFollow(lib: Library, env: Env, all: Index, own: Index, off: nat, width: nat, row: Row,
      where: Option<Expr>, parts: seq<Expr>)
    requires off + width <= |row| && Keeps(lib, env, all, row, where)
    requires forall c :: c in parts ==> c in Conjuncts(where) && PartScoped(c, all, own, off, width)
    ensures Keeps(lib, env, own, row[off..off + width], Conjoin(parts))
  {
    hide EvalTruth, PartScoped, Conjuncts, Conjoin, Keeps;
    var joined, scanned := Site(env, all, row), Site(env, own, row[off..off + width]);
    ConjunctsDecide(lib, joined, where);
    forall c | c in parts ensures EvalTruth(lib, scanned.env, scanned.idx, scanned.row, c) == True {
      PartReadsSegment(lib, env, all, own, off, width, row, c);
    }
    ConjoinDecides(lib, scanned, parts);
  }

  // A row the WHERE clause keeps satisfies every source's hint.
  lemma WhereImpliesHint(w: World, p: Plan, i: int, row: Row)
    requires -1 <= i < |p.joins| && SourceAt(p, i).Named? && PartsScoped(w, p, i)
    requires var s := SourceAt(p, i); OffsetOf(w, p, i) + |BareCols(w, s)| <= |row|
    requires WhereKeep(w, p)(row)
    ensures var s := SourceAt(p, i);
      Segment(w, BareCols(w, s), Hint(w, p, i, s.table, EffAlias(s)), OffsetOf(w, p, i))(row)
  {
    hide Conjuncts, Keeps, Conjoin, IndexCols, ColsBefore, PartScoped;
    var s := SourceAt(p, i);
    var parts := HintParts(w, p, i, s.table, EffAlias(s));
    HintIsItsParts(w, p, i, s.table, EffAlias(s));
    PartsFollow(w.lib, w.env, IndexCols(ColsBefore(w, p, |p.joins|)), IndexCols(BareCols(w, s)),
      OffsetOf(w, p, i), |BareCols(w, s)|, row, p.where, parts);
  }

  // ---------- Semi-join keys ----------

  lemma {:induction false} CoveredKey(text: Value -> string, rows: seq<Row>, k: nat, seen: set<string>, row: Row)
    returns (v: Value, from: Row)
    requires row in rows && k < |row| && !row[k].Null? && text(row[k]) !in seen
    ensures v in DistinctFrom(text, rows, k, seen) && text(v) == text(row[k])
    ensures from in rows && k < |from| && from[k] == v && !v.Null?
  {
    if row == rows[0] {
      v, from := row[k], row;
    } else if k >= |rows[0]| || rows[0][k].Null? || text(rows[0][k]) in seen {
      v, from := CoveredKey(text, rows[1..], k, seen, row);
    } else if text(rows[0][k]) == text(row[k]) {
      v, from := rows[0][k], rows[0];
    } else {
      v, from := CoveredKey(text, rows[1..], k, seen + {text(rows[0][k])}, row);
    }
  }

  lemma {:induction false} InListTrue(lib: Library, v: Value, list: seq<Value>, x: Value)
    requires x in list && Compare(lib.coerce, v, x, false) == Some(0)
    ensures InTruth(lib, v, list, false) == True
  {
    if x != list[0] { InListTrue(lib, v, list[1..], x); }
  }

  // An equality between two columns that holds finds them equal.
  lemma EqualColumns(lib: Library, env: Env, idx: Index, row: Row, on: Expr, alias: string, table: string)
    requires JoinKeys(Some(on), alias, table).Some?
    requires on.pred.sub.None? && (on.pred.column == "" || on.pred.leftExpr.None?)
    requires EvalTruth(lib, env, idx, row, on) == True
    ensures var (lk, rk) := JoinKeys(Some(on), alias, table).value;
      var l, r := Lookup(idx, row, lk), Lookup(idx, row, rk);
      exists exact :: Compare(lib.coerce, l, r, exact) == Some(0) || Compare(lib.coerce, r, l, exact) == Some(0)
  {
    hide Lookup, Compare, QualifiedBy, InTruth, LikeTruth, NullTruth;
    var p := on.pred;
    var a := if p.column == "" && p.leftExpr.Some? && p.leftExpr.value.Col? then p.leftExpr.value.col else p.column;
    var left :=
      if p.leftExpr.Some? then EvalValue(lib, env, idx, row, p.leftExpr.value) else Lookup(idx, row, p.column);
    assert left == Lookup(idx, row, a);
    var right := EvalOperand(lib, env, idx, row, p.value);
    assert EvalPred(lib, env, idx, row, p) == CmpTruth(lib, Eq, left, right, p.caseSensitive);
    if p.value.Computed? && p.value.e.Col? {
      assert EvalValue(lib, env, idx, row, p.value.e) == Lookup(idx, row, p.value.e.col);
    }
    assert Compare(lib.coerce, left, right, p.caseSensitive) == Some(0);
  }

  // A pair of rows that ON accepts has its right row on the semi-join's list.
  lemma PartnerIsListed(w: World, p: Plan, n: nat, ls: seq<Row>, l: Row, r: Row)
    requires n < |p.joins| && KeysScoped(w, p, n) && SourceTyped(w, p.joins[n].source)
    requires |ColsBefore(w, p, n)| == |KindsBefore(w, p, n)|
    requires Typed(ls, KindsBefore(w, p, n)) && RowTyped(r, KindsOf(w, p.joins[n].source))
    requires PrintsApart(w.lib.text)
    requires l in ls && OnKeep(w, p, n)(l + r)
    requires SemiJoin(w, p, n, ls).Some?
    ensures var (col, vals) := SemiJoin(w, p, n, ls).value;
      HintOn(w, BareCols(w, p.joins[n].source), Some(InPredicate(col, vals)))(r)
  {
    hide *;
    var st := p.joins[n];
    var rcols := BareCols(w, st.source);
    var lk, rk, i, k := SemiJoinParts(w, p, n, ls);
    var idx := IndexCols(ColsBefore(w, p, n + 1));
    OnHolds(w, p, n, l + r);
    TypedMember(ls, KindsBefore(w, p, n), l);
    TypedMember([r], KindsOf(w, st.source), r);
    LookupPair(idx, l, r, lk, rk, i, k);
    EqualColumns(w.lib, w.env, idx, l + r, st.on.value, EffAlias(st.source), st.source.table);
    KeyOnList(w.lib, l, i, r, k, ls, KindsBefore(w, p, n), KindsOf(w, st.source));
    ListedMeans(w, rcols, ShortName(rk), DistinctFrom(w.lib.text, ls, i, {}), r, k);
  }

  // The keys of a semi-join, resolved.
  lemma SemiJoinParts(w: World, p: Plan, n: nat, ls: seq<Row>) returns (lk: string, rk: string, i: nat, k: nat)
    requires n < |p.joins| && KeysScoped(w, p, n) && SourceTyped(w, p.joins[n].source)
    requires |ColsBefore(w, p, n)| == |KindsBefore(w, p, n)|
    requires SemiJoin(w, p, n, ls).Some?
    ensures var st := p.joins[n];
      && st.on.Some? && st.source.Named? && JoinKeys(st.on, EffAlias(st.source), st.source.table) == Some((lk, rk))
      && SemiJoin(w, p, n, ls) == Some((ShortName(rk), DistinctFrom(w.lib.text, ls, i, {})))
      && st.on.value.Pred? && st.on.value.pred.sub.None?
      && (st.on.value.pred.column == "" || st.on.value.pred.leftExpr.None?)
      && ResolveCol(IndexCols(BareCols(w, st.source)), ShortName(rk)) == Some(k)
      && ResolveCol(IndexCols(ColsBefore(w, p, n + 1)), lk) == Some(i)
      && ResolveCol(IndexCols(ColsBefore(w, p, n + 1)), rk) == Some(|ColsBefore(w, p, n)| + k)
      && i < |KindsBefore(w, p, n)| && k < |KindsOf(w, st.source)|
      && KindsBefore(w, p, n)[i] == KindsOf(w, st.source)[k]
  {
    hide ColsBefore, KindsBefore, IndexCols, ResolveCol, DistinctFrom, KeyIndex, QualifiedBy, ShortName, Typed;
    var st := p.joins[n];
    var keys := JoinKeys(st.on, EffAlias(st.source), st.source.table).value;
    lk, rk := keys.0, keys.1;
    i := KeyIndex(ColsBefore(w, p, n), lk).value;
    k := ResolveCol(IndexCols(BareCols(w, st.source)), ShortName(rk)).value;
  }

  lemma OnHolds(w: World, p: Plan, n: nat, row: Row)
    requires n < |p.joins| && p.joins[n].on.Some? && OnKeep(w, p, n)(row)
    ensures EvalTruth(w.lib, w.env, IndexCols(ColsBefore(w, p, n + 1)), row, p.joins[n].on.value) == True
  {
  }

  lemma TypedMember(rows: seq<Row>, kinds: seq<Kind>, r: Row)
    requires r in rows && (Typed(rows, kinds) || RowTyped(r, kinds))
    ensures RowTyped(r, kinds) && |r| == |kinds|
  {
  }

  lemma LookupPair(idx: Index, l: Row, r: Row, lk: string, rk: string, i: nat, k: nat)
    requires i < |l| && k < |r| && ResolveCol(idx, lk) == Some(i) && ResolveCol(idx, rk) == Some(|l| + k)
    ensures Lookup(idx, l + r, lk) == l[i] && Lookup(idx, l + r, rk) == r[k]
  {
  }

  lemma KeyOnList(lib: Library, l: Row, i: nat, r: Row, k: nat, ls: seq<Row>, a: seq<Kind>, b: seq<Kind>)
    requires Typed(ls, a) && RowTyped(r, b) && l in ls && i < |a| && k < |b| && a[i] == b[k]
    requires PrintsApart(lib.text)
    requires exists exact ::
      Compare(lib.coerce, l[i], r[k], exact) == Some(0) || Compare(lib.coerce, r[k], l[i], exact) == Some(0)
    ensures InTruth(lib, r[k], DistinctFrom(lib.text, ls, i, {}), false) == True
  {
    assert RowTyped(l, a);
    var exact :| Compare(lib.coerce, l[i], r[k], exact) == Some(0) || Compare(lib.coerce, r[k], l[i], exact) == Some(0);
    if Compare(lib.coerce, l[i], r[k], exact) == Some(0) {
      EqualEitherWay(lib.coerce, l[i], r[k], exact);
    } else {
      EqualEitherWay(lib.coerce, r[k], l[i], exact);
      EqualEitherWay(lib.coerce, l[i], r[k], false);
    }
    var v, from := CoveredKey(lib.text, ls, i, {}, l);
    assert RowTyped(from, a);
    assert SameKind(v, l[i]);
    InListTrue(lib, r[k], DistinctFrom(lib.text, ls, i, {}), l[i]);
  }

  lemma ListedMeans(w: World, cols: seq<string>, name: string, vals: seq<Value>, r: Row, k: nat)
    requires ResolveCol(IndexCols(cols), name) == Some(k) && k < |r|
    requires InTruth(w.lib, r[k], vals, false) == True
    ensures HintOn(w, cols, Some(InPredicate(name, vals)))(r)
  {
    hide InTruth, IndexCols;
    var e := InPredicate(name, vals);
    assert EvalPred(w.lib, w.env, IndexCols(cols), r, e.pred) == True;
  }

  // ---------- One source at a time ----------

  lemma ScanKeeps(w: World, table: string, hint: Option<Expr>)
    requires Honest(w) && table in w.tables
    ensures var t := w.tables[table];
      && Filter(HintOn(w, t.cols, hint), w.scan(table, hint)) == Filter(HintOn(w, t.cols, hint), t.rows)
      && (forall r :: r in w.scan(table, hint) ==> r in t.rows)
      && (hint == None ==> w.scan(table, hint) == t.rows)
  {
    var t := w.tables[table];
    LeavesFilter(t.rows, w.scan(table, hint), HintOn(w, t.cols, hint));
    if hint == None {
      FilterAll(HintOn(w, t.cols, hint), t.rows);
      FilterAll(HintOn(w, t.cols, hint), w.scan(table, hint));
    }
  }

  lemma AndExprDecides(w: World, cols: seq<string>, a: Option<Expr>, b: Expr, r: Row)
    ensures HintOn(w, cols, Some(AndExpr(a, b)))(r) == (HintOn(w, cols, a)(r) && HintOn(w, cols, Some(b))(r))
  {
    if a.Some? {
      var s := Site(w.env, IndexCols(cols), r);
      AndIsAll(w.lib, s, [a.value, b]);
      assert forall c :: c in [a.value, b] <==> c == a.value || c == b;
    }
  }

  // What stays of the fetched and of the whole right side once rows without a partner are left out:
  // the join does not miss them, and the WHERE hint finds the same rows in both.
  lemma Reduced(w: World, p: Plan, n: nat, ls: seq<Row>) returns (a: seq<Row>, b: seq<Row>)
    requires Readable(w, p) && Honest(w) && PrintsApart(w.lib.text)
    requires n < |p.joins| && p.joins[n].source.Named? && Typed(ls, KindsBefore(w, p, n))
    ensures var s := p.joins[n].source;
      var hint := HintOn(w, BareCols(w, s), Hint(w, p, n, s.table, EffAlias(s)));
      && StepRows(w, p, n, ls, Fetch(w, p, n, ls)) == StepRows(w, p, n, ls, a)
      && StepRows(w, p, n, ls, AllRows(w, s)) == StepRows(w, p, n, ls, b)
      && Filter(hint, a) == Filter(hint, b)
      && (forall r :: r in a || r in b ==> r in AllRows(w, s))
      && (forall r :: r in a ==> r in b)
  {
    hide Hint, ColsBefore, KindsBefore, Typed, PartsScoped, SemiJoin, HintOn;
    var st := p.joins[n];
    var s := st.source;
    assert SourceTyped(w, s);
    var t := w.tables[s.table];
    var plain, full := Hint(w, p, n, s.table, EffAlias(s)), FullHint(w, p, n, ls);
    ScanKeeps(w, s.table, full);
    var part := w.scan(s.table, full);
    a, b := part, t.rows;
    var semi := SemiJoin(w, p, n, ls);
    if semi.Some? {
      var list := Some(InPredicate(semi.value.0, semi.value.1));
      var partner := HintOn(w, t.cols, list);
      forall l, r | l in ls && r in t.rows && OnKeep(w, p, n)(l + r) ensures partner(r) {
        WidthBefore(w, p, n);
        TypedMember(t.rows, t.kinds, r);
        PartnerIsListed(w, p, n, ls, l, r);
      }
      SemiJoinIsLeftward(w, p, n, ls);
      OnlyPartnersMatter(ls, st.jt, |ColsBefore(w, p, n)|, part, |t.cols|, OnKeep(w, p, n), partner);
      OnlyPartnersMatter(ls, st.jt, |ColsBefore(w, p, n)|, t.rows, |t.cols|, OnKeep(w, p, n), partner);
      a, b := Filter(partner, part), Filter(partner, t.rows);
      forall r { AndExprDecides(w, t.cols, plain, list.value, r); }
      FilterTwice(HintOn(w, t.cols, plain), partner, HintOn(w, t.cols, full), part);
      FilterTwice(HintOn(w, t.cols, plain), partner, HintOn(w, t.cols, full), t.rows);
      forall r | r in a ensures r in b { FilterHas(partner, t.rows, r); }
    }
  }

  lemma SemiJoinIsLeftward(w: World, p: Plan, n: nat, ls: seq<Row>)
    requires n < |p.joins| && SemiJoin(w, p, n, ls).Some?
    ensures !ExtendsRight(p.joins[n].jt)
  {
  }

  // Restricting the right scan to the distinct left keys leaves the join as it is, row for row.
  lemma SemiJoinIsExact(w: World, p: Plan, n: nat, ls: seq<Row>)
    requires Readable(w, p) && PrintsApart(w.lib.text)
    requires n < |p.joins| && Typed(ls, KindsBefore(w, p, n)) && SemiJoin(w, p, n, ls).Some?
    ensures var (col, vals) := SemiJoin(w, p, n, ls).value;
      var s := p.joins[n].source;
      var listed := HintOn(w, BareCols(w, s), Some(InPredicate(col, vals)));
      StepRows(w, p, n, ls, Filter(listed, AllRows(w, s))) == StepRows(w, p, n, ls, AllRows(w, s))
  {
    hide Hint, ColsBefore, KindsBefore, Typed, PartsScoped, SemiJoin, HintOn, KeysScoped;
    var st := p.joins[n];
    assert SourceTyped(w, st.source);
    var rs := AllRows(w, st.source);
    var (col, vals) := SemiJoin(w, p, n, ls).value;
    var listed := HintOn(w, BareCols(w, st.source), Some(InPredicate(col, vals)));
    forall l, r | l in ls && r in rs && OnKeep(w, p, n)(l + r) ensures listed(r) {
      WidthBefore(w, p, n);
      TypedMember(rs, KindsOf(w, st.source), r);
      PartnerIsListed(w, p, n, ls, l, r);
    }
    SemiJoinIsLeftward(w, p, n, ls);
    OnlyPartnersMatter(ls, st.jt, |ColsBefore(w, p, n)|, rs, |BareCols(w, st.source)|, OnKeep(w, p, n), listed);
  }

  // The verdict of the hint of the source at i on a joined row.
  function Good(w: World, p: Plan, i: int): Row -> bool
    requires -1 <= i < |p.joins| && SourceAt(p, i).Named?
  {
    var s := SourceAt(p, i);
    Segment(w, BareCols(w, s), Hint(w, p, i, s.table, EffAlias(s)), OffsetOf(w, p, i))
  }

  // No outer join after step n can make a row whose segment of the source at i is NULL count as good.
  ghost predicate NullsAreBad(w: World, p: Plan, i: int, n: nat)
    requires -1 <= i < |p.joins| && SourceAt(p, i).Named? && n <= |p.joins|
  {
    forall j :: n <= j < |p.joins| && ExtendsRight(p.joins[j].jt) ==> !Good(w, p, i)(Nulls(|ColsBefore(w, p, j)|))
  }

  lemma {:induction false} Widens(w: World, p: Plan, i: int, n: nat)
    requires -1 <= i < n <= |p.joins|
    ensures OffsetOf(w, p, i) + |BareCols(w, SourceAt(p, i))| <= |ColsBefore(w, p, n)|
    decreases n
  {
    if i < n - 1 { Widens(w, p, i, n - 1); }
  }

  lemma NullsBadAfter(w: World, p: Plan, i: int)
    requires Sound(w, p) && -1 <= i < |p.joins| && SourceAt(p, i).Named?
    requires var s := SourceAt(p, i); Hint(w, p, i, s.table, EffAlias(s)).Some?
    ensures NullsAreBad(w, p, i, i + 1)
    ensures i >= 0 && ExtendsLeft(p.joins[i].jt) ==>
      var s := SourceAt(p, i);
      !HintOn(w, BareCols(w, s), Hint(w, p, i, s.table, EffAlias(s)))(Nulls(|BareCols(w, s)|))
  {
    hide SourceTyped, KeysScoped, HintOn, Hint, ColsBefore, Segment;
    var s := SourceAt(p, i);
    assert NullsFail(w, p, i);
    hide PartsScoped, NullsFail;
    if SuppliesNulls(p.joins, i) { NullsFailHint(w, p, i); }
    forall j | i + 1 <= j < |p.joins| && ExtendsRight(p.joins[j].jt)
      ensures !Good(w, p, i)(Nulls(|ColsBefore(w, p, j)|))
    {
      Widens(w, p, i, j);
      SegmentOfNulls(w, BareCols(w, s), Hint(w, p, i, s.table, EffAlias(s)), OffsetOf(w, p, i), |ColsBefore(w, p, j)|);
    }
  }

  // A join step over the fetched rows and one over the whole table agree on the good rows.
  lemma StepSame(w: World, p: Plan, n: nat, ls: seq<Row>)
    requires Sound(w, p) && Honest(w) && PrintsApart(w.lib.text)
    requires n < |p.joins| && p.joins[n].source.Named? && Typed(ls, KindsBefore(w, p, n))
    ensures var s := p.joins[n].source;
      var a, b := StepRows(w, p, n, ls, Fetch(w, p, n, ls)), StepRows(w, p, n, ls, AllRows(w, s));
      && Filter(Good(w, p, n), a) == Filter(Good(w, p, n), b)
      && (Hint(w, p, n, s.table, EffAlias(s)) == None ==> a == b)
  {
    var a, b := Reduced(w, p, n, ls);
    var st := p.joins[n];
    var s := st.source;
    var cols, lw := BareCols(w, s), |ColsBefore(w, p, n)|;
    var hint := Hint(w, p, n, s.table, EffAlias(s));
    WidthBefore(w, p, n);
    assert SourceTyped(w, s);
    assert Wide(ls, lw) && Wide(a, |cols|) && Wide(b, |cols|) by { TypedIsWide(w, p, n, ls, a, b); }
    hide Hint, ColsBefore, PartsScoped, KeysScoped, Segment, HintOn, Fetch, Sound, Readable, Typed, SourceTyped;
    if hint == None {
      HintNone(w, cols, a);
      HintNone(w, cols, b);
    } else {
      NullsBadAfter(w, p, n);
      SegmentReads(w, cols, hint, lw, lw + |cols|);
      SegmentOnTable(w, cols, hint, a);
      SegmentOnTable(w, cols, hint, b);
      SegmentOfNulls(w, cols, hint, 0, |cols|);
      SameGoodRight(Good(w, p, n), Segment(w, cols, hint, 0), ls, st.jt, lw, a, b, |cols|, OnKeep(w, p, n));
    }
  }

  lemma HintNone(w: World, cols: seq<string>, rows: seq<Row>)
    ensures Filter(HintOn(w, cols, None), rows) == rows
  {
    FilterAll(HintOn(w, cols, None), rows);
  }

  lemma TypedIsWide(w: World, p: Plan, n: nat, ls: seq<Row>, a: seq<Row>, b: seq<Row>)
    requires Readable(w, p) && n < |p.joins| && Typed(ls, KindsBefore(w, p, n))
    requires forall r :: r in a || r in b ==> r in AllRows(w, p.joins[n].source)
    ensures var k := |BareCols(w, p.joins[n].source)|;
      Wide(ls, |ColsBefore(w, p, n)|) && Wide(a, k) && Wide(b, k)
  {
    WidthBefore(w, p, n);
    assert SourceTyped(w, p.joins[n].source);
  }

  // Left inputs that agree on the good rows of source i stay so through the rest of the joins.
  lemma {:induction false} WholeSame(w: World, p: Plan, i: int, n: nat, a: seq<Row>, b: seq<Row>)
    requires Readable(w, p) && -1 <= i < n <= |p.joins| && SourceAt(p, i).Named? && NullsAreBad(w, p, i, n)
    requires Typed(a, KindsBefore(w, p, n)) && Typed(b, KindsBefore(w, p, n))
    requires Filter(Good(w, p, i), a) == Filter(Good(w, p, i), b)
    ensures Filter(Good(w, p, i), Whole(w, p, n, a)) == Filter(Good(w, p, i), Whole(w, p, n, b))
    decreases |p.joins| - n
  {
    if n < |p.joins| {
      var s := p.joins[n].source;
      assert SourceTyped(w, s);
      StepKeepsGood(w, p, i, n, a, b);
      StepTyped(w, p, n, a, AllRows(w, s));
      StepTyped(w, p, n, b, AllRows(w, s));
      hide Readable, StepRows, Good, AllRows, Typed, KindsBefore;
      WholeSame(w, p, i, n + 1, StepRows(w, p, n, a, AllRows(w, s)), StepRows(w, p, n, b, AllRows(w, s)));
    }
  }

  lemma StepKeepsGood(w: World, p: Plan, i: int, n: nat, a: seq<Row>, b: seq<Row>)
    requires Readable(w, p) && -1 <= i < n < |p.joins| && SourceAt(p, i).Named? && NullsAreBad(w, p, i, n)
    requires Typed(a, KindsBefore(w, p, n)) && Typed(b, KindsBefore(w, p, n))
    requires Filter(Good(w, p, i), a) == Filter(Good(w, p, i), b)
    ensures var rs := AllRows(w, p.joins[n].source);
      Filter(Good(w, p, i), StepRows(w, p, n, a, rs)) == Filter(Good(w, p, i), StepRows(w, p, n, b, rs))
  {
    var st := p.joins[n];
    var good, lw := Good(w, p, i), |ColsBefore(w, p, n)|;
    var rw, rs := |BareCols(w, st.source)|, AllRows(w, st.source);
    var s := SourceAt(p, i);
    TypedIsWide(w, p, n, a, [], []);
    TypedIsWide(w, p, n, b, [], []);
    Widens(w, p, i, n);
    assert good == Segment(w, BareCols(w, s), Hint(w, p, i, s.table, EffAlias(s)), OffsetOf(w, p, i));
    SegmentReads(w, BareCols(w, s), Hint(w, p, i, s.table, EffAlias(s)), OffsetOf(w, p, i), lw);
    assert ExtendsRight(st.jt) ==> !good(Nulls(lw));
    hide Readable, ColsBefore, Good, Segment, Typed, AllRows, NullsAreBad, Hint, OnKeep;
    if st.source.Lateral? {
      AppliedExtends(st.jt == OuterApply, st.source.right, rw);
      FilterLeft(good, Applied(st.jt == OuterApply, st.source.right, rw), a, lw);
      FilterLeft(good, Applied(st.jt == OuterApply, st.source.right, rw), b, lw);
    } else {
      SameGoodLeft(good, a, b, st.jt, lw, rs, rw, OnKeep(w, p, n));
    }
  }

  lemma {:induction false} WholeTyped(w: World, p: Plan, n: nat, ls: seq<Row>)
    requires Readable(w, p) && n <= |p.joins| && Typed(ls, KindsBefore(w, p, n))
    ensures Typed(Whole(w, p, n, ls), KindsBefore(w, p, |p.joins|))
    decreases |p.joins| - n
  {
    if n < |p.joins| {
      var s := p.joins[n].source;
      assert SourceTyped(w, s);
      StepTyped(w, p, n, ls, AllRows(w, s));
      WholeTyped(w, p, n + 1, StepRows(w, p, n, ls, AllRows(w, s)));
    }
  }

  // Rows the WHERE clause keeps are good, so good rows are all it needs to see.
  lemma WhereNeedsGood(w: World, p: Plan, i: int, rows: seq<Row>)
    requires Readable(w, p) && -1 <= i < |p.joins| && SourceAt(p, i).Named?
    requires Typed(rows, KindsBefore(w, p, |p.joins|))
    ensures Filter(WhereKeep(w, p), rows) == Filter(WhereKeep(w, p), Filter(Good(w, p, i), rows))
  {
    hide *;
    forall r | r in rows ensures WhereKeep(w, p)(r) == (WhereKeep(w, p)(r) && Good(w, p, i)(r)) {
      TypedRow(rows, KindsBefore(w, p, |p.joins|), r);
      KeptIsGood(w, p, i, r);
    }
    FilterTwice(WhereKeep(w, p), Good(w, p, i), WhereKeep(w, p), rows);
  }

  lemma TypedRow(rows: seq<Row>, kinds: seq<Kind>, r: Row)
    requires Typed(rows, kinds) && r in rows
    ensures RowTyped(r, kinds)
  {
  }

  lemma KeptIsGood(w: World, p: Plan, i: int, r: Row)
    requires Readable(w, p) && -1 <= i < |p.joins| && SourceAt(p, i).Named?
    requires RowTyped(r, KindsBefore(w, p, |p.joins|))
    ensures WhereKeep(w, p)(r) ==> Good(w, p, i)(r)
  {
    hide *;
    WidthBefore(w, p, |p.joins|);
    Widens(w, p, i, |p.joins|);
    ReadsParts(w, p, i);
    RowIsWide(r, KindsBefore(w, p, |p.joins|));
    if WhereKeep(w, p)(r) {
      WhereImpliesHint(w, p, i, r);
      GoodIsSegment(w, p, i, r);
    }
  }

  lemma ReadsParts(w: World, p: Plan, i: int)
    requires Readable(w, p) && -1 <= i < |p.joins|
    ensures PartsScoped(w, p, i)
  {
    hide PartsScoped, KeysScoped, SourceTyped;
  }

  lemma RowIsWide(r: Row, kinds: seq<Kind>)
    requires RowTyped(r, kinds)
    ensures |r| == |kinds|
  {
  }

  lemma GoodIsSegment(w: World, p: Plan, i: int, r: Row)
    requires -1 <= i < |p.joins| && SourceAt(p, i).Named?
    ensures var s := SourceAt(p, i);
      Good(w, p, i)(r) == Segment(w, BareCols(w, s), Hint(w, p, i, s.table, EffAlias(s)), OffsetOf(w, p, i))(r)
  {
    hide Segment, Hint, OffsetOf, BareCols;
  }

  lemma SoundIsReadable(w: World, p: Plan)
    requires Sound(w, p)
    ensures Readable(w, p)
  {
  }

  // Two starts that agree on the good rows of source i give the same answer.
  lemma SameAnswer(w: World, p: Plan, i: int, a: seq<Row>, b: seq<Row>)
    requires Sound(w, p) && -1 <= i < |p.joins| && SourceAt(p, i).Named?
    requires Typed(a, KindsBefore(w, p, i + 1)) && Typed(b, KindsBefore(w, p, i + 1))
    requires Filter(Good(w, p, i), a) == Filter(Good(w, p, i), b)
    requires var s := SourceAt(p, i); Hint(w, p, i, s.table, EffAlias(s)) == None ==> a == b
    ensures Filter(WhereKeep(w, p), Whole(w, p, i + 1, a)) == Filter(WhereKeep(w, p), Whole(w, p, i + 1, b))
  {
    hide *;
    var s := SourceAt(p, i);
    if Hint(w, p, i, s.table, EffAlias(s)).Some? {
      NullsBadAfter(w, p, i);
      SoundIsReadable(w, p);
      WholeSame(w, p, i, i + 1, a, b);
      WholeTyped(w, p, i + 1, a);
      WholeTyped(w, p, i + 1, b);
      WhereNeedsGood(w, p, i, Whole(w, p, i + 1, a));
      WhereNeedsGood(w, p, i, Whole(w, p, i + 1, b));
    }
  }

  lemma FetchTyped(w: World, p: Plan, n: nat, ls: seq<Row>)
    requires Readable(w, p) && Honest(w) && n < |p.joins| && Typed(ls, KindsBefore(w, p, n))
    ensures Typed(Fetch(w, p, n, ls), KindsOf(w, p.joins[n].source))
    ensures Typed(AllRows(w, p.joins[n].source), KindsOf(w, p.joins[n].source))
  {
    hide KindsBefore, FullHint, PartsScoped, KeysScoped, RowTyped;
    var s := p.joins[n].source;
    assert SourceTyped(w, s);
    if s.Named? { ScanKeeps(w, s.table, FullHint(w, p, n, ls)); }
  }

  // From any point of the join loop on, fetching under hints and reading whole tables answer alike.
  lemma {:induction false} PushedIsWhole(w: World, p: Plan, n: nat, ls: seq<Row>)
    requires Sound(w, p) && Honest(w) && PrintsApart(w.lib.text)
    requires n <= |p.joins| && Typed(ls, KindsBefore(w, p, n))
    ensures Filter(WhereKeep(w, p), Pushed(w, p, n, ls)) == Filter(WhereKeep(w, p), Whole(w, p, n, ls))
    decreases |p.joins| - n
  {
    if n < |p.joins| {
      var s := p.joins[n].source;
      var a, b := StepRows(w, p, n, ls, Fetch(w, p, n, ls)), StepRows(w, p, n, ls, AllRows(w, s));
      FetchTyped(w, p, n, ls);
      StepTyped(w, p, n, ls, Fetch(w, p, n, ls));
      StepTyped(w, p, n, ls, AllRows(w, s));
      assert !s.Named? ==> Fetch(w, p, n, ls) == AllRows(w, s);
      assert Pushed(w, p, n, ls) == Pushed(w, p, n + 1, a) && Whole(w, p, n, ls) == Whole(w, p, n + 1, b);
      assert SourceAt(p, n) == s;
      hide *;
      PushedIsWhole(w, p, n + 1, a);
      if s.Named? {
        StepSame(w, p, n, ls);
        SameAnswer(w, p, n, a, b);
      }
    }
  }

  // Whatever part of the hints a backend applies, the rows the query keeps are the ones it would keep
  // over whole tables, in the same order.
  lemma PushdownKeepsAnswer(w: World, p: Plan)
    requires Sound(w, p) && Honest(w) && PrintsApart(w.lib.text)
    ensures Filter(WhereKeep(w, p), Pushed(w, p, 0, FetchFrom(w, p))) ==
      Filter(WhereKeep(w, p), Whole(w, p, 0, AllRows(w, p.from)))
  {
    var s := p.from;
    assert SourceTyped(w, s) && SourceAt(p, -1) == s;
    var a, b := FetchFrom(w, p), AllRows(w, s);
    assert KindsBefore(w, p, 0) == KindsOf(w, s) && (!s.Named? ==> a == b);
    if s.Named? { FromSame(w, p); }
    hide *;
    PushedIsWhole(w, p, 0, a);
    if s.Named? { SameAnswer(w, p, -1, a, b); }
  }

  lemma FromSame(w: World, p: Plan)
    requires Readable(w, p) && Honest(w) && p.from.Named?
    ensures Typed(FetchFrom(w, p), KindsOf(w, p.from))
    ensures Filter(Good(w, p, -1), FetchFrom(w, p)) == Filter(Good(w, p, -1), AllRows(w, p.from))
    ensures Hint(w, p, -1, p.from.table, EffAlias(p.from)) == None ==> FetchFrom(w, p) == AllRows(w, p.from)
  {
    hide Hint, PartsScoped, KeysScoped, Segment, HintOn;
    var s := p.from;
    var hint := Hint(w, p, -1, s.table, EffAlias(s));
    assert SourceTyped(w, s);
    ScanKeeps(w, s.table, hint);
    var t := w.tables[s.table];
    assert forall r :: r in t.rows ==> RowTyped(r, t.kinds);
    SegmentOnTable(w, t.cols, hint, w.scan(s.table, hint));
    SegmentOnTable(w, t.cols, hint, t.rows);
  }
}
