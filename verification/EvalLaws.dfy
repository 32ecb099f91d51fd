// What the predicates and CASE mean, told over values and rows (evalPred in internal/exec/exec.go, evalValue in
// internal/exec/value.go, resolveSubqueries in internal/engine/engine.go).
module EvalLaws {
  import opened Option
  import opened Fold
  import opened Tds
  import opened Exec
  import opened Binder
  import opened Hoist
  import Like

  // The left side of a predicate.
  function Subject(lib: Library, s: Site, p: Predicate): Value {
    if p.leftExpr.Some? then EvalValue(lib, s.env, s.idx, s.row, p.leftExpr.value) else Lookup(s.idx, s.row, p.column)
  }

  // ---------- IN a subquery ----------

  // Whether the answer rows hold v in their first column: TRUE if one compares equal, FALSE if all compare unequal.
  ghost predicate HasEqual(lib: Library, v: Value, rows: seq<Row>, exact: bool) {
    exists r :: r in rows && r != [] && Compare(lib.coerce, v, r[0], exact) == Some(0)
  }

  ghost predicate AllUnequal(lib: Library, v: Value, rows: seq<Row>, exact: bool) {
    forall r :: r in rows && r != [] ==>
      Compare(lib.coerce, v, r[0], exact).Some? && Compare(lib.coerce, v, r[0], exact).value != 0
  }

  ghost function Among(lib: Library, v: Value, rows: seq<Row>, exact: bool): Truth {
    if HasEqual(lib, v, rows, exact) then True else if AllUnequal(lib, v, rows, exact) then False else Unknown
  }

  // One row more.
  lemma AmongOneMore(lib: Library, v: Value, r: Row, rest: seq<Row>, exact: bool)
    ensures r == [] ==> Among(lib, v, [r] + rest, exact) == Among(lib, v, rest, exact)
    ensures r != [] ==>
      var c, more := Compare(lib.coerce, v, r[0], exact), Among(lib, v, rest, exact);
      Among(lib, v, [r] + rest, exact) ==
        if c == Some(0) || more == True then True else if c.None? then Unknown else more
  {
    hide Compare;
    var rows := [r] + rest;
    assert forall x :: x in rows <==> x == r || x in rest;
    assert HasEqual(lib, v, rows, exact) <==>
      HasEqual(lib, v, rest, exact) || (r != [] && Compare(lib.coerce, v, r[0], exact) == Some(0));
  }

  lemma {:induction false} FirstColumnIsAmong(lib: Library, v: Value, rows: seq<Row>, exact: bool)
    ensures InTruth(lib, v, FirstColumn(rows), exact) == Among(lib, v, rows, exact)
  {
    hide Compare, Among;
    if rows == [] {
      NoneAmong(lib, v, exact);
    } else {
      var r := rows[0];
      FirstColumnIsAmong(lib, v, rows[1..], exact);
      assert rows == [r] + rows[1..];
      AmongOneMore(lib, v, r, rows[1..], exact);
      if r == [] {
        assert FirstColumn(rows) == FirstColumn(rows[1..]);
      } else {
        assert FirstColumn(rows) == [r[0]] + FirstColumn(rows[1..]);
        assert FirstColumn(rows)[1..] == FirstColumn(rows[1..]);
      }
    }
  }

  lemma NoneAmong(lib: Library, v: Value, exact: bool)
    ensures Among(lib, v, [], exact) == False
  {
  }

  // Run for the row.
  lemma InSubquery(lib: Library, s: Site, p: Predicate)
    requires p.op == In && p.sub.Some? && s.env.Env?
    ensures EvalPred(lib, s.env, s.idx, s.row, p) ==
      Among(lib, Subject(lib, s, p), s.env.sub(s.row, s.idx, p.sub.value), p.caseSensitive)
  {
    hide InTruth, Among, FirstColumn, EvalValue, Lookup;
    FirstColumnIsAmong(lib, Subject(lib, s, p), s.env.sub(s.row, s.idx, p.sub.value), p.caseSensitive);
  }

  // Run once: the predicate that is put in its place says the same of the rows of that run, in any environment.
  lemma InHoisted(lib: Library, s: Site, run: Query -> seq<Row>, p: Predicate, quals: set<string>)
    requires p.op == In && p.sub.Some? && !IsCorrelated(p.sub.value, quals)
    ensures EvalTruth(lib, s.env, s.idx, s.row, ResolveExpr(run, Pred(p), quals)) ==
      Among(lib, Subject(lib, s, p), run(p.sub.value), p.caseSensitive)
  {
    hide InTruth, Among, FirstColumn, EvalValue, Lookup, IsCorrelated;
    var k := p.(value := List(FirstColumn(run(p.sub.value))), sub := None);
    assert ResolveExpr(run, Pred(p), quals) == Pred(k);
    assert EvalTruth(lib, s.env, s.idx, s.row, Pred(k)) == EvalPred(lib, s.env, s.idx, s.row, k);
    FirstColumnIsAmong(lib, Subject(lib, s, p), run(p.sub.value), p.caseSensitive);
  }

  // ---------- EXISTS and scalar subqueries ----------

  // EXISTS is TRUE over some rows and FALSE over none, run for the row or once.
  lemma ExistsRows(lib: Library, s: Site, run: Query -> seq<Row>, p: Predicate, quals: set<string>)
    requires p.op == Exists && p.sub.Some?
    ensures s.env.Env? ==>
      EvalPred(lib, s.env, s.idx, s.row, p) == if s.env.sub(s.row, s.idx, p.sub.value) == [] then False else True
    ensures !IsCorrelated(p.sub.value, quals) ==>
      EvalTruth(lib, s.env, s.idx, s.row, ResolveExpr(run, Pred(p), quals)) ==
        if run(p.sub.value) == [] then False else True
  {
    hide IsCorrelated;
  }

  // The first cell of the first row, and NULL over no rows.
  ghost predicate IsFirstCell(v: Value, rows: seq<Row>) {
    (rows == [] ==> v == Null) && (rows != [] && rows[0] != [] ==> v == rows[0][0])
  }

  // That is what a scalar subquery is, run for the row or once.
  lemma ScalarSubquery(lib: Library, s: Site, run: Query -> seq<Row>, q: Query, quals: set<string>)
    ensures s.env.Env? ==>
      IsFirstCell(EvalValue(lib, s.env, s.idx, s.row, Subquery(q)), s.env.sub(s.row, s.idx, q))
    ensures !IsCorrelated(q, quals) ==>
      IsFirstCell(EvalValue(lib, s.env, s.idx, s.row, ResolveValue(run, Subquery(q), quals)), run(q))
  {
    hide IsCorrelated;
  }

  // ---------- Lists, NULL tests, LIKE ----------

  lemma {:induction false} InListIsAmong(lib: Library, v: Value, list: seq<Value>, exact: bool)
    ensures InTruth(lib, v, list, exact) == Among(lib, v, Cells(list), exact)
  {
    hide Compare, Among;
    if list == [] {
      NoneAmong(lib, v, exact);
    } else {
      InListIsAmong(lib, v, list[1..], exact);
      AmongOneMore(lib, v, [list[0]], Cells(list[1..]), exact);
    }
  }

  // A list as rows of one cell.
  function Cells(list: seq<Value>): seq<Row> { if list == [] then [] else [[list[0]]] + Cells(list[1..]) }

  lemma InList(lib: Library, s: Site, p: Predicate)
    requires p.op == In && p.sub.None? && p.value.List?
    ensures EvalPred(lib, s.env, s.idx, s.row, p) == Among(lib, Subject(lib, s, p), Cells(p.value.vs), p.caseSensitive)
  {
    hide InTruth, Among, EvalValue, Lookup;
    InListIsAmong(lib, Subject(lib, s, p), p.value.vs, p.caseSensitive);
  }

  // IS NULL and IS NOT NULL are never UNKNOWN.
  lemma NullTests(lib: Library, s: Site, p: Predicate)
    requires p.sub.None?
    ensures var isNull := Subject(lib, s, p) == Null;
      && (p.op == IsNull ==> EvalPred(lib, s.env, s.idx, s.row, p) == if isNull then True else False)
      && (p.op == IsNotNull ==> EvalPred(lib, s.env, s.idx, s.row, p) == if isNull then False else True)
  {
    hide EvalValue, Lookup;
  }

  // col LIKE pattern: the cell is the text and the constant the pattern; trailing blanks of the text may be dropped.
  lemma LikeTests(lib: Library, s: Site, p: Predicate, text: string, pattern: string)
    requires p.op == Op.Like && p.sub.None? && p.value == Constant(Str(pattern)) && p.caseSensitive
    requires Subject(lib, s, p) == Str(text) && forall x: string :: lib.text(Str(x)) == x
    requires Like.TailIsWild(pattern, p.escape)
    ensures var ts := Like.Tokens(pattern, p.escape);
      EvalPred(lib, s.env, s.idx, s.row, p) ==
        if Like.Matches(ts, text) || Like.Matches(ts, Pad(text)) then True else False
  {
    hide EvalValue, Lookup, Like.MatchFrom, Like.Matches, Like.Tokens;
    Like.MatchFromIsMatches(pattern, text, p.escape);
    Like.MatchFromIsMatches(pattern, Pad(text), p.escape);
    assert EvalOperand(lib, s.env, s.idx, s.row, p.value) == Str(pattern);
    assert EvalPred(lib, s.env, s.idx, s.row, p) == LikeTruth(lib, Str(text), Str(pattern), true, p.escape);
  }

  // NULL on either side of LIKE leaves it open.
  lemma LikeOfNull(lib: Library, v: Value, exact: bool, esc: Option<char>)
    ensures LikeTruth(lib, Null, v, exact, esc) == Unknown && LikeTruth(lib, v, Null, exact, esc) == Unknown
  {
  }

  // ---------- CASE ----------

  ghost predicate Holds(lib: Library, s: Site, w: When)
    requires w.Searched?
  {
    EvalTruth(lib, s.env, s.idx, s.row, w.cond) == True
  }

  lemma CaseTurn(lib: Library, s: Site, ws: seq<When>, els: Option<ValueExpr>)
    requires ws != [] && ws[0].Searched?
    ensures EvalValue(lib, s.env, s.idx, s.row, Case(None, ws, els)) ==
      if Holds(lib, s, ws[0]) then EvalValue(lib, s.env, s.idx, s.row, ws[0].result)
      else EvalValue(lib, s.env, s.idx, s.row, Case(None, ws[1..], els))
  {
    hide EvalTruth;
    var d := if els.Some? then EvalValue(lib, s.env, s.idx, s.row, els.value) else Null;
    assert forall xs ::
      EvalValue(lib, s.env, s.idx, s.row, Case(None, xs, els)) == EvalCase(lib, s.env, s.idx, s.row, Null, xs, d);
    assert EvalWhen(lib, s.env, s.idx, s.row, Null, ws[0]) ==
      if Holds(lib, s, ws[0]) then Some(EvalValue(lib, s.env, s.idx, s.row, ws[0].result)) else None;
  }

  ghost predicate Decides(lib: Library, s: Site, ws: seq<When>, i: int)
    requires forall w :: w in ws ==> w.Searched?
  {
    0 <= i < |ws| && Holds(lib, s, ws[i]) && forall j :: 0 <= j < i ==> !Holds(lib, s, ws[j])
  }

  // The first WHEN whose condition is TRUE decides; without one ELSE does, and without ELSE the value is NULL.
  lemma {:induction false} FirstWhenDecides(lib: Library, s: Site, ws: seq<When>, els: Option<ValueExpr>, i: int)
    requires forall w :: w in ws ==> w.Searched?
    ensures var v := EvalValue(lib, s.env, s.idx, s.row, Case(None, ws, els));
      && (Decides(lib, s, ws, i) ==> v == EvalValue(lib, s.env, s.idx, s.row, ws[i].result))
      && ((forall k :: 0 <= k < |ws| ==> !Holds(lib, s, ws[k])) ==>
            v == if els.Some? then EvalValue(lib, s.env, s.idx, s.row, els.value) else Null)
    decreases ws
  {
    hide Holds;
    if ws != [] {
      hide EvalValue;
      CaseTurn(lib, s, ws, els);
      if !Holds(lib, s, ws[0]) {
        FirstWhenDecides(lib, s, ws[1..], els, i - 1);
        if Decides(lib, s, ws, i) {
          assert ws[1..][i - 1] == ws[i];
          forall j | 0 <= j < i - 1 ensures !Holds(lib, s, ws[1..][j]) { assert ws[1..][j] == ws[j + 1]; }
        }
      }
    }
  }

  // CASE x WHEN a THEN ... is CASE WHEN x = a THEN ...
  lemma {:induction false} SimpleCaseIsEquality(lib: Library, s: Site, x: ValueExpr, pairs: seq<(ValueExpr, ValueExpr)>,
      els: Option<ValueExpr>)
    ensures EvalValue(lib, s.env, s.idx, s.row, Case(Some(x), SimpleWhens(pairs), els)) ==
      EvalValue(lib, s.env, s.idx, s.row, Case(None, EqualWhens(x, pairs), els))
  {
    var v := EvalValue(lib, s.env, s.idx, s.row, x);
    var d := if els.Some? then EvalValue(lib, s.env, s.idx, s.row, els.value) else Null;
    SameWhens(lib, s, x, pairs, d);
  }

  function SimpleWhens(pairs: seq<(ValueExpr, ValueExpr)>): seq<When> {
    if pairs == [] then [] else [Simple(pairs[0].0, pairs[0].1)] + SimpleWhens(pairs[1..])
  }

  function Equal(x: ValueExpr, a: ValueExpr): Expr { Pred(Predicate("", Some(x), Eq, Computed(a), None, None, false)) }

  function EqualWhens(x: ValueExpr, pairs: seq<(ValueExpr, ValueExpr)>): seq<When> {
    if pairs == [] then [] else [Searched(Equal(x, pairs[0].0), pairs[0].1)] + EqualWhens(x, pairs[1..])
  }

  lemma {:induction false} SameWhens(lib: Library, s: Site, x: ValueExpr, pairs: seq<(ValueExpr, ValueExpr)>, d: Value)
    ensures EvalCase(lib, s.env, s.idx, s.row, EvalValue(lib, s.env, s.idx, s.row, x), SimpleWhens(pairs), d) ==
      EvalCase(lib, s.env, s.idx, s.row, Null, EqualWhens(x, pairs), d)
  {
    hide Compare;
    if pairs != [] {
      SameWhens(lib, s, x, pairs[1..], d);
      var c := Equal(x, pairs[0].0);
      assert EvalTruth(lib, s.env, s.idx, s.row, c) == EvalPred(lib, s.env, s.idx, s.row, c.pred);
      assert SimpleWhens(pairs)[1..] == SimpleWhens(pairs[1..]);
      assert EqualWhens(x, pairs)[1..] == EqualWhens(x, pairs[1..]);
    }
  }

  // ---------- Sides of a predicate ----------

  // A column on the left is the expression that names it; a column or an expression on the right is its value.
  lemma SidesAreValues(lib: Library, s: Site, p: Predicate, c: string)
    requires p.sub.None?
    ensures p.leftExpr.None? ==>
      EvalPred(lib, s.env, s.idx, s.row, p) ==
      EvalPred(lib, s.env, s.idx, s.row, p.(leftExpr := Some(Col(p.column)), column := c))
    ensures p.value.ColRef? ==>
      EvalPred(lib, s.env, s.idx, s.row, p) ==
      EvalPred(lib, s.env, s.idx, s.row, p.(value := Constant(Lookup(s.idx, s.row, p.value.name))))
    ensures p.value.Computed? ==>
      EvalPred(lib, s.env, s.idx, s.row, p) ==
      EvalPred(lib, s.env, s.idx, s.row, p.(value := Constant(EvalValue(lib, s.env, s.idx, s.row, p.value.e))))
  {
    hide InTruth, LikeTruth, CmpTruth, NullTruth, Lookup;
    var q := p.(leftExpr := Some(Col(p.column)), column := c);
    assert EvalValue(lib, s.env, s.idx, s.row, Col(p.column)) == Lookup(s.idx, s.row, p.column);
  }

  // A condition folded to a constant.
  lemma ConstantTruth(lib: Library, s: Site)
    ensures EvalTruth(lib, s.env, s.idx, s.row, Const(true)) == True
    ensures EvalTruth(lib, s.env, s.idx, s.row, Const(false)) == False
    ensures EvalTruth(lib, s.env, s.idx, s.row, And([])) == True
    ensures EvalTruth(lib, s.env, s.idx, s.row, Or([])) == True
  {
  }

  // ---------- Expressions ----------

  // An operator and a function see their operands' values, each in its place.
  lemma OperandsInPlace(lib: Library, s: Site, op: string, l: ValueExpr, r: ValueExpr, name: string,
      args: seq<ValueExpr>, distinct: bool)
    ensures var x, y := EvalValue(lib, s.env, s.idx, s.row, l), EvalValue(lib, s.env, s.idx, s.row, r);
      EvalValue(lib, s.env, s.idx, s.row, Binary(op, l, r)) == lib.binary(op, x, y) &&
      EvalValue(lib, s.env, s.idx, s.row, Binary(op, Lit(x), Lit(y))) == lib.binary(op, x, y)
    ensures !IsEnvScalar(name) ==>
      EvalValue(lib, s.env, s.idx, s.row, Func(name, args, distinct)) ==
      lib.func(name, seq(|args|, i requires 0 <= i < |args| => EvalValue(lib, s.env, s.idx, s.row, args[i])))
  {
    ArgumentsInPlace(lib, s, args);
    assert EvalValues(lib, s.env, s.idx, s.row, args) ==
      seq(|args|, i requires 0 <= i < |args| => EvalValue(lib, s.env, s.idx, s.row, args[i]));
  }

  lemma {:induction false} ArgumentsInPlace(lib: Library, s: Site, args: seq<ValueExpr>)
    ensures forall i :: 0 <= i < |args| ==>
      EvalValues(lib, s.env, s.idx, s.row, args)[i] == EvalValue(lib, s.env, s.idx, s.row, args[i])
  {
    if args != [] { ArgumentsInPlace(lib, s, args[1..]); }
  }
}
