// Which way the comparisons go (satisfies, compareCS and cmpTruth in internal/exec), on numbers and on text.
module Comparisons {
  import opened Option
  import opened Fold
  import opened Tds
  import opened Exec
  import opened Rows

  // ---------- Numbers ----------

  lemma ComparesNumbers(lib: Library, a: int, b: int, exact: bool)
    ensures CmpTruth(lib, Lt, Int(a), Int(b), exact) == if a < b then True else False
    ensures CmpTruth(lib, Le, Int(a), Int(b), exact) == if a <= b then True else False
    ensures CmpTruth(lib, Gt, Int(a), Int(b), exact) == if a > b then True else False
    ensures CmpTruth(lib, Ge, Int(a), Int(b), exact) == if a >= b then True else False
    ensures CmpTruth(lib, Eq, Int(a), Int(b), exact) == if a == b then True else False
    ensures CmpTruth(lib, Ne, Int(a), Int(b), exact) == if a != b then True else False
  {
  }

  // FALSE is below TRUE.
  lemma ComparesTruth(lib: Library, a: bool, b: bool, exact: bool)
    ensures CmpTruth(lib, Lt, Bool(a), Bool(b), exact) == if !a && b then True else False
    ensures CmpTruth(lib, Le, Bool(a), Bool(b), exact) == if !a || b then True else False
    ensures CmpTruth(lib, Gt, Bool(a), Bool(b), exact) == if a && !b then True else False
    ensures CmpTruth(lib, Ge, Bool(a), Bool(b), exact) == if a || !b then True else False
    ensures CmpTruth(lib, Eq, Bool(a), Bool(b), exact) == if a == b then True else False
    ensures CmpTruth(lib, Ne, Bool(a), Bool(b), exact) == if a != b then True else False
  {
  }

  // NULL on either side leaves every comparison open.
  lemma ComparesNull(lib: Library, op: Op, v: Value, exact: bool)
    ensures CmpTruth(lib, op, Null, v, exact) == Unknown && CmpTruth(lib, op, v, Null, exact) == Unknown
  {
  }

  // ---------- Text ----------

  // a comes before b: where they first differ a has the smaller character, or a is a proper beginning of b.
  ghost predicate Earlier(a: string, b: string) {
    exists k :: EarlierAt(a, b, k)
  }

  ghost predicate EarlierAt(a: string, b: string, k: nat) {
    k <= |a| && k < |b| && a[..k] == b[..k] && (k == |a| || a[k] < b[k])
  }

  // Without its trailing blanks, and with A to Z as a to z unless exact.
  ghost predicate Reads(s: string, exact: bool, t: string) {
    && |t| <= |s| && (t != [] ==> s[|t| - 1] != ' ') && (forall i :: |t| <= i < |s| ==> s[i] == ' ')
    && forall i :: 0 <= i < |t| ==>
         t[i] == if !exact && 'A' <= s[i] <= 'Z' then (s[i] as int + 32) as char else s[i]
  }

  lemma {:induction false} CompareTextDecides(a: string, b: string)
    ensures CompareText(a, b) == if a == b then 0 else if Earlier(a, b) then -1 else 1
    ensures a != b && !Earlier(a, b) ==> Earlier(b, a)
    ensures Earlier(a, b) ==> a != b && !Earlier(b, a)
  {
    if a == [] || b == [] {
      if a != [] { assert EarlierAt(b, a, 0); }
      if b != [] { assert EarlierAt(a, b, 0); }
    } else if a[0] != b[0] {
      assert a[0] < b[0] ==> EarlierAt(a, b, 0);
      assert b[0] < a[0] ==> EarlierAt(b, a, 0);
      DifferAtOnce(a, b);
      DifferAtOnce(b, a);
    } else {
      CompareTextDecides(a[1..], b[1..]);
      EarlierTail(a, b);
      EarlierTail(b, a);
      assert a == [a[0]] + a[1..] && b == [b[0]] + b[1..];
    }
  }

  lemma DifferAtOnce(a: string, b: string)
    requires a != [] && b != [] && a[0] != b[0]
    ensures Earlier(a, b) ==> a[0] < b[0]
  {
    forall k: nat | EarlierAt(a, b, k) ensures k == 0 {
      if k > 0 { SameBeginning(a, b, k); }
    }
  }

  lemma SameBeginning(a: string, b: string, k: nat)
    requires EarlierAt(a, b, k) && k > 0
    ensures a != [] && b != [] && a[0] == b[0]
  {
    assert a[..k][0] == a[0] && b[..k][0] == b[0];
  }

  lemma EarlierTail(a: string, b: string)
    requires a != [] && b != [] && a[0] == b[0]
    ensures Earlier(a, b) <==> Earlier(a[1..], b[1..])
  {
    if k: nat :| EarlierAt(a, b, k) {
      assert k > 0 && a[1..][..k - 1] == a[..k][1..] && b[1..][..k - 1] == b[..k][1..];
      assert EarlierAt(a[1..], b[1..], k - 1);
    }
    if k: nat :| EarlierAt(a[1..], b[1..], k) {
      assert a[..k + 1] == [a[0]] + a[1..][..k] && b[..k + 1] == [b[0]] + b[1..][..k];
      assert EarlierAt(a, b, k + 1);
    }
  }

  // The text that is compared.
  lemma ReadsAs(s: string, exact: bool)
    ensures Reads(s, exact, if exact then Pad(s) else Key(Pad(s)))
  {
    var p := Pad(s);
    forall i | 0 <= i < |p| && 'A' <= p[i] <= 'Z' ensures Lower(p[i]) == (p[i] as int + 32) as char {
    }
  }

  lemma ReadsOnce(s: string, exact: bool, t: string, u: string)
    requires Reads(s, exact, t) && Reads(s, exact, u)
    ensures t == u
  {
    assert |t| <= |u| by { NotLonger(s, exact, t, u); }
    assert |u| <= |t| by { NotLonger(s, exact, u, t); }
  }

  lemma NotLonger(s: string, exact: bool, t: string, u: string)
    requires Reads(s, exact, t) && Reads(s, exact, u)
    ensures |t| <= |u|
  {
  }

  // x and y compare as the texts a and b that they read as.
  lemma ComparesText(lib: Library, x: string, y: string, exact: bool, a: string, b: string)
    requires Reads(x, exact, a) && Reads(y, exact, b)
    ensures CmpTruth(lib, Lt, Str(x), Str(y), exact) == if Earlier(a, b) then True else False
    ensures CmpTruth(lib, Le, Str(x), Str(y), exact) == if Earlier(a, b) || a == b then True else False
    ensures CmpTruth(lib, Gt, Str(x), Str(y), exact) == if Earlier(b, a) then True else False
    ensures CmpTruth(lib, Ge, Str(x), Str(y), exact) == if Earlier(b, a) || a == b then True else False
    ensures CmpTruth(lib, Eq, Str(x), Str(y), exact) == if a == b then True else False
    ensures CmpTruth(lib, Ne, Str(x), Str(y), exact) == if a != b then True else False
  {
    hide Reads, Earlier, CompareText, Pad, Key;
    ReadsAs(x, exact);
    ReadsAs(y, exact);
    ReadsOnce(x, exact, a, if exact then Pad(x) else Key(Pad(x)));
    ReadsOnce(y, exact, b, if exact then Pad(y) else Key(Pad(y)));
    CompareTextDecides(a, b);
  }

  // ---------- Conditions on a column ----------

  function ColumnIs(col: string, op: Op, n: int): Expr {
    Pred(Predicate(col, None, op, Constant(Int(n)), None, None, false))
  }

  // Rows whose cell in the column is a number or NULL.
  ghost predicate Numbers(idx: Index, rows: seq<Row>, col: string) {
    forall r :: r in rows ==> Lookup(idx, r, col).Int? || Lookup(idx, r, col).Null?
  }

  predicate Holds(op: Op, a: int, b: int) {
    || (op == Lt && a < b) || (op == Le && a <= b) || (op == Gt && a > b) || (op == Ge && a >= b)
    || (op == Eq && a == b) || (op == Ne && a != b)
  }

  // WHERE col < n keeps exactly the rows whose cell is a number below n, and likewise the other comparisons.
  lemma FilterKeepsNumbers(lib: Library, env: Env, idx: Index, col: string, op: Op, n: int, rows: seq<Row>, r: Row)
    requires Numbers(idx, rows, col) && op in {Lt, Le, Gt, Ge, Eq, Ne}
    ensures var v := Lookup(idx, r, col);
      r in Filter((x: Row) => Keeps(lib, env, idx, x, Some(ColumnIs(col, op, n))), rows) <==>
      r in rows && v.Int? && Holds(op, v.i, n)
  {
    hide Keeps, Holds, Lookup;
    var keep := (x: Row) => Keeps(lib, env, idx, x, Some(ColumnIs(col, op, n)));
    if r in rows {
      RowKept(lib, env, idx, r, col, op, n);
      if keep(r) { FilterHas(keep, rows, r); }
    }
  }

  lemma RowKept(lib: Library, env: Env, idx: Index, r: Row, col: string, op: Op, n: int)
    requires Lookup(idx, r, col).Int? || Lookup(idx, r, col).Null?
    requires op in {Lt, Le, Gt, Ge, Eq, Ne}
    ensures var v := Lookup(idx, r, col);
      Keeps(lib, env, idx, r, Some(ColumnIs(col, op, n))) <==> v.Int? && Holds(op, v.i, n)
  {
    hide CmpTruth, Lookup;
    var e := ColumnIs(col, op, n);
    var v := Lookup(idx, r, col);
    assert EvalTruth(lib, env, idx, r, e) == EvalPred(lib, env, idx, r, e.pred);
    assert EvalOperand(lib, env, idx, r, e.pred.value) == Int(n);
    assert EvalTruth(lib, env, idx, r, e) == CmpTruth(lib, op, v, Int(n), false);
    ComparesNull(lib, op, Int(n), false);
    if v.Int? { ComparesNumbers(lib, v.i, n, false); }
  }
}
