// Set operations and duplicate elimination (combineSetOps, distinctRows, intersectRows and exceptRows in
// internal/engine/engine.go; dedupe in internal/exec/exec.go). Rows count as equal when their keys are.

module SetOps {
  import opened Fold
  import opened Tds

  type Keyed = Row -> string

  // ---------- Firsts ----------

  predicate Seen(key: Keyed, rows: seq<Row>, k: string) { exists i :: 0 <= i < |rows| && key(rows[i]) == k }

  // The rows whose key ok accepts and no earlier row of before or rows has.
  function Firsts(key: Keyed, ok: string -> bool, before: seq<Row>, rows: seq<Row>): (out: seq<Row>)
    ensures |out| <= |rows|
    decreases rows
  {
    if rows == [] then []
    else
      (if ok(key(rows[0])) && !Seen(key, before, key(rows[0])) then [rows[0]] else []) +
      Firsts(key, ok, before + [rows[0]], rows[1..])
  }

  function Distinct(key: Keyed, rows: seq<Row>): seq<Row> { Firsts(key, _ => true, [], rows) }

  function Intersected(key: Keyed, a: seq<Row>, b: seq<Row>): seq<Row> { Firsts(key, k => Seen(key, b, k), [], a) }

  function Excepted(key: Keyed, a: seq<Row>, b: seq<Row>): seq<Row> { Firsts(key, k => !Seen(key, b, k), [], a) }

  // Reading the rows from the front is reading their last one last.
  lemma {:induction false} FirstsLast(key: Keyed, ok: string -> bool, before: seq<Row>, rows: seq<Row>, r: Row)
    ensures Firsts(key, ok, before, rows + [r]) ==
      Firsts(key, ok, before, rows) + (if ok(key(r)) && !Seen(key, before + rows, key(r)) then [r] else [])
    decreases rows
  {
    hide Seen, Firsts;
    if rows == [] {
      FirstsUnfold(key, ok, before, [r]);
      FirstsOfNone(key, ok, before);
      FirstsOfNone(key, ok, before + [r]);
      assert [] + [r] == rows + [r];
      assert before + [] == before && [r][1..] == [] && [] + [r] == [r];
    } else {
      var head, next := rows[0], before + [rows[0]];
      FirstsLast(key, ok, next, rows[1..], r);
      assert next + rows[1..] == before + rows;
      FirstsUnfold(key, ok, before, rows + [r]);
      FirstsUnfold(key, ok, before, rows);
      assert (rows + [r])[1..] == rows[1..] + [r] && (rows + [r])[0] == head;
    }
  }

  lemma FirstsOfNone(key: Keyed, ok: string -> bool, before: seq<Row>)
    ensures Firsts(key, ok, before, []) == []
  {
  }

  lemma FirstsUnfold(key: Keyed, ok: string -> bool, before: seq<Row>, rows: seq<Row>)
    requires rows != []
    ensures Firsts(key, ok, before, rows) ==
      (if ok(key(rows[0])) && !Seen(key, before, key(rows[0])) then [rows[0]] else []) +
      Firsts(key, ok, before + [rows[0]], rows[1..])
  {
  }

  // ---------- What Firsts is ----------

  // Every row of the result is an input row that ok accepts and that is the first of its key.
  lemma {:induction false} FirstsAreFirst(key: Keyed, ok: string -> bool, rows: seq<Row>, n: nat) returns (at: nat)
    requires n < |Firsts(key, ok, [], rows)|
    ensures at < |rows| && rows[at] == Firsts(key, ok, [], rows)[n] && ok(key(rows[at]))
    ensures !Seen(key, rows[..at], key(rows[at]))
    // the rows before it are what the input up to there gives
    ensures Firsts(key, ok, [], rows)[..n] == Firsts(key, ok, [], rows[..at])
    decreases |rows|
  {
    var m := |rows| - 1;
    assert rows == rows[..m] + [rows[m]];
    FirstsLast(key, ok, [], rows[..m], rows[m]);
    assert [] + rows[..m] == rows[..m];
    var init := Firsts(key, ok, [], rows[..m]);
    if n < |init| {
      at := FirstsAreFirst(key, ok, rows[..m], n);
      assert rows[..m][..at] == rows[..at] && Firsts(key, ok, [], rows)[..n] == init[..n];
    } else {
      at := m;
      assert Firsts(key, ok, [], rows)[..n] == init;
    }
  }

  // Every accepted key of the input is there.
  lemma {:induction false} FirstsHaveKey(key: Keyed, ok: string -> bool, rows: seq<Row>, k: string)
    ensures Seen(key, Firsts(key, ok, [], rows), k) <==> ok(k) && Seen(key, rows, k)
    decreases |rows|
  {
    if rows != [] {
      var m := |rows| - 1;
      assert rows == rows[..m] + [rows[m]];
      FirstsLast(key, ok, [], rows[..m], rows[m]);
      assert [] + rows[..m] == rows[..m];
      FirstsHaveKey(key, ok, rows[..m], k);
      SeenLast(key, rows[..m], rows[m], k);
      var init := Firsts(key, ok, [], rows[..m]);
      if ok(key(rows[m])) && !Seen(key, rows[..m], key(rows[m])) {
        SeenLast(key, init, rows[m], k);
      } else {
        assert init + [] == init;
      }
    }
  }

  lemma SeenLast(key: Keyed, rows: seq<Row>, r: Row, k: string)
    ensures Seen(key, rows + [r], k) <==> Seen(key, rows, k) || key(r) == k
  {
    if key(r) == k { assert (rows + [r])[|rows|] == r; }
    if Seen(key, rows, k) {
      var i :| 0 <= i < |rows| && key(rows[i]) == k;
      assert (rows + [r])[i] == rows[i];
    }
  }

  ghost predicate NoDuplicateKeys(key: Keyed, rows: seq<Row>) {
    forall i, j :: 0 <= i < j < |rows| ==> key(rows[i]) != key(rows[j])
  }

  lemma {:induction false} FirstsHaveNoDuplicates(key: Keyed, ok: string -> bool, rows: seq<Row>)
    ensures NoDuplicateKeys(key, Firsts(key, ok, [], rows))
    decreases |rows|
  {
    if rows != [] {
      var m := |rows| - 1;
      assert rows == rows[..m] + [rows[m]];
      FirstsLast(key, ok, [], rows[..m], rows[m]);
      assert [] + rows[..m] == rows[..m];
      FirstsHaveNoDuplicates(key, ok, rows[..m]);
      FirstsHaveKey(key, ok, rows[..m], key(rows[m]));
    }
  }

  // ---------- The set operations, by keys ----------

  // UNION, INTERSECT and EXCEPT hold each key once and exactly the keys their names say.
  lemma SetOperations(key: Keyed, a: seq<Row>, b: seq<Row>)
    ensures NoDuplicateKeys(key, Distinct(key, a + b)) && NoDuplicateKeys(key, Intersected(key, a, b)) &&
            NoDuplicateKeys(key, Excepted(key, a, b))
    ensures forall k :: Seen(key, Distinct(key, a + b), k) <==> Seen(key, a, k) || Seen(key, b, k)
    ensures forall k :: Seen(key, Intersected(key, a, b), k) <==> Seen(key, a, k) && Seen(key, b, k)
    ensures forall k :: Seen(key, Excepted(key, a, b), k) <==> Seen(key, a, k) && !Seen(key, b, k)
  {
    FirstsHaveNoDuplicates(key, _ => true, a + b);
    FirstsHaveNoDuplicates(key, k => Seen(key, b, k), a);
    FirstsHaveNoDuplicates(key, k => !Seen(key, b, k), a);
    forall k
      ensures Seen(key, Distinct(key, a + b), k) <==> Seen(key, a, k) || Seen(key, b, k)
      ensures Seen(key, Intersected(key, a, b), k) <==> Seen(key, a, k) && Seen(key, b, k)
      ensures Seen(key, Excepted(key, a, b), k) <==> Seen(key, a, k) && !Seen(key, b, k)
    {
      FirstsHaveKey(key, _ => true, a + b, k);
      FirstsHaveKey(key, k => Seen(key, b, k), a, k);
      FirstsHaveKey(key, k => !Seen(key, b, k), a, k);
      SeenAppend(key, a, b, k);
    }
  }

  lemma SeenAppend(key: Keyed, a: seq<Row>, b: seq<Row>, k: string)
    ensures Seen(key, a + b, k) <==> Seen(key, a, k) || Seen(key, b, k)
  {
    if Seen(key, a, k) {
      var i :| 0 <= i < |a| && key(a[i]) == k;
      assert (a + b)[i] == a[i];
    }
    if Seen(key, b, k) {
      var i :| 0 <= i < |b| && key(b[i]) == k;
      assert (a + b)[|a| + i] == b[i];
    }
  }

  // ---------- The loops ----------

  ghost predicate KeySet(key: Keyed, rows: seq<Row>, keys: set<string>) {
    forall k :: k in keys <==> Seen(key, rows, k)
  }

  method KeysOf(key: Keyed, rows: seq<Row>) returns (keys: set<string>)
    ensures KeySet(key, rows, keys)
  {
    keys := {};
    for i := 0 to |rows|
      invariant KeySet(key, rows[..i], keys)
    {
      assert rows[..i + 1] == rows[..i] + [rows[i]];
      forall k ensures Seen(key, rows[..i + 1], k) <==> Seen(key, rows[..i], k) || key(rows[i]) == k {
        SeenLast(key, rows[..i], rows[i], k);
      }
      keys := keys + {key(rows[i])};
    }
    assert rows[..|rows|] == rows;
  }

  // distinctRows, and the common part of intersectRows and exceptRows: only accepted keys are remembered.
  method FirstRows(key: Keyed, ok: string -> bool, rows: seq<Row>) returns (out: seq<Row>)
    ensures out == Firsts(key, ok, [], rows)
  {
    out := [];
    var seen: set<string> := {};
    for i := 0 to |rows|
      invariant out == Firsts(key, ok, [], rows[..i])
      invariant KeySet(key, out, seen)
    {
      var k := key(rows[i]);
      FirstsTurn(key, ok, rows, i);
      if ok(k) && k !in seen {
        forall x ensures Seen(key, out + [rows[i]], x) <==> Seen(key, out, x) || k == x {
          SeenLast(key, out, rows[i], x);
        }
        seen := seen + {k};
        out := out + [rows[i]];
      }
    }
    assert rows[..|rows|] == rows;
  }

  lemma FirstsTurn(key: Keyed, ok: string -> bool, rows: seq<Row>, i: nat)
    requires i < |rows|
    ensures Firsts(key, ok, [], rows[..i + 1]) == Firsts(key, ok, [], rows[..i]) +
      (if ok(key(rows[i])) && !Seen(key, Firsts(key, ok, [], rows[..i]), key(rows[i])) then [rows[i]] else [])
  {
    assert rows[..i + 1] == rows[..i] + [rows[i]] && [] + rows[..i] == rows[..i];
    FirstsLast(key, ok, [], rows[..i], rows[i]);
    FirstsHaveKey(key, ok, rows[..i], key(rows[i]));
  }

  method IntersectRows(key: Keyed, a: seq<Row>, b: seq<Row>) returns (out: seq<Row>)
    ensures out == Intersected(key, a, b)
  {
    var in_ := KeysOf(key, b);
    out := FirstRows(key, k => k in in_, a);
    FirstsAgree(key, k => k in in_, k => Seen(key, b, k), [], a);
  }

  method ExceptRows(key: Keyed, a: seq<Row>, b: seq<Row>) returns (out: seq<Row>)
    ensures out == Excepted(key, a, b)
  {
    var in_ := KeysOf(key, b);
    out := FirstRows(key, k => k !in in_, a);
    FirstsAgree(key, k => k !in in_, k => !Seen(key, b, k), [], a);
  }

  lemma {:induction false} FirstsAgree(key: Keyed, f: string -> bool, g: string -> bool, before: seq<Row>,
      rows: seq<Row>)
    requires forall k :: f(k) == g(k)
    ensures Firsts(key, f, before, rows) == Firsts(key, g, before, rows)
    decreases rows
  {
    if rows != [] { FirstsAgree(key, f, g, before + [rows[0]], rows[1..]); }
  }

  // dedupe writes the kept rows over the rows it has read.
  method Dedupe(key: Keyed, rows: array<Row>) returns (n: nat)
    modifies rows
    ensures n <= rows.Length && rows[..n] == Distinct(key, old(rows[..]))
    ensures forall i :: n <= i < rows.Length ==> rows[i] == old(rows[i])
  {
    ghost var was := rows[..];
    n := 0;
    var seen: set<string> := {};
    for i := 0 to rows.Length
      invariant n <= i && rows[..n] == Firsts(key, _ => true, [], was[..i])
      invariant forall j :: n <= j < rows.Length ==> rows[j] == was[j]
      invariant KeySet(key, rows[..n], seen)
    {
      var k := key(rows[i]);
      FirstsTurn(key, _ => true, was, i);
      if k !in seen {
        forall x ensures Seen(key, rows[..n] + [was[i]], x) <==> Seen(key, rows[..n], x) || k == x {
          SeenLast(key, rows[..n], was[i], x);
        }
        seen := seen + {k};
        ghost var kept := rows[..n];
        rows[n] := rows[i];
        n := n + 1;
        assert rows[..n] == kept + [was[i]];
      }
    }
    assert was[..rows.Length] == was;
  }

  // ---------- What each operator gives ----------

  // r is the first of its key.
  predicate IsFirstOf(key: Keyed, rows: seq<Row>, r: Row) {
    exists i :: 0 <= i < |rows| && rows[i] == r && !Seen(key, rows[..i], key(r))
  }

  // UNION ALL is all rows of both. UNION, INTERSECT and EXCEPT hold no key twice: UNION the first row of each key of
  // either side, INTERSECT the first left row of each key that is on the right too, EXCEPT of each that is not.
  lemma OperatorsMean(key: Keyed, op: SetOp, a: seq<Row>, b: seq<Row>)
    ensures op == UnionAll ==> Apply(key, op, a, b) == a + b
    ensures op != UnionAll ==> NoDuplicateKeys(key, Apply(key, op, a, b))
    ensures op == Union ==> forall k :: Seen(key, Apply(key, op, a, b), k) <==> Seen(key, a, k) || Seen(key, b, k)
    ensures op == Intersect ==> forall k :: Seen(key, Apply(key, op, a, b), k) <==> Seen(key, a, k) && Seen(key, b, k)
    ensures op == Except ==> forall k :: Seen(key, Apply(key, op, a, b), k) <==> Seen(key, a, k) && !Seen(key, b, k)
    ensures op == Union ==> forall r :: r in Apply(key, op, a, b) ==> IsFirstOf(key, a + b, r)
    ensures op in {Intersect, Except} ==> forall r :: r in Apply(key, op, a, b) ==> IsFirstOf(key, a, r)
  {
    hide Firsts, NoDuplicateKeys, Seen, IsFirstOf;
    SetOperations(key, a, b);
    FirstsAreOf(key, _ => true, [], a + b);
    FirstsAreOf(key, k => Seen(key, b, k), [], a);
    FirstsAreOf(key, k => !Seen(key, b, k), [], a);
    assert [] + a == a && [] + (a + b) == a + b;
  }

  lemma {:induction false} FirstsAreOf(key: Keyed, ok: string -> bool, before: seq<Row>, rows: seq<Row>)
    ensures forall r :: r in Firsts(key, ok, before, rows) ==> IsFirstOf(key, before + rows, r)
    decreases rows
  {
    if rows != [] {
      var all := before + rows;
      assert before + [rows[0]] + rows[1..] == all && all[|before|] == rows[0] && all[..|before|] == before;
      FirstsAreOf(key, ok, before + [rows[0]], rows[1..]);
    }
  }

  // ---------- Precedence ----------

  // A set expression; its arms by position.
  datatype Tree = Arm(i: nat) | Node(op: SetOp, left: Tree, right: Tree)

  // The last operator that is not INTERSECT, counted from one; 0 when there is none.
  function LastOuter(ops: seq<SetOp>): (k: nat)
    ensures k <= |ops| && (k > 0 ==> ops[k - 1] != Intersect)
    ensures forall i :: k <= i < |ops| ==> ops[i] == Intersect
  {
    if ops == [] then 0 else if ops[|ops| - 1] != Intersect then |ops| else LastOuter(ops[..|ops| - 1])
  }

  // How SQL Server reads a0 op0 a1 op1 ... : the last UNION, UNION ALL or EXCEPT is the root, INTERSECT binds
  // tighter, everything to the left. The arms count from first on.
  function Parse(first: nat, ops: seq<SetOp>): Tree
    decreases |ops|
  {
    var k := LastOuter(ops);
    if k > 0 then Node(ops[k - 1], Parse(first, ops[..k - 1]), Parse(first + k, ops[k..]))
    else if ops == [] then Arm(first)
    else Node(Intersect, Parse(first, ops[..|ops| - 1]), Arm(first + |ops|))
  }

  function Apply(key: Keyed, op: SetOp, a: seq<Row>, b: seq<Row>): seq<Row> {
    match op
    case Union => Distinct(key, a + b)
    case UnionAll => a + b
    case Intersect => Intersected(key, a, b)
    case Except => Excepted(key, a, b)
  }

  function Eval(key: Keyed, arms: seq<seq<Row>>, t: Tree): seq<Row> {
    match t
    case Arm(i) => if i < |arms| then arms[i] else []
    case Node(op, l, r) => Apply(key, op, Eval(key, arms, l), Eval(key, arms, r))
  }

  lemma LastMore(ops: seq<SetOp>, op: SetOp)
    ensures LastOuter(ops + [op]) == if op != Intersect then |ops| + 1 else LastOuter(ops)
  {
    assert (ops + [op])[..|ops|] == ops;
  }

  lemma ParseUnfold(first: nat, ops: seq<SetOp>)
    ensures var k := LastOuter(ops);
      Parse(first, ops) ==
        if k > 0 then Node(ops[k - 1], Parse(first, ops[..k - 1]), Parse(first + k, ops[k..]))
        else if ops == [] then Arm(first)
        else Node(Intersect, Parse(first, ops[..|ops| - 1]), Arm(first + |ops|))
  {
    hide LastOuter;
  }

  // One more operator at the end: a new root, or INTERSECT into the last term.
  lemma ParseOuter(first: nat, ops: seq<SetOp>, op: SetOp)
    requires op != Intersect
    ensures Parse(first, ops + [op]) == Node(op, Parse(first, ops), Arm(first + |ops| + 1))
  {
    hide Parse, LastOuter;
    var more := ops + [op];
    LastMore(ops, op);
    ParseUnfold(first, more);
    assert more[..|ops|] == ops && more[|ops| + 1..] == [];
    LastOfNone();
    ParseUnfold(first + |ops| + 1, []);
  }

  lemma LastOfNone()
    ensures LastOuter([]) == 0
  {
  }

  lemma ParseInner(first: nat, ops: seq<SetOp>)
    requires LastOuter(ops) == 0
    ensures Parse(first, ops + [Intersect]) == Node(Intersect, Parse(first, ops), Arm(first + |ops| + 1))
  {
    hide Parse, LastOuter;
    LastMore(ops, Intersect);
    ParseUnfold(first, ops + [Intersect]);
    assert (ops + [Intersect])[..|ops|] == ops;
  }

  lemma ParseIntersect(first: nat, ops: seq<SetOp>)
    requires LastOuter(ops) > 0
    ensures var k := LastOuter(ops);
      Parse(first, ops + [Intersect]) ==
        Node(ops[k - 1], Parse(first, ops[..k - 1]),
          Node(Intersect, Parse(first + k, ops[k..]), Arm(first + |ops| + 1)))
  {
    hide Parse, LastOuter;
    var k, more := LastOuter(ops), ops + [Intersect];
    LastMore(ops, Intersect);
    ParseUnfold(first, more);
    assert more[..k - 1] == ops[..k - 1] && more[k..] == ops[k..] + [Intersect];
    NoOuter(ops, k);
    ParseInner(first + k, ops[k..]);
  }

  lemma NoOuter(ops: seq<SetOp>, k: nat)
    requires k == LastOuter(ops)
    ensures LastOuter(ops[k..]) == 0
  {
    hide LastOuter;
    var tail := ops[k..];
    assert forall i :: 0 <= i < |tail| ==> tail[i] == ops[k + i];
  }

  // The value of the chain so far, as the loops of combineSetOps hold it: the terms between the outer operators.
  function FoldTerms(key: Keyed, terms: seq<seq<Row>>, outer: seq<SetOp>): seq<Row>
    requires |terms| == |outer| + 1
    decreases |outer|
  {
    if outer == [] then terms[0]
    else
      var n := |outer| - 1;
      Apply(key, outer[n], FoldTerms(key, terms[..n + 1], outer[..n]), terms[n + 1])
  }

  // The first loop's state after i operators.
  ghost predicate Collected(key: Keyed, arms: seq<seq<Row>>, ops: seq<SetOp>, i: nat, terms: seq<seq<Row>>,
      outer: seq<SetOp>) {
    && i <= |ops| && |arms| == |ops| + 1 && |terms| == |outer| + 1 && Intersect !in outer
    && FoldTerms(key, terms, outer) == Eval(key, arms, Parse(0, ops[..i]))
    && (var k := LastOuter(ops[..i]);
        if k == 0 then outer == []
        else
          && outer != [] && outer[|outer| - 1] == ops[k - 1]
          && FoldTerms(key, terms[..|outer|], outer[..|outer| - 1]) == Eval(key, arms, Parse(0, ops[..k - 1]))
          && terms[|outer|] == Eval(key, arms, Parse(k, ops[k..i])))
  }

  lemma FoldUnfold(key: Keyed, terms: seq<seq<Row>>, outer: seq<SetOp>)
    requires |terms| == |outer| + 1
    ensures FoldTerms(key, terms, outer) ==
      if outer == [] then terms[0]
      else Apply(key, outer[|outer| - 1], FoldTerms(key, terms[..|outer|], outer[..|outer| - 1]), terms[|outer|])
  {
    hide Apply;
  }

  lemma EvalNode(key: Keyed, arms: seq<seq<Row>>, op: SetOp, l: Tree, i: nat)
    requires i < |arms|
    ensures Eval(key, arms, Node(op, l, Arm(i))) == Apply(key, op, Eval(key, arms, l), arms[i])
    ensures Eval(key, arms, Arm(i)) == arms[i]
  {
    hide Apply;
  }

  lemma CollectOuter(key: Keyed, arms: seq<seq<Row>>, ops: seq<SetOp>, i: nat, terms: seq<seq<Row>>, outer: seq<SetOp>)
    requires i < |ops| && Collected(key, arms, ops, i, terms, outer) && ops[i] != Intersect
    ensures Collected(key, arms, ops, i + 1, terms + [arms[i + 1]], outer + [ops[i]])
  {
    hide Apply, Parse, LastOuter, FoldTerms, Eval;
    var op, t, o := ops[i], terms + [arms[i + 1]], outer + [ops[i]];
    assert ops[..i + 1] == ops[..i] + [op];
    LastMore(ops[..i], op);
    ParseOuter(0, ops[..i], op);
    FoldUnfold(key, t, o);
    assert t[..|o|] == terms && o[..|o| - 1] == outer && ops[i + 1..i + 1] == [];
    EvalNode(key, arms, op, Parse(0, ops[..i]), i + 1);
    LastOfNone();
    ParseUnfold(i + 1, []);
  }

  lemma CollectInner(key: Keyed, arms: seq<seq<Row>>, ops: seq<SetOp>, i: nat, terms: seq<seq<Row>>, outer: seq<SetOp>)
    requires i < |ops| && Collected(key, arms, ops, i, terms, outer) && ops[i] == Intersect
    ensures Collected(key, arms, ops, i + 1, terms[|outer| := Intersected(key, terms[|outer|], arms[i + 1])], outer)
  {
    hide Firsts, Parse, LastOuter, FoldTerms, Eval;
    var before, t := ops[..i], terms[|outer| := Intersected(key, terms[|outer|], arms[i + 1])];
    assert ops[..i + 1] == before + [Intersect];
    LastMore(before, Intersect);
    var k := LastOuter(before);
    FoldUnfold(key, terms, outer);
    FoldUnfold(key, t, outer);
    if k == 0 {
      ParseInner(0, before);
      EvalNode(key, arms, Intersect, Parse(0, before), i + 1);
    } else {
      ParseIntersect(0, before);
      NoOuter(before, k);
      ParseInner(k, before[k..]);
      assert before[..k - 1] == ops[..k - 1] && before[k..] == ops[k..i] && ops[k..i + 1] == ops[k..i] + [Intersect];
      assert t[..|outer|] == terms[..|outer|] && before[k - 1] == ops[k - 1];
      EvalNode(key, arms, Intersect, Parse(k, ops[k..i]), i + 1);
      EvalPair(key, arms, ops[k - 1], Parse(0, ops[..k - 1]), Node(Intersect, Parse(k, ops[k..i]), Arm(i + 1)));
    }
  }

  lemma EvalPair(key: Keyed, arms: seq<seq<Row>>, op: SetOp, l: Tree, r: Tree)
    ensures Eval(key, arms, Node(op, l, r)) == Apply(key, op, Eval(key, arms, l), Eval(key, arms, r))
  {
    hide Apply;
  }

  method CombineSetOps(key: Keyed, arms: seq<seq<Row>>, ops: seq<SetOp>) returns (result: seq<Row>)
    requires |arms| == |ops| + 1
    ensures result == Eval(key, arms, Parse(0, ops))
  {
    hide Firsts, Parse, LastOuter, FoldTerms, Eval;
    var terms: seq<seq<Row>> := [arms[0]];
    var outer: seq<SetOp> := [];
    CollectStarts(key, arms, ops);
    for i := 0 to |ops|
      invariant Collected(key, arms, ops, i, terms, outer)
    {
      if ops[i] == Intersect {
        CollectInner(key, arms, ops, i, terms, outer);
        var term := IntersectRows(key, terms[|terms| - 1], arms[i + 1]);
        terms := terms[|terms| - 1 := term];
      } else {
        CollectOuter(key, arms, ops, i, terms, outer);
        terms := terms + [arms[i + 1]];
        outer := outer + [ops[i]];
      }
    }
    assert ops[..|ops|] == ops;
    result := terms[0];
    FoldStarts(key, terms, outer);
    for i := 0 to |outer|
      invariant result == FoldTerms(key, terms[..i + 1], outer[..i])
    {
      FoldTurn(key, terms, outer, i);
      assert outer[i] != Intersect;
      if outer[i] == Except {
        result := ExceptRows(key, result, terms[i + 1]);
      } else if outer[i] == Union {
        result := FirstRows(key, _ => true, result + terms[i + 1]);
      } else {
        result := result + terms[i + 1];
      }
    }
    assert terms[..|outer| + 1] == terms && outer[..|outer|] == outer;
  }

  lemma CollectStarts(key: Keyed, arms: seq<seq<Row>>, ops: seq<SetOp>)
    requires |arms| == |ops| + 1
    ensures Collected(key, arms, ops, 0, [arms[0]], [])
  {
    assert ops[..0] == [];
  }

  lemma FoldStarts(key: Keyed, terms: seq<seq<Row>>, outer: seq<SetOp>)
    requires |terms| == |outer| + 1
    ensures FoldTerms(key, terms[..1], outer[..0]) == terms[0]
  {
  }

  lemma FoldTurn(key: Keyed, terms: seq<seq<Row>>, outer: seq<SetOp>, i: nat)
    requires |terms| == |outer| + 1 && i < |outer|
    ensures FoldTerms(key, terms[..i + 2], outer[..i + 1]) ==
      Apply(key, outer[i], FoldTerms(key, terms[..i + 1], outer[..i]), terms[i + 1])
  {
    hide Apply;
    assert terms[..i + 2][..i + 1] == terms[..i + 1] && outer[..i + 1][..i] == outer[..i];
  }

  // ---------- Precedence ----------

  predicate AllIntersect(ops: seq<SetOp>) { forall i :: 0 <= i < |ops| ==> ops[i] == Intersect }

  lemma {:induction false} LastOuterIs(ops: seq<SetOp>, op: SetOp, tail: seq<SetOp>)
    requires op != Intersect && AllIntersect(tail)
    ensures LastOuter(ops + [op] + tail) == |ops| + 1
    decreases |tail|
  {
    var all := ops + [op] + tail;
    if tail == [] {
      assert all[|all| - 1] == op;
    } else {
      var n := |tail| - 1;
      assert all[|all| - 1] == tail[n] && all[..|all| - 1] == ops + [op] + tail[..n];
      LastOuterIs(ops, op, tail[..n]);
    }
  }

  // The n arms from the i-th on are those of b from the j-th on.
  ghost predicate SameArms(a: seq<seq<Row>>, b: seq<seq<Row>>, i: nat, j: nat, n: nat) {
    i + n <= |a| && j + n <= |b| && forall k {:trigger a[k]} :: i <= k < i + n ==> a[k] == b[k - i + j]
  }

  // Only the arms that the chain names matter.
  lemma {:induction false} EvalShifts(key: Keyed, a: seq<seq<Row>>, b: seq<seq<Row>>, ops: seq<SetOp>, i: nat, j: nat)
    requires SameArms(a, b, i, j, |ops| + 1)
    ensures Eval(key, a, Parse(i, ops)) == Eval(key, b, Parse(j, ops))
    decreases |ops|
  {
    hide Apply;
    var k := LastOuter(ops);
    if k > 0 {
      EvalShifts(key, a, b, ops[..k - 1], i, j);
      EvalShifts(key, a, b, ops[k..], i + k, j + k);
    } else if ops == [] {
      assert a[i] == b[j];
    } else {
      EvalShifts(key, a, b, ops[..|ops| - 1], i, j);
      assert a[i + |ops|] == b[j + |ops|];
    }
  }

  // UNION, UNION ALL and EXCEPT run from left to right; INTERSECT goes first, so the operations behind the last of
  // the others are done before it.
  lemma OuterLast(key: Keyed, left: seq<seq<Row>>, ops: seq<SetOp>, op: SetOp, right: seq<seq<Row>>, tail: seq<SetOp>)
    requires op != Intersect && AllIntersect(tail) && |left| == |ops| + 1 && |right| == |tail| + 1
    ensures Eval(key, left + right, Parse(0, ops + [op] + tail)) ==
      Apply(key, op, Eval(key, left, Parse(0, ops)), Eval(key, right, Parse(0, tail)))
  {
    hide *;
    var all := ops + [op] + tail;
    LastOuterIs(ops, op, tail);
    assert all[|ops|] == op && all[..|ops|] == ops && all[|ops| + 1..] == tail;
    ParseUnfolds(all);
    NodeMeans(key, left + right, op, Parse(0, ops), Parse(|ops| + 1, tail));
    LeftArms(left, right);
    EvalShifts(key, left + right, left, ops, 0, 0);
    EvalShifts(key, left + right, right, tail, |ops| + 1, 0);
  }

  lemma NodeMeans(key: Keyed, arms: seq<seq<Row>>, op: SetOp, l: Tree, r: Tree)
    ensures Eval(key, arms, Node(op, l, r)) == Apply(key, op, Eval(key, arms, l), Eval(key, arms, r))
  {
  }

  lemma LeftArms(left: seq<seq<Row>>, right: seq<seq<Row>>)
    ensures SameArms(left + right, left, 0, 0, |left|) && SameArms(left + right, right, |left|, 0, |right|)
  {
  }

  lemma ParseUnfolds(ops: seq<SetOp>)
    ensures var k := LastOuter(ops);
      k > 0 ==> Parse(0, ops) == Node(ops[k - 1], Parse(0, ops[..k - 1]), Parse(k, ops[k..]))
  {
  }

  // A chain of INTERSECTs runs from left to right.
  lemma IntersectsInTurn(key: Keyed, arms: seq<seq<Row>>, ops: seq<SetOp>)
    requires AllIntersect(ops) && ops != [] && |arms| == |ops| + 1
    ensures Eval(key, arms, Parse(0, ops)) ==
      Apply(key, Intersect, Eval(key, arms[..|ops|], Parse(0, ops[1..])), arms[|ops|])
  {
    hide Apply;
    var n := |ops| - 1;
    assert ops[..n] == ops[1..];
    EvalShifts(key, arms, arms[..|ops|], ops[..n], 0, 0);
    assert LastOuter(ops) == 0;
  }
}
