// What each join type answers (internal/exec/join.go, applyJoin in internal/engine/engine.go), type by type.
module JoinLaws {
  import opened Fold
  import opened Tds
  import opened Rows
  import opened JoinExec
  import opened Planner

  ghost predicate Partner(l: Row, rs: seq<Row>, keep: Row -> bool) { exists r :: r in rs && keep(l + r) }

  ghost predicate Wanted(ls: seq<Row>, r: Row, keep: Row -> bool) { exists l :: l in ls && keep(l + r) }

  // A left row and a right row that meet ON.
  ghost predicate IsPair(ls: seq<Row>, rs: seq<Row>, keep: Row -> bool, x: Row) {
    exists l, r :: l in ls && r in rs && x == l + r && keep(x)
  }

  // A left row without a partner, and a right row that no left row wants, with NULLs for the other side.
  ghost predicate IsLeftAlone(ls: seq<Row>, rs: seq<Row>, rw: nat, keep: Row -> bool, x: Row) {
    exists l :: l in ls && !Partner(l, rs, keep) && x == l + Nulls(rw)
  }

  ghost predicate IsRightAlone(ls: seq<Row>, lw: nat, rs: seq<Row>, keep: Row -> bool, x: Row) {
    exists r :: r in rs && !Wanted(ls, r, keep) && x == Nulls(lw) + r
  }

  // ---------- Which rows ----------

  lemma NoPairs(l: Row, rs: seq<Row>, keep: Row -> bool)
    ensures Flat(Pair(l, keep), rs) == [] <==> !Partner(l, rs, keep)
  {
    var pairs := Flat(Pair(l, keep), rs);
    if pairs != [] { var r := PairMember(l, rs, keep, pairs[0]); }
    if Partner(l, rs, keep) {
      var r :| r in rs && keep(l + r);
      FlatHas(Pair(l, keep), rs, r, l + r);
    }
  }

  lemma ShareMember(l: Row, rs: seq<Row>, jt: JoinType, rw: nat, keep: Row -> bool, x: Row)
    ensures x in Share(rs, jt, rw, keep)(l) <==>
      || (exists r :: r in rs && keep(l + r) && x == l + r)
      || (ExtendsLeft(jt) && !Partner(l, rs, keep) && x == l + Nulls(rw))
  {
    NoPairs(l, rs, keep);
    if x in Flat(Pair(l, keep), rs) { var r := PairMember(l, rs, keep, x); }
    if r :| r in rs && keep(l + r) && x == l + r { FlatHas(Pair(l, keep), rs, r, x); }
  }

  lemma MatchedIsWanted(ls: seq<Row>, r: Row, keep: Row -> bool)
    ensures Matched(ls, r, keep) <==> Wanted(ls, r, keep)
  {
    if l :| l in ls && keep(l + r) {
      var i :| 0 <= i < |ls| && ls[i] == l;
      assert keep(ls[i] + r);
    }
  }

  // Exactly the rows of a join: its pairs, for LEFT and FULL the left rows without a partner, for RIGHT and FULL the
  // right rows that no left row wants.
  lemma JoinExactly(ls: seq<Row>, jt: JoinType, lw: nat, rs: seq<Row>, rw: nat, keep: Row -> bool, x: Row)
    requires jt in {Inner, Cross, Left, Right, Full}
    ensures x in JoinRows(ls, jt, lw, rs, rw, keep) <==>
      || IsPair(ls, rs, keep, x)
      || (jt in {Left, Full} && IsLeftAlone(ls, rs, rw, keep, x))
      || (jt in {Right, Full} && IsRightAlone(ls, lw, rs, keep, x))
  {
    hide Share, Lonely, Matched, Wanted, Partner;
    LeftPart(ls, jt, rs, rw, keep, x);
    RightPart(ls, lw, rs, keep, x);
  }

  lemma LeftPart(ls: seq<Row>, jt: JoinType, rs: seq<Row>, rw: nat, keep: Row -> bool, x: Row)
    ensures x in Flat(Share(rs, jt, rw, keep), ls) <==>
      IsPair(ls, rs, keep, x) || (ExtendsLeft(jt) && IsLeftAlone(ls, rs, rw, keep, x))
  {
    hide Share, Partner;
    var f := Share(rs, jt, rw, keep);
    if x in Flat(f, ls) {
      var l := FlatMembers(f, ls, x);
      ShareMember(l, rs, jt, rw, keep, x);
    }
    if IsPair(ls, rs, keep, x) {
      var l, r :| l in ls && r in rs && x == l + r && keep(x);
      ShareMember(l, rs, jt, rw, keep, x);
      FlatHas(f, ls, l, x);
    }
    if ExtendsLeft(jt) && IsLeftAlone(ls, rs, rw, keep, x) {
      var l :| l in ls && !Partner(l, rs, keep) && x == l + Nulls(rw);
      ShareMember(l, rs, jt, rw, keep, x);
      FlatHas(f, ls, l, x);
    }
  }

  lemma RightPart(ls: seq<Row>, lw: nat, rs: seq<Row>, keep: Row -> bool, x: Row)
    ensures x in Flat(Lonely(ls, lw, keep), rs) <==> IsRightAlone(ls, lw, rs, keep, x)
  {
    hide Matched, Wanted;
    var f := Lonely(ls, lw, keep);
    if x in Flat(f, rs) {
      var r := FlatMembers(f, rs, x);
      MatchedIsWanted(ls, r, keep);
    }
    if IsRightAlone(ls, lw, rs, keep, x) {
      var r :| r in rs && !Wanted(ls, r, keep) && x == Nulls(lw) + r;
      MatchedIsWanted(ls, r, keep);
      FlatHas(f, rs, r, x);
    }
  }

  // ---------- In which order, and how often ----------

  // Left rows in turn.
  lemma LeftRowsInTurn(a: seq<Row>, b: seq<Row>, jt: JoinType, lw: nat, rs: seq<Row>, rw: nat, keep: Row -> bool)
    requires jt in {Inner, Cross, Left}
    ensures JoinRows(a + b, jt, lw, rs, rw, keep) ==
      JoinRows(a, jt, lw, rs, rw, keep) + JoinRows(b, jt, lw, rs, rw, keep)
  {
    FlatAppend(Share(rs, jt, rw, keep), a, b);
  }

  lemma OneLeftRow(l: Row, jt: JoinType, lw: nat, rs: seq<Row>, rw: nat, keep: Row -> bool)
    requires jt in {Inner, Cross, Left}
    ensures JoinRows([l], jt, lw, rs, rw, keep) == Share(rs, jt, rw, keep)(l)
  {
    var f := Share(rs, jt, rw, keep);
    assert [l][1..] == [] && Flat(f, [l]) == f(l) + Flat(f, []);
  }

  // One left row: its pairs in the order of the right rows, each right row once.
  lemma RightRowsInTurn(l: Row, lw: nat, a: seq<Row>, b: seq<Row>, rw: nat, keep: Row -> bool)
    ensures JoinRows([l], Inner, lw, a + b, rw, keep) ==
      JoinRows([l], Inner, lw, a, rw, keep) + JoinRows([l], Inner, lw, b, rw, keep)
    ensures JoinRows([l], Inner, lw, [], rw, keep) == []
  {
    OneLeftRow(l, Inner, lw, a + b, rw, keep);
    OneLeftRow(l, Inner, lw, a, rw, keep);
    OneLeftRow(l, Inner, lw, b, rw, keep);
    OneLeftRow(l, Inner, lw, [], rw, keep);
    FlatAppend(Pair(l, keep), a, b);
  }

  lemma OnePair(l: Row, lw: nat, r: Row, rw: nat, keep: Row -> bool)
    ensures JoinRows([l], Inner, lw, [r], rw, keep) == if keep(l + r) then [l + r] else []
  {
    OneLeftRow(l, Inner, lw, [r], rw, keep);
    assert [r][1..] == [] && Flat(Pair(l, keep), [r]) == Pair(l, keep)(r) + Flat(Pair(l, keep), []);
  }

  // LEFT gives a left row what INNER gives it, or its NULL extension once where that is nothing.
  lemma LeftIsInnerOrAlone(l: Row, lw: nat, rs: seq<Row>, rw: nat, keep: Row -> bool)
    ensures var inner := JoinRows([l], Inner, lw, rs, rw, keep);
      JoinRows([l], Left, lw, rs, rw, keep) == if inner == [] then [l + Nulls(rw)] else inner
  {
    OneLeftRow(l, Left, lw, rs, rw, keep);
    OneLeftRow(l, Inner, lw, rs, rw, keep);
  }

  // CROSS is INNER; RIGHT is INNER, and FULL is LEFT, followed by the right rows that no left row wants.
  lemma RightAddsTheRest(ls: seq<Row>, lw: nat, rs: seq<Row>, rw: nat, keep: Row -> bool)
    ensures JoinRows(ls, Cross, lw, rs, rw, keep) == JoinRows(ls, Inner, lw, rs, rw, keep)
    ensures var rest := Filter(r => !Matched(ls, r, keep), rs);
      var alone := Flat(r => [Nulls(lw) + r], rest);
      && JoinRows(ls, Right, lw, rs, rw, keep) == JoinRows(ls, Inner, lw, rs, rw, keep) + alone
      && JoinRows(ls, Full, lw, rs, rw, keep) == JoinRows(ls, Left, lw, rs, rw, keep) + alone
  {
    hide Share, Lonely, Matched, Filter, Flat, Wanted;
    SameShares(ls, rs, rw, keep);
    LonelyAreTheRest(ls, lw, rs, keep);
    assert forall a: seq<Row> :: a + [] == a;
  }

  lemma SameShares(ls: seq<Row>, rs: seq<Row>, rw: nat, keep: Row -> bool)
    ensures Flat(Share(rs, Cross, rw, keep), ls) == Flat(Share(rs, Inner, rw, keep), ls)
    ensures Flat(Share(rs, Right, rw, keep), ls) == Flat(Share(rs, Inner, rw, keep), ls)
    ensures Flat(Share(rs, Full, rw, keep), ls) == Flat(Share(rs, Left, rw, keep), ls)
  {
    FlatAgree(Share(rs, Cross, rw, keep), Share(rs, Inner, rw, keep), ls);
    FlatAgree(Share(rs, Right, rw, keep), Share(rs, Inner, rw, keep), ls);
    FlatAgree(Share(rs, Full, rw, keep), Share(rs, Left, rw, keep), ls);
  }

  lemma LonelyAreTheRest(ls: seq<Row>, lw: nat, rs: seq<Row>, keep: Row -> bool)
    ensures Flat(Lonely(ls, lw, keep), rs) == Flat(r => [Nulls(lw) + r], Filter(r => !Matched(ls, r, keep), rs))
  {
    FlatSkips(Lonely(ls, lw, keep), r => !Matched(ls, r, keep), rs);
    FlatAgree(Lonely(ls, lw, keep), r => [Nulls(lw) + r], Filter(r => !Matched(ls, r, keep), rs));
  }

  // ---------- APPLY ----------

  // CROSS APPLY pairs each left row with the rows its own right side yields; OUTER APPLY keeps one that yields none.
  lemma ApplyExactly(w: World, p: Plan, n: nat, ls: seq<Row>, rs: seq<Row>, x: Row)
    requires n < |p.joins| && p.joins[n].source.Lateral? && p.joins[n].jt in {CrossApply, OuterApply}
    ensures var right := p.joins[n].source.right;
      x in StepRows(w, p, n, ls, rs) <==>
      || (exists l, r :: l in ls && r in right(l) && x == l + r)
      || (p.joins[n].jt == OuterApply &&
          exists l :: l in ls && right(l) == [] && x == l + Nulls(|p.joins[n].source.cols|))
  {
    var st := p.joins[n];
    var right, rw := st.source.right, |st.source.cols|;
    var f := Applied(st.jt == OuterApply, right, rw);
    assert StepRows(w, p, n, ls, rs) == Flat(f, ls);
    if x in Flat(f, ls) {
      var l := FlatMembers(f, ls, x);
      if right(l) != [] {
        var r := PairMember(l, right(l), _ => true, x);
      }
    }
    if exists l, r :: l in ls && r in right(l) && x == l + r {
      var l, r :| l in ls && r in right(l) && x == l + r;
      FlatHas(Pair(l, _ => true), right(l), r, x);
      FlatHas(f, ls, l, x);
    }
    if st.jt == OuterApply && exists l :: l in ls && right(l) == [] && x == l + Nulls(rw) {
      var l :| l in ls && right(l) == [] && x == l + Nulls(rw);
      FlatHas(f, ls, l, x);
    }
  }
}
