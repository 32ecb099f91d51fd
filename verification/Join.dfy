// The nested-loop join (internal/exec/join.go) and how filters pass through it.

module Rows {
  import opened Fold

  function Nulls(n: nat): (r: Row)
    ensures |r| == n && forall i :: 0 <= i < n ==> r[i] == Null
  {
    seq(n, i => Null)
  }

  // The rows f yields for each of xs, in order.
  function Flat<S, T>(f: S -> seq<T>, xs: seq<S>): seq<T> {
    if xs == [] then [] else f(xs[0]) + Flat(f, xs[1..])
  }

  function Filter<T>(keep: T -> bool, rows: seq<T>): (out: seq<T>)
    ensures forall r <- out :: r in rows && keep(r)
  {
    if rows == [] then []
    else if keep(rows[0]) then [rows[0]] + Filter(keep, rows[1..])
    else Filter(keep, rows[1..])
  }

  lemma {:induction false} FlatAppend<S, T>(f: S -> seq<T>, a: seq<S>, b: seq<S>)
    ensures Flat(f, a + b) == Flat(f, a) + Flat(f, b)
  {
    if a == [] {
      assert a + b == b;
    } else {
      assert (a + b)[1..] == a[1..] + b;
      FlatAppend(f, a[1..], b);
    }
  }

  lemma FlatNone<S, T>(f: S -> seq<T>, xs: seq<S>)
    ensures Flat(f, xs[..0]) == []
  {
  }

  // One more turn of a loop that appends f(xs[i]).
  lemma FlatTurn<S, T>(f: S -> seq<T>, xs: seq<S>, i: nat)
    requires i < |xs|
    ensures Flat(f, xs[..i + 1]) == Flat(f, xs[..i]) + f(xs[i])
    ensures i == 0 ==> Flat(f, xs[..i]) == []
    ensures i + 1 == |xs| ==> xs[..i + 1] == xs
  {
    assert xs[..i + 1] == xs[..i] + [xs[i]];
    FlatAppend(f, xs[..i], [xs[i]]);
    assert Flat(f, [xs[i]]) == f(xs[i]) + Flat(f, []);
  }

  lemma {:induction false} FlatAgree<S, T>(f: S -> seq<T>, g: S -> seq<T>, xs: seq<S>)
    requires forall x <- xs :: f(x) == g(x)
    ensures Flat(f, xs) == Flat(g, xs)
  {
    if xs != [] { FlatAgree(f, g, xs[1..]); }
  }

  lemma {:induction false} FlatMembers<S, T>(f: S -> seq<T>, xs: seq<S>, y: T) returns (x: S)
    requires y in Flat(f, xs)
    ensures x in xs && y in f(x)
  {
    if y in f(xs[0]) { x := xs[0]; } else { x := FlatMembers(f, xs[1..], y); }
  }

  lemma {:induction false} FlatHas<S, T>(f: S -> seq<T>, xs: seq<S>, x: S, y: T)
    requires x in xs && y in f(x)
    ensures y in Flat(f, xs)
  {
    if x != xs[0] { FlatHas(f, xs[1..], x, y); }
  }

  lemma {:induction false} FilterHas<T>(keep: T -> bool, rows: seq<T>, x: T)
    requires x in rows && keep(x)
    ensures x in Filter(keep, rows)
  {
    if x != rows[0] { FilterHas(keep, rows[1..], x); }
  }

  // One more element in front, kept or not.
  lemma SkipOne<S, T>(f: S -> seq<T>, p: S -> bool, x: S, xs: seq<S>)
    requires !p(x) ==> f(x) == []
    requires Flat(f, Filter(p, xs)) == Flat(f, xs)
    ensures Flat(f, Filter(p, [x] + xs)) == Flat(f, [x] + xs)
  {
    var rest := Filter(p, xs);
    assert ([x] + xs)[1..] == xs && ([x] + rest)[1..] == rest;
  }

  // Elements that yield nothing may be left out.
  lemma {:induction false} FlatSkips<S, T>(f: S -> seq<T>, p: S -> bool, xs: seq<S>)
    requires forall x <- xs :: !p(x) ==> f(x) == []
    ensures Flat(f, Filter(p, xs)) == Flat(f, xs)
  {
    if xs != [] {
      assert xs == [xs[0]] + xs[1..];
      FlatSkips(f, p, xs[1..]);
      SkipOne(f, p, xs[0], xs[1..]);
    }
  }

  lemma {:induction false} FilterAppend<T>(keep: T -> bool, a: seq<T>, b: seq<T>)
    ensures Filter(keep, a + b) == Filter(keep, a) + Filter(keep, b)
  {
    if a == [] {
      assert a + b == b;
    } else {
      assert (a + b)[1..] == a[1..] + b;
      FilterAppend(keep, a[1..], b);
    }
  }

  lemma {:induction false} FilterFlat<S, T>(good: T -> bool, f: S -> seq<T>, g: S -> seq<T>, xs: seq<S>)
    requires forall x <- xs :: Filter(good, f(x)) == g(x)
    ensures Filter(good, Flat(f, xs)) == Flat(g, xs)
  {
    if xs != [] {
      FilterFlat(good, f, g, xs[1..]);
      FilterAppend(good, f(xs[0]), Flat(f, xs[1..]));
    }
  }

  lemma {:induction false} FilterAgree<T>(p: T -> bool, q: T -> bool, rows: seq<T>)
    requires forall r <- rows :: p(r) == q(r)
    ensures Filter(p, rows) == Filter(q, rows)
  {
    if rows != [] { FilterAgree(p, q, rows[1..]); }
  }

  lemma {:induction false} FilterAll<T>(keep: T -> bool, rows: seq<T>)
    requires forall r <- rows :: keep(r)
    ensures Filter(keep, rows) == rows
  {
    if rows != [] { FilterAll(keep, rows[1..]); }
  }

  lemma {:induction false} FilterNone<T>(keep: T -> bool, rows: seq<T>)
    requires forall r <- rows :: !keep(r)
    ensures Filter(keep, rows) == []
  {
    if rows != [] { FilterNone(keep, rows[1..]); }
  }

  lemma {:induction false} FilterTwice<T>(p: T -> bool, q: T -> bool, both: T -> bool, rows: seq<T>)
    requires forall r <- rows :: both(r) == (p(r) && q(r))
    ensures Filter(p, Filter(q, rows)) == Filter(both, rows)
  {
    if rows != [] {
      FilterTwice(p, q, both, rows[1..]);
      if q(rows[0]) { assert Filter(q, rows)[1..] == Filter(q, rows[1..]); }
    }
  }

  // part is full with some rows left out, none of them a row that must stay.
  ghost predicate Leaves<T>(full: seq<T>, part: seq<T>, must: T -> bool) {
    if full == [] then part == []
    else
      || (part != [] && part[0] == full[0] && Leaves(full[1..], part[1..], must))
      || (!must(full[0]) && Leaves(full[1..], part, must))
  }

  lemma {:induction false} LeavesFilter<T>(full: seq<T>, part: seq<T>, must: T -> bool)
    requires Leaves(full, part, must)
    ensures Filter(must, part) == Filter(must, full)
    ensures forall r :: r in part ==> r in full
  {
    if full != [] {
      if part != [] && part[0] == full[0] && Leaves(full[1..], part[1..], must) {
        LeavesFilter(full[1..], part[1..], must);
        assert forall r :: r in part ==> r == part[0] || r in part[1..];
      } else {
        LeavesFilter(full[1..], part, must);
      }
    }
  }
}

module JoinExec {
  import opened Option
  import opened Fold
  import opened Tds
  import opened Rows

  // ---------- What the join computes ----------

  predicate ExtendsLeft(jt: JoinType) { jt == Left || jt == Full }

  predicate ExtendsRight(jt: JoinType) { jt == Right || jt == Full }

  function Pair(l: Row, keep: Row -> bool): Row -> seq<Row> {
    r => if keep(l + r) then [l + r] else []
  }

  // One left row's share: its pairs, or itself NULL-extended when LEFT or FULL finds none.
  function Share(rs: seq<Row>, jt: JoinType, rw: nat, keep: Row -> bool): Row -> seq<Row> {
    l =>
      var pairs := Flat(Pair(l, keep), rs);
      if pairs == [] && ExtendsLeft(jt) then [l + Nulls(rw)] else pairs
  }

  predicate Matched(ls: seq<Row>, r: Row, keep: Row -> bool) {
    exists i :: 0 <= i < |ls| && keep(ls[i] + r)
  }

  // A right row no left row matched, NULL-extended on the left.
  function Lonely(ls: seq<Row>, lw: nat, keep: Row -> bool): Row -> seq<Row> {
    r => if Matched(ls, r, keep) then [] else [Nulls(lw) + r]
  }

  function JoinRows(ls: seq<Row>, jt: JoinType, lw: nat, rs: seq<Row>, rw: nat, keep: Row -> bool): seq<Row> {
    Flat(Share(rs, jt, rw, keep), ls) + (if ExtendsRight(jt) then Flat(Lonely(ls, lw, keep), rs) else [])
  }

  // APPLY: each left row with the rows its own right side yields; OUTER keeps a left row without any.
  function Applied(outer: bool, right: Row -> seq<Row>, rw: nat): Row -> seq<Row> {
    l => if right(l) == [] && outer then [l + Nulls(rw)] else Flat(Pair(l, _ => true), right(l))
  }

  // ---------- The loops ----------

  // The inner loop: one left row against every right row.
  method PairUp(l: Row, rs: seq<Row>, jt: JoinType, rw: nat, keep: Row -> bool, before: seq<bool>)
    returns (out: seq<Row>, rightMatched: seq<bool>)
    requires |before| == |rs|
    ensures out == Share(rs, jt, rw, keep)(l)
    ensures |rightMatched| == |rs|
    ensures forall ri :: 0 <= ri < |rs| ==> rightMatched[ri] == (before[ri] || keep(l + rs[ri]))
  {
    var matched := false;
    out, rightMatched := [], before;
    for ri := 0 to |rs|
      invariant out == Flat(Pair(l, keep), rs[..ri])
      invariant matched == (out != [])
      invariant |rightMatched| == |rs|
      invariant forall i :: 0 <= i < |rs| ==> rightMatched[i] == (before[i] || (i < ri && keep(l + rs[i])))
    {
      FlatTurn(Pair(l, keep), rs, ri);
      if keep(l + rs[ri]) {
        out := out + [l + rs[ri]];
        matched := true;
        rightMatched := rightMatched[ri := true];
      }
    }
    assert rs[..|rs|] == rs;
    if !matched && ExtendsLeft(jt) {
      out := out + [l + Nulls(rw)];
    }
  }

  // flags[ri] tells whether some row of ls paired with rs[ri].
  ghost predicate Marks(flags: seq<bool>, ls: seq<Row>, rs: seq<Row>, keep: Row -> bool) {
    |flags| == |rs| && forall ri :: 0 <= ri < |rs| ==> flags[ri] == Matched(ls, rs[ri], keep)
  }

  lemma MarksNone(flags: seq<bool>, ls: seq<Row>, rs: seq<Row>, keep: Row -> bool)
    requires |flags| == |rs| && forall ri :: 0 <= ri < |rs| ==> !flags[ri]
    ensures Marks(flags, ls[..0], rs, keep)
  {
  }

  lemma MarksTurn(before: seq<bool>, after: seq<bool>, ls: seq<Row>, i: nat, rs: seq<Row>, keep: Row -> bool)
    requires i < |ls| && |after| == |rs| && Marks(before, ls[..i], rs, keep)
    requires forall ri :: 0 <= ri < |rs| ==> after[ri] == (before[ri] || keep(ls[i] + rs[ri]))
    ensures Marks(after, ls[..i + 1], rs, keep)
    ensures i + 1 == |ls| ==> ls[..i + 1] == ls
  {
    assert ls[..i + 1][i] == ls[i];
    assert forall j :: 0 <= j < i ==> ls[..i + 1][j] == ls[..i][j];
  }

  // The outer loop over the left rows; rightMatched remembers the right rows that paired.
  method AllShares(ls: seq<Row>, rs: seq<Row>, jt: JoinType, rw: nat, keep: Row -> bool)
    returns (out: seq<Row>, rightMatched: seq<bool>)
    ensures out == Flat(Share(rs, jt, rw, keep), ls)
    ensures Marks(rightMatched, ls, rs, keep)
  {
    hide *;
    out, rightMatched := [], seq(|rs|, _ => false);
    MarksNone(rightMatched, ls, rs, keep);
    FlatNone(Share(rs, jt, rw, keep), ls);
    for li := 0 to |ls|
      invariant out == Flat(Share(rs, jt, rw, keep), ls[..li])
      invariant |rightMatched| == |rs| && Marks(rightMatched, ls[..li], rs, keep)
    {
      var share, flags := PairUp(ls[li], rs, jt, rw, keep, rightMatched);
      FlatTurn(Share(rs, jt, rw, keep), ls, li);
      MarksTurn(rightMatched, flags, ls, li, rs, keep);
      out, rightMatched := out + share, flags;
    }
    assert ls[..|ls|] == ls;
  }

  // Join: every left row's share, then the right rows that stayed alone.
  method NestedLoop(ls: seq<Row>, jt: JoinType, lw: nat, rs: seq<Row>, rw: nat, keep: Row -> bool)
    returns (out: seq<Row>)
    ensures out == JoinRows(ls, jt, lw, rs, rw, keep)
  {
    var rightMatched;
    out, rightMatched := AllShares(ls, rs, jt, rw, keep);
    if ExtendsRight(jt) {
      var rest := Unpaired(ls, lw, rs, keep, rightMatched);
      out := out + rest;
    }
  }

  method Unpaired(ghost ls: seq<Row>, lw: nat, rs: seq<Row>, ghost keep: Row -> bool, rightMatched: seq<bool>)
    returns (out: seq<Row>)
    requires Marks(rightMatched, ls, rs, keep)
    ensures out == Flat(Lonely(ls, lw, keep), rs)
  {
    out := [];
    for ri := 0 to |rs|
      invariant out == Flat(Lonely(ls, lw, keep), rs[..ri])
    {
      FlatTurn(Lonely(ls, lw, keep), rs, ri);
      if !rightMatched[ri] {
        out := out + [Nulls(lw) + rs[ri]];
      }
    }
    assert rs[..|rs|] == rs;
  }

  method Paired(l: Row, rs: seq<Row>) returns (out: seq<Row>)
    ensures out == Flat(Pair(l, _ => true), rs)
  {
    out := [];
    for ri := 0 to |rs|
      invariant out == Flat(Pair(l, _ => true), rs[..ri])
    {
      FlatTurn(Pair(l, _ => true), rs, ri);
      out := out + [l + rs[ri]];
    }
    assert rs[..|rs|] == rs;
  }

  // applyJoin: the right side once per left row.
  method ApplyLoop(ls: seq<Row>, outer: bool, right: Row -> seq<Row>, rw: nat) returns (out: seq<Row>)
    ensures out == Flat(Applied(outer, right, rw), ls)
  {
    out := [];
    for li := 0 to |ls|
      invariant out == Flat(Applied(outer, right, rw), ls[..li])
    {
      FlatTurn(Applied(outer, right, rw), ls, li);
      var rs := right(ls[li]);
      var pairs := Paired(ls[li], rs);
      out := out + pairs;
      if |rs| == 0 && outer {
        out := out + [ls[li] + Nulls(rw)];
      }
    }
    assert ls[..|ls|] == ls;
  }

  // ---------- Row widths ----------

  ghost predicate Wide(rows: seq<Row>, w: nat) {
    forall r :: r in rows ==> |r| == w
  }

  lemma PairMember(l: Row, rs: seq<Row>, keep: Row -> bool, x: Row) returns (r: Row)
    requires x in Flat(Pair(l, keep), rs)
    ensures r in rs && x == l + r && keep(x)
  {
    r := FlatMembers(Pair(l, keep), rs, x);
  }

  // Every joined row is a left row or NULLs followed by a right row or NULLs.
  lemma JoinShape(ls: seq<Row>, jt: JoinType, lw: nat, rs: seq<Row>, rw: nat, keep: Row -> bool, x: Row)
    returns (l: Row, r: Row)
    requires x in JoinRows(ls, jt, lw, rs, rw, keep)
    ensures x == l + r && (l in ls || l == Nulls(lw)) && (r in rs || r == Nulls(rw))
  {
    if x in Flat(Share(rs, jt, rw, keep), ls) {
      l := FlatMembers(Share(rs, jt, rw, keep), ls, x);
      if x in Flat(Pair(l, keep), rs) { r := PairMember(l, rs, keep, x); } else { r := Nulls(rw); }
    } else {
      r := FlatMembers(Lonely(ls, lw, keep), rs, x);
      l := Nulls(lw);
    }
  }

  lemma ApplyShape(ls: seq<Row>, outer: bool, right: Row -> seq<Row>, rw: nat, x: Row) returns (l: Row, r: Row)
    requires x in Flat(Applied(outer, right, rw), ls)
    ensures x == l + r && l in ls && (r in right(l) || r == Nulls(rw))
  {
    l := FlatMembers(Applied(outer, right, rw), ls, x);
    if x in Flat(Pair(l, _ => true), right(l)) {
      r := PairMember(l, right(l), _ => true, x);
    } else {
      r := Nulls(rw);
    }
  }

  // ---------- A filter on one side passes through ----------

  // f extends left rows: every row it yields for l starts with l.
  ghost predicate Extends(f: Row -> seq<Row>) {
    forall l, x :: x in f(l) ==> l <= x
  }

  lemma ShareExtends(rs: seq<Row>, jt: JoinType, rw: nat, keep: Row -> bool)
    ensures Extends(Share(rs, jt, rw, keep))
  {
    forall l, x | x in Share(rs, jt, rw, keep)(l) ensures l <= x {
      if x in Flat(Pair(l, keep), rs) { var r := PairMember(l, rs, keep, x); }
    }
  }

  lemma AppliedExtends(outer: bool, right: Row -> seq<Row>, rw: nat)
    ensures Extends(Applied(outer, right, rw))
  {
    forall l, x | x in Applied(outer, right, rw)(l) ensures l <= x {
      if x in Flat(Pair(l, _ => true), right(l)) { var r := PairMember(l, right(l), _ => true, x); }
    }
  }

  // good looks at the first w columns only.
  ghost predicate ReadsPrefix(good: Row -> bool, w: nat) {
    forall x: Row {:trigger good(x)} :: |x| >= w ==> good(x) == good(x[..w])
  }

  // good looks, through ok, at what follows the first w columns only.
  ghost predicate ReadsSuffix(good: Row -> bool, ok: Row -> bool, w: nat) {
    forall x: Row {:trigger good(x)} :: |x| >= w ==> good(x) == ok(x[w..])
  }

  // Then it drops a left row's whole share or keeps all of it.
  lemma FilterLeft(good: Row -> bool, f: Row -> seq<Row>, ls: seq<Row>, lw: nat)
    requires ReadsPrefix(good, lw) && Extends(f) && Wide(ls, lw)
    ensures Filter(good, Flat(f, ls)) == Flat(f, Filter(good, ls))
  {
    var g := (l: Row) => if good(l) then f(l) else [];
    forall l | l in ls ensures Filter(good, f(l)) == g(l) {
      forall x | x in f(l) ensures good(x) == good(l) { assert x[..lw] == l == l[..lw]; }
      if good(l) { FilterAll(good, f(l)); } else { FilterNone(good, f(l)); }
    }
    FilterFlat(good, f, g, ls);
    FlatSkips(g, good, ls);
    FlatAgree(f, g, Filter(good, ls));
  }

  // Two left inputs with the same good rows give joins with the same good rows, provided no right row
  // can come back NULL-extended and good.
  lemma SameGoodLeft(good: Row -> bool, a: seq<Row>, b: seq<Row>, jt: JoinType, lw: nat, rs: seq<Row>, rw: nat,
      keep: Row -> bool)
    requires Filter(good, a) == Filter(good, b)
    requires ReadsPrefix(good, lw) && Wide(a, lw) && Wide(b, lw)
    requires ExtendsRight(jt) ==> !good(Nulls(lw))
    ensures Filter(good, JoinRows(a, jt, lw, rs, rw, keep)) == Filter(good, JoinRows(b, jt, lw, rs, rw, keep))
  {
    ShareExtends(rs, jt, rw, keep);
    forall ls | ls == a || ls == b
      ensures Filter(good, JoinRows(ls, jt, lw, rs, rw, keep)) == Flat(Share(rs, jt, rw, keep), Filter(good, ls))
    {
      FilterAppend(good, Flat(Share(rs, jt, rw, keep), ls),
        if ExtendsRight(jt) then Flat(Lonely(ls, lw, keep), rs) else []);
      FilterLeft(good, Share(rs, jt, rw, keep), ls, lw);
      if ExtendsRight(jt) { LonelyIsBad(good, ls, lw, rs, keep); }
    }
  }

  lemma LonelyIsBad(good: Row -> bool, ls: seq<Row>, lw: nat, rs: seq<Row>, keep: Row -> bool)
    requires ReadsPrefix(good, lw) && !good(Nulls(lw))
    ensures Filter(good, Flat(Lonely(ls, lw, keep), rs)) == []
  {
    forall x | x in Flat(Lonely(ls, lw, keep), rs) ensures !good(x) {
      var r := FlatMembers(Lonely(ls, lw, keep), rs, x);
      assert x[..lw] == Nulls(lw);
    }
    FilterNone(good, Flat(Lonely(ls, lw, keep), rs));
  }

  lemma FilterPairs(good: Row -> bool, ok: Row -> bool, l: Row, rs: seq<Row>, keep: Row -> bool)
    requires ReadsSuffix(good, ok, |l|)
    ensures Filter(good, Flat(Pair(l, keep), rs)) == Flat(Pair(l, keep), Filter(ok, rs))
  {
    forall r ensures good(l + r) == ok(r) { assert (l + r)[|l|..] == r; }
    var g := (r: Row) => if ok(r) then Pair(l, keep)(r) else [];
    FilterFlat(good, Pair(l, keep), g, rs);
    FlatSkips(g, ok, rs);
    FlatAgree(Pair(l, keep), g, Filter(ok, rs));
  }

  // The good part of a share is its pairs with ok right rows, unless its NULL extension is good too.
  lemma FilterShare(good: Row -> bool, ok: Row -> bool, l: Row, rs: seq<Row>, jt: JoinType, rw: nat, keep: Row -> bool)
    requires ReadsSuffix(good, ok, |l|)
    requires ExtendsLeft(jt) ==> !ok(Nulls(rw))
    ensures Filter(good, Share(rs, jt, rw, keep)(l)) == Flat(Pair(l, keep), Filter(ok, rs))
  {
    FilterPairs(good, ok, l, rs, keep);
    if Flat(Pair(l, keep), rs) == [] && ExtendsLeft(jt) {
      assert (l + Nulls(rw))[|l|..] == Nulls(rw);
      assert Filter(good, [l + Nulls(rw)]) == Filter(good, []);
    }
  }

  lemma FilterLonely(good: Row -> bool, ok: Row -> bool, ls: seq<Row>, lw: nat, rs: seq<Row>, keep: Row -> bool)
    requires ReadsSuffix(good, ok, lw)
    ensures Filter(good, Flat(Lonely(ls, lw, keep), rs)) == Flat(Lonely(ls, lw, keep), Filter(ok, rs))
  {
    forall r: Row ensures good(Nulls(lw) + r) == ok(r) { assert (Nulls(lw) + r)[lw..] == r; }
    var g := (r: Row) => if ok(r) then Lonely(ls, lw, keep)(r) else [];
    forall r | r in rs ensures Filter(good, Lonely(ls, lw, keep)(r)) == g(r) {
      if ok(r) { FilterAll(good, Lonely(ls, lw, keep)(r)); } else { FilterNone(good, Lonely(ls, lw, keep)(r)); }
    }
    FilterFlat(good, Lonely(ls, lw, keep), g, rs);
    FlatSkips(g, ok, rs);
    FlatAgree(Lonely(ls, lw, keep), g, Filter(ok, rs));
  }

  // Two right inputs with the same ok rows give joins with the same good rows, provided no left row
  // can come back NULL-extended and good.
  lemma SameGoodRight(good: Row -> bool, ok: Row -> bool, ls: seq<Row>, jt: JoinType, lw: nat, a: seq<Row>, b: seq<Row>,
      rw: nat, keep: Row -> bool)
    requires Filter(ok, a) == Filter(ok, b)
    requires Wide(ls, lw) && ReadsSuffix(good, ok, lw)
    requires ExtendsLeft(jt) ==> !ok(Nulls(rw))
    ensures Filter(good, JoinRows(ls, jt, lw, a, rw, keep)) == Filter(good, JoinRows(ls, jt, lw, b, rw, keep))
  {
    forall rs | rs == a || rs == b
      ensures Filter(good, JoinRows(ls, jt, lw, rs, rw, keep)) ==
        Flat(Share(Filter(ok, rs), Inner, rw, keep), ls) +
        (if ExtendsRight(jt) then Flat(Lonely(ls, lw, keep), Filter(ok, rs)) else [])
    {
      FilterAppend(good, Flat(Share(rs, jt, rw, keep), ls),
        if ExtendsRight(jt) then Flat(Lonely(ls, lw, keep), rs) else []);
      forall l | l in ls ensures Filter(good, Share(rs, jt, rw, keep)(l)) == Share(Filter(ok, rs), Inner, rw, keep)(l) {
        FilterShare(good, ok, l, rs, jt, rw, keep);
      }
      FilterFlat(good, Share(rs, jt, rw, keep), Share(Filter(ok, rs), Inner, rw, keep), ls);
      FilterLonely(good, ok, ls, lw, rs, keep);
    }
  }

  // ---------- Semi-join reduction ----------

  // INNER and LEFT lose nothing when the right side keeps every row some left row pairs with.
  lemma OnlyPartnersMatter(ls: seq<Row>, jt: JoinType, lw: nat, rs: seq<Row>, rw: nat, keep: Row -> bool,
      partner: Row -> bool)
    requires !ExtendsRight(jt)
    requires forall l, r :: l in ls && r in rs && keep(l + r) ==> partner(r)
    ensures JoinRows(ls, jt, lw, rs, rw, keep) == JoinRows(ls, jt, lw, Filter(partner, rs), rw, keep)
  {
    forall l | l in ls ensures Share(rs, jt, rw, keep)(l) == Share(Filter(partner, rs), jt, rw, keep)(l) {
      FlatSkips(Pair(l, keep), partner, rs);
    }
    FlatAgree(Share(rs, jt, rw, keep), Share(Filter(partner, rs), jt, rw, keep), ls);
  }

  // RIGHT and FULL do lose rows: an unpaired right row is part of their answer.
  lemma ReductionUnsafeForRight(jt: JoinType, r: Row, lw: nat)
    requires ExtendsRight(jt)
    ensures var none := (_: Row) => false;
      JoinRows([], jt, lw, [r], |r|, none) != JoinRows([], jt, lw, Filter(none, [r]), |r|, none)
  {
    var none := (_: Row) => false;
    assert [r][1..] == [];
    assert Flat(Lonely([], lw, none), [r]) == [Nulls(lw) + r];
  }
}
