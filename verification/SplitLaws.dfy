// The two laws of the statement splitter: no unit of a batch is cut, lost or moved, and splitting what Resolve
// joins gives the same statements.

module SplitLaws {
  import opened Option
  import opened Lexing
  import opened Statements
  import opened Splitter
  import opened Rejoin

  // ---------- Trimming the front ----------

  lemma FrontUnit(t: string)
    requires t != [] && !Carries(First(t)) && First(t) != SEMICOLON
    ensures var x := t[NextLen(t)..];
      && Sense(Lex(x)) == Sense(Lex(t)) && (SEMICOLON !in Lex(t) ==> SEMICOLON !in Lex(x)) && (Ended(t) ==> Ended(x))
  {
    hide Carries, NextLen, FirstKind;
    OneUnit(t);
    assert Lex(t)[1..] == Lex(t[NextLen(t)..]);
  }

  lemma SpaceUnit(t: string)
    requires t != [] && IsBlank(t[0])
    ensures NextLen(t) == 1 && First(t) == Unit(Mark, [t[0]])
  {
    NextOf(t);
    if |t| >= 2 { assert t[..2][0] == t[0]; }
  }

  // What dropping leading whitespace and comments keeps.
  ghost predicate Keeps(t: string, x: string) {
    && Sense(Lex(x)) == Sense(Lex(t)) && (SEMICOLON !in Lex(t) ==> SEMICOLON !in Lex(x)) && (Ended(t) ==> Ended(x))
  }

  lemma {:induction false} LeadUnits(t: string)
    ensures Keeps(t, t[LeadLen(t)..]) && LeadLen(t[LeadLen(t)..]) == 0
  {
    hide NextLen, FirstKind, Lex, Sense, Ended, CommentLen;
    assert t[0..] == t;
    if t != [] && IsSpace(t[0]) {
      SpaceUnit(t);
      FrontUnit(t);
      LeadUnits(t[1..]);
      assert t[1..][LeadLen(t[1..])..] == t[LeadLen(t)..];
    } else if t != [] && CommentLen(t) > 0 {
      var n := CommentLen(t);
      NextOf(t);
      FrontUnit(t);
      LeadUnits(t[n..]);
      assert t[n..][LeadLen(t[n..])..] == t[LeadLen(t)..];
    }
  }

  lemma {:induction false} LTrimUnits(t: string)
    ensures Keeps(t, LTrim(t))
  {
    hide NextLen, FirstKind, Lex, Sense, Ended;
    if t != [] && IsBlank(t[0]) {
      SpaceUnit(t);
      FrontUnit(t);
      LTrimUnits(t[1..]);
    }
  }

  lemma LeadKeeps(t: string)
    ensures Keeps(t, Lead(t)) && (Lead(t) != [] ==> !IsBlank(Lead(t)[0]))
  {
    hide LeadLen, RTrim, LTrim, CutLen, Lex, Sense, Ended;
    var x := t[LeadLen(t)..];
    LeadUnits(t);
    LTrimUnits(x);
    TrimKeeps(LTrim(x));
  }

  // Whose only white space is space, tab, CR and LF.
  predicate Plain(t: string) { forall i :: 0 <= i < |t| ==> IsBlank(t[i]) ==> IsSpace(t[i]) }

  lemma LeadStarts(t: string)
    requires Plain(t)
    ensures Plain(Lead(t)) && LeadLen(Lead(t)) == 0
  {
    hide LeadLen, RTrim, LTrim, Lex, Sense, Ended;
    var n := LeadLen(t);
    LeadUnits(t);
    assert forall i :: 0 <= i < |t| - n ==> t[n..][i] == t[n + i];
    if t[n..] != [] { LeadNotSpace(t[n..]); }
    TrimPrefix(t[n..]);
    LeadPrefix(t[n..], Lead(t));
  }

  lemma LeadNotSpace(x: string)
    requires LeadLen(x) == 0 && x != []
    ensures !IsSpace(x[0])
  {
  }

  lemma TrimPrefix(x: string)
    requires x == [] || !IsBlank(x[0])
    ensures Trim(x) <= x
  {
  }

  lemma LeadPrefix(x: string, p: string)
    requires p <= x && LeadLen(x) == 0
    ensures LeadLen(p) == 0
  {
    if p != [] {
      assert p[0] == x[0];
      if |p| >= 2 { assert p[..2] == x[..2]; }
    }
  }

  // ---------- One statement ----------

  lemma RTrimStarts(x: string)
    requires x != [] && !IsBlank(x[0])
    ensures RTrim(x) != [] && RTrim(x)[0] == x[0] && Trim(x) == RTrim(x) && Trim(RTrim(x)) == RTrim(x)
  {
    if IsBlank(x[|x| - 1]) { RTrimStarts(x[..|x| - 1]); }
  }

  lemma CutKeeps(s: string)
    requires s != []
    ensures 0 < CutLen(s) <= |s|
    ensures var x, rest := s[..CutLen(s)], s[CutLen(s)..];
      && CutLen(x) == |x|
      && Sense(Lex(s)) == Sense(Lex(x)) + Sense(Lex(rest))
      && (SEMICOLON !in Lex(s) ==> SEMICOLON !in Lex(x) && SEMICOLON !in Lex(rest))
      && (CutLen(s) < |s| || Ended(s) ==> Ended(x)) && (Ended(s) ==> Ended(rest))
  {
    hide CutLen, Lex, Sense, Ended, Take;
    CutLenBounds(s);
    var j := CutIsWhole(s);
    LexTake(s, j);
    assert Lex(s) == Lex(s)[..j] + Lex(s)[j..];
    SenseAppend(Lex(s)[..j], Lex(s)[j..]);
    if CutLen(s) == |s| { assert s[..|s|] == s; }
  }

  lemma PieceKeeps(s: string)
    requires s != [] && !IsBlank(s[0])
    ensures 0 < CutLen(s) <= |s|
    ensures var p, rest := Trim(s[..CutLen(s)]), s[CutLen(s)..];
      && p != [] && p <= s && Trim(p) == p && CutLen(p) == |p|
      && Sense(Lex(s)) == Sense(Lex(p)) + Sense(Lex(rest))
      && (SEMICOLON !in Lex(s) ==> SEMICOLON !in Lex(p) && SEMICOLON !in Lex(rest))
      && (CutLen(s) < |s| || Ended(s) ==> Ended(p)) && (Ended(s) ==> Ended(rest))
  {
    hide CutLen, RTrim, LTrim, Lex, Sense, Ended;
    CutKeeps(s);
    var x := s[..CutLen(s)];
    assert x[0] == s[0] && x <= s;
    RTrimStarts(x);
    TrimKeeps(x);
  }

  // ---------- Nothing is cut, lost or moved ----------

  function AllSense(ps: seq<string>): seq<Unit> {
    if ps == [] then [] else Sense(Lex(ps[0])) + AllSense(ps[1..])
  }

  lemma {:induction false} AllSenseAppend(ps: seq<string>, qs: seq<string>)
    ensures AllSense(ps + qs) == AllSense(ps) + AllSense(qs)
  {
    hide Sense, Lex;
    if ps == [] {
      assert ps + qs == qs;
    } else {
      assert (ps + qs)[1..] == ps[1..] + qs;
      AllSenseAppend(ps[1..], qs);
    }
  }

  lemma {:induction false} PiecesKeepSense(t: string)
    ensures AllSense(Pieces(t)) == Sense(Lex(t))
    decreases |t|
  {
    hide CutLen, Trim, Lead, Lex, Sense;
    var s := Lead(t);
    LeadKeeps(t);
    if s == [] {
      EmptySense();
    } else {
      PieceKeeps(s);
      PiecesKeepSense(s[CutLen(s)..]);
      PiecesUnfold(t);
    }
  }

  lemma EmptySense()
    ensures Sense(Lex([])) == [] && AllSense([]) == [] && Lex([]) == []
  {
  }

  lemma PiecesUnfold(t: string)
    requires Lead(t) != [] && CutLen(Lead(t)) <= |Lead(t)|
    ensures var s := Lead(t);
      Pieces(t) == [Trim(s[..CutLen(s)])] + Pieces(s[CutLen(s)..]) &&
      AllSense(Pieces(t)) == Sense(Lex(Trim(s[..CutLen(s)]))) + AllSense(Pieces(s[CutLen(s)..]))
  {
    hide CutLen, Trim, Lead, Lex, Sense;
    var s := Lead(t);
    assert Pieces(t)[1..] == Pieces(s[CutLen(s)..]);
  }

  // The first ';' outside strings, [names] and comments is a unit of its own.
  lemma {:induction false} ChunkUnit(t: string) returns (j: nat)
    ensures j <= |Lex(t)| && ChunkLen(t) == |Take(t, j)|
    ensures SEMICOLON !in Lex(t)[..j]
    ensures j < |Lex(t)| ==> Lex(t)[j] == SEMICOLON && ChunkLen(t) < |t| && ChunkLen(t) + 1 == |Take(t, j + 1)|
    ensures j == |Lex(t)| ==> ChunkLen(t) == |t|
  {
    if t == [] {
      j := 0;
    } else if t[0] == ';' {
      j := 0;
      SemicolonUnit(t);
      OneUnit(t);
      assert Lex(t)[..1] == [SEMICOLON];
      ConcatOne(SEMICOLON);
    } else {
      hide NextLen, FirstKind;
      NotSemicolonUnit(t);
      OneUnit(t);
      j := ChunkUnit(t[NextLen(t)..]);
      TakeStep(t, j + 1);
      if j < |Lex(t[NextLen(t)..])| { TakeStep(t, j + 2); }
      j := j + 1;
    }
  }

  lemma ConcatOne(u: Unit)
    ensures Concat([u]) == u.text
  {
    assert [u][1..] == [];
    assert u.text + [] == u.text;
  }

  lemma SemicolonUnit(t: string)
    requires t != [] && t[0] == ';'
    ensures First(t) == SEMICOLON
  {
    NextOf(t);
    if |t| >= 2 { assert t[..2][0] == t[0]; }
  }

  lemma NotSemicolonUnit(t: string)
    requires t != [] && t[0] != ';'
    ensures First(t) != SEMICOLON && ChunkLen(t) == NextLen(t) + ChunkLen(t[NextLen(t)..])
  {
    hide NextLen, FirstKind, ChunkLen;
    assert First(t).text[0] == t[0];
    ChunkUnfold(t);
  }

  lemma ChunkUnfold(t: string)
    requires t != [] && t[0] != ';'
    ensures ChunkLen(t) == NextLen(t) + ChunkLen(t[NextLen(t)..])
  {
  }

  lemma TakeStep(t: string, k: nat)
    requires t != [] && 0 < k <= |Lex(t)|
    ensures Lex(t)[1..] == Lex(t[NextLen(t)..]) && Lex(t)[..k] == [First(t)] + Lex(t[NextLen(t)..])[..k - 1]
    ensures Take(t, k) == t[..NextLen(t)] + Take(t[NextLen(t)..], k - 1)
  {
    hide NextLen, FirstKind;
    assert Lex(t)[1..] == Lex(t[NextLen(t)..]);
    assert Lex(t)[..k][1..] == Lex(t)[1..][..k - 1];
  }

  // A chunk and what follows its ';'.
  lemma ChunkKeeps(sql: string)
    ensures var n := ChunkLen(sql);
      && SEMICOLON !in Lex(sql[..n]) && (n < |sql| ==> Ended(sql[..n]))
      && Sense(Lex(sql)) == Sense(Lex(sql[..n])) + (if n < |sql| then Sense(Lex(sql[n + 1..])) else [])
  {
    hide ChunkLen, Lex, Sense, Ended, Take;
    var j := ChunkUnit(sql);
    var us := Lex(sql);
    LexTake(sql, j);
    if j < |us| {
      LexTake(sql, j + 1);
      SenseAround(us, j);
    } else {
      assert us[..j] == us && sql[..|sql|] == sql;
    }
  }

  lemma SenseAround(us: seq<Unit>, j: nat)
    requires j < |us| && us[j] == SEMICOLON
    ensures Sense(us) == Sense(us[..j]) + Sense(us[j + 1..])
  {
    hide Sense;
    assert us == us[..j] + ([SEMICOLON] + us[j + 1..]);
    SenseAppend(us[..j], [SEMICOLON] + us[j + 1..]);
    SenseAppend([SEMICOLON], us[j + 1..]);
    SenseOne(SEMICOLON);
  }

  // No string, [name], word or operator of the batch is cut, lost or moved: reading the statements one
  // after the other gives what reading the batch gives, comments, blanks and ';' apart.
  lemma {:induction false} SplitKeepsSense(sql: string)
    ensures AllSense(SplitText(sql)) == Sense(Lex(sql))
    decreases |sql|
  {
    hide ChunkLen, Pieces, Lex, Sense, SplitText, AllSense;
    var n := ChunkLen(sql);
    ChunkKeeps(sql);
    PiecesKeepSense(sql[..n]);
    SplitStep(sql, n);
    if n < |sql| { SplitKeepsSense(sql[n + 1..]); } else { EmptySense(); }
    AllSenseAppend(Pieces(sql[..n]), if n < |sql| then SplitText(sql[n + 1..]) else []);
  }

  // ---------- Statements split again ----------

  // A text without blanks around it that neither a ';' nor a next statement cuts.
  ghost predicate Settled(p: string) {
    p != [] && Trim(p) == p && CutLen(p) == |p| && SEMICOLON !in Lex(p)
  }

  // All settled, and all but perhaps the last complete.
  ghost predicate InOrder(ps: seq<string>, complete: bool) {
    && (forall i :: 0 <= i < |ps| && (complete || i < |ps| - 1) ==> Ended(ps[i]))
    && forall i :: 0 <= i < |ps| ==> Settled(ps[i])
  }

  lemma InOrderCons(p: string, ps: seq<string>, complete: bool)
    requires Settled(p) && (ps != [] || complete ==> Ended(p)) && InOrder(ps, complete)
    ensures InOrder([p] + ps, complete)
  {
    hide Settled, Ended;
  }

  lemma InOrderAppend(ps: seq<string>, qs: seq<string>, complete: bool)
    requires InOrder(ps, true) && InOrder(qs, complete)
    ensures InOrder(ps + qs, complete)
  {
    hide Settled, Ended;
  }

  lemma {:induction false} PiecesInOrder(t: string)
    requires SEMICOLON !in Lex(t)
    ensures InOrder(Pieces(t), Ended(t))
    decreases |t|
  {
    hide CutLen, Trim, Lead, LeadLen, Lex, Sense, Ended, InOrder;
    var s := Lead(t);
    LeadKeeps(t);
    if s == [] {
      NothingInOrder(Ended(t));
    } else {
      PieceKeeps(s);
      var e := CutLen(s);
      var p, rest := Trim(s[..e]), s[e..];
      PiecesInOrder(rest);
      PiecesUnfold(t);
      if e == |s| { NoPieces(rest); }
      InOrderWeaken(Pieces(rest), Ended(rest), Ended(t));
      InOrderCons(p, Pieces(rest), Ended(t));
    }
  }

  lemma NoPieces(t: string)
    requires t == []
    ensures Pieces(t) == []
  {
  }

  lemma NothingInOrder(complete: bool)
    ensures InOrder([], complete)
  {
  }

  lemma InOrderWeaken(ps: seq<string>, more: bool, less: bool)
    requires InOrder(ps, more) && (less ==> more)
    ensures InOrder(ps, less)
  {
    hide Settled, Ended;
  }

  lemma {:induction false} SplitInOrder(sql: string)
    ensures InOrder(SplitText(sql), false)
    decreases |sql|
  {
    hide ChunkLen, Pieces, Lex, Sense, SplitText, Ended, InOrder;
    var n := ChunkLen(sql);
    ChunkKeeps(sql);
    PiecesInOrder(sql[..n]);
    SplitStep(sql, n);
    if n < |sql| {
      SplitInOrder(sql[n + 1..]);
      InOrderAppend(Pieces(sql[..n]), SplitText(sql[n + 1..]), false);
    } else {
      InOrderWeaken(Pieces(sql[..n]), Ended(sql[..n]), false);
      assert Pieces(sql[..n]) + [] == Pieces(sql[..n]);
    }
  }

  // strings.Join(out, "\n;\n").
  function Join(ps: seq<string>): string {
    if ps == [] then "" else if |ps| == 1 then ps[0] else ps[0] + "\n;\n" + Join(ps[1..])
  }

  // A settled text between newlines is cut into itself, unless it opens with a comment.
  lemma OnePiece(lead: string, p: string, tail: string)
    requires Settled(p) && LeadLen(p) == 0 && lead in {"", "\n"} && tail in {"", "\n"}
    ensures Pieces(lead + p + tail) == [p]
  {
    hide CutLen, LeadLen, Lex, Lead, Pieces, Trim;
    var t := lead + p + tail;
    OneLead(lead, p, tail);
    PiecesUnfold(t);
    assert p[..|p|] == p && p[|p|..] == [];
    NoPieces(p[|p|..]);
  }

  lemma OneLead(lead: string, p: string, tail: string)
    requires p != [] && LeadLen(p) == 0 && Trim(p) == p && lead in {"", "\n"} && tail in {"", "\n"}
    ensures Lead(lead + p + tail) == p
  {
    hide LeadLen, RTrim, LTrim, Trim;
    var u := p + tail;
    FrontStays(p, tail);
    LeadSkips(lead, u);
    assert lead + p + tail == lead + u && (lead + u)[|lead|..] == u;
    TrimmedEnds(p);
    RTrimStarts(p);
    assert u != [] && u[0] == p[0];
    RTrimStarts(u);
    if tail == "\n" { RTrimMore(p, '\n'); } else { assert u == p; }
  }

  lemma LeadSkips(lead: string, x: string)
    requires lead in {"", "\n"}
    ensures LeadLen(lead + x) == |lead| + LeadLen(x)
  {
    hide CommentLen;
    if lead == "\n" { assert (lead + x)[1..] == x; } else { assert lead + x == x; }
  }

  lemma TrimmedEnds(p: string)
    requires p != [] && Trim(p) == p
    ensures !IsBlank(p[0])
  {
  }

  lemma FrontStays(p: string, tail: string)
    requires p != [] && LeadLen(p) == 0 && tail in {"", "\n"}
    ensures LeadLen(p + tail) == 0
  {
    if |p| >= 2 { assert (p + tail)[..2] == p[..2]; }
    else if tail == "\n" { assert (p + tail)[..2] == [p[0], '\n']; }
    else { assert p + tail == p; }
  }

  // No ';' of its own in front of the separator.
  lemma {:induction false} ChunkBefore(p: string, y: string)
    requires Ended(p) && SEMICOLON !in Lex(p)
    ensures ChunkLen(p + "\n;" + y) == |p| + 1
  {
    hide NextLen, FirstKind, Lex;
    var z := "\n;" + y;
    assert p + "\n;" + y == p + z && z[1..] == ";" + y;
    SpaceUnit(z);
    ChunkUnfold(z);
    assert ChunkLen(";" + y) == 0;
    if p == [] {
      assert p + z == z;
    } else {
      hide ChunkLen;
      var n := NextLen(p);
      OneUnit(p);
      if p[0] == ';' { SemicolonUnit(p); }
      if n < |p| {
        NextStable(p, z);
        assert (p + z)[n..] == p[n..] + z == p[n..] + "\n;" + y;
        assert Lex(p)[1..] == Lex(p[n..]);
        ChunkBefore(p[n..], y);
      } else {
        NextStable(p + "\n", ";" + y);
        assert p + "\n" + (";" + y) == p + z;
        assert (p + z)[n..] == z;
      }
      ChunkUnfold(p + z);
    }
  }

  lemma {:induction false} ChunkWhole(p: string)
    requires SEMICOLON !in Lex(p)
    ensures ChunkLen(p) == |p|
  {
    hide ChunkLen, Take;
    var j := ChunkUnit(p);
  }

  lemma ChunkLeads(lead: string, t: string)
    requires lead in {"", "\n"}
    ensures ChunkLen(lead + t) == |lead| + ChunkLen(t)
  {
    if lead == "\n" {
      SpaceUnit(lead + t);
      assert (lead + t)[1..] == t;
    } else {
      assert lead + t == t;
    }
  }

  // No statement opens with a comment.
  ghost predicate Bare(ps: seq<string>) { forall i :: 0 <= i < |ps| ==> LeadLen(ps[i]) == 0 }

  lemma JoinStep(lead: string, ps: seq<string>)
    requires |ps| > 1
    ensures lead + Join(ps) == lead + (ps[0] + "\n;" + ("\n" + Join(ps[1..])))
  {
    var rest := Join(ps[1..]);
    hide Join;
    assert Join(ps) == ps[0] + "\n;\n" + rest by { JoinUnfold(ps); }
  }

  lemma JoinUnfold(ps: seq<string>)
    requires |ps| > 1
    ensures Join(ps) == ps[0] + "\n;\n" + Join(ps[1..])
  {
  }

  lemma BareStep(ps: seq<string>)
    requires ps != []
    ensures Bare(ps) <==> LeadLen(ps[0]) == 0 && Bare(ps[1..])
  {
    hide LeadLen;
    assert forall i :: 1 <= i < |ps| ==> ps[i] == ps[1..][i - 1];
  }

  lemma {:induction false} JoinedSplits(lead: string, ps: seq<string>)
    requires InOrder(ps, false) && Bare(ps) && lead in {"", "\n"}
    ensures SplitText(lead + Join(ps)) == ps
    decreases |ps|
  {
    hide SplitText, Ended, Settled, Pieces, LeadLen;
    if ps == [] {
      NoStatements(lead);
      assert lead + Join([]) == lead;
    } else {
      assert Settled(ps[0]);
      BareStep(ps);
      if |ps| == 1 {
        OneStatement(lead, ps[0]);
      } else {
        InOrderTail(ps);
        JoinStep(lead, ps);
        hide Join, InOrder, Bare;
        JoinedSplits("\n", ps[1..]);
        FirstStatement(lead, ps[0], "\n" + Join(ps[1..]));
        OnePiece(lead, ps[0], "\n");
      }
    }
  }

  lemma OneStatement(lead: string, p: string)
    requires Settled(p) && LeadLen(p) == 0 && lead in {"", "\n"}
    ensures SplitText(lead + p) == [p]
  {
    hide ChunkLen, Pieces, SplitText, Settled;
    var t := lead + p;
    assert t == lead + p + "" && t[..|t|] == t;
    ChunkOf(lead, p);
    OnePiece(lead, p, "");
    SplitStep(t, |t|);
  }

  lemma FirstStatement(lead: string, p: string, rest: string)
    requires Ended(p) && SEMICOLON !in Lex(p) && lead in {"", "\n"}
    ensures SplitText(lead + (p + "\n;" + rest)) == Pieces(lead + p + "\n") + SplitText(rest)
  {
    hide ChunkLen, Pieces, SplitText, Settled, Ended, Lex;
    var t, n := lead + (p + "\n;" + rest), |lead| + |p| + 1;
    ChunkBefore(p, rest);
    ChunkLeads(lead, p + "\n;" + rest);
    assert t[..n] == lead + p + "\n" && t[n + 1..] == rest;
    SplitStep(t, n);
  }

  lemma ChunkOf(lead: string, p: string)
    requires Settled(p) && lead in {"", "\n"}
    ensures ChunkLen(lead + p) == |lead + p|
  {
    hide ChunkLen, CutLen, Trim, LeadLen, Lex;
    ChunkWhole(p);
    ChunkLeads(lead, p);
  }

  lemma InOrderTail(ps: seq<string>)
    requires |ps| > 1 && InOrder(ps, false)
    ensures InOrder(ps[1..], false) && Ended(ps[0]) && SEMICOLON !in Lex(ps[0])
  {
    hide Ended, Lex, CutLen, LeadLen;
    assert Settled(ps[0]);
  }

  lemma NoStatements(lead: string)
    requires lead in {"", "\n"}
    ensures SplitText(lead) == []
  {
    hide ChunkLen, Pieces, SplitText, LeadLen;
    ChunkLeads(lead, "");
    ChunkEnds("");
    LeadSkips(lead, "");
    assert lead + "" == lead && lead[..|lead|] == lead && lead[|lead|..] == "";
    assert LeadLen("") == 0 by { EmptyLead(); }
    EmptyPieces(lead);
    SplitStep(lead, |lead|);
  }

  lemma EmptyLead()
    ensures LeadLen("") == 0 && Trim("") == ""
  {
  }

  lemma EmptyPieces(t: string)
    requires t[LeadLen(t)..] == ""
    ensures Pieces(t) == []
  {
    hide LeadLen;
    EmptyLead();
  }

  // ---------- When it does not ----------

  function Total(ps: seq<string>): nat { if ps == [] then 0 else |ps[0]| + Total(ps[1..]) }

  lemma {:induction false} TotalAppend(ps: seq<string>, qs: seq<string>)
    ensures Total(ps + qs) == Total(ps) + Total(qs)
  {
    if ps == [] {
      assert ps + qs == qs;
    } else {
      assert (ps + qs)[1..] == ps[1..] + qs;
      TotalAppend(ps[1..], qs);
    }
  }

  lemma {:induction false} PiecesTotal(t: string)
    ensures Total(Pieces(t)) <= |Lead(t)|
    decreases |t|
  {
    hide CutLen, Trim, Lead;
    var s := Lead(t);
    if s != [] {
      CutLenBounds(s);
      var e := CutLen(s);
      TrimShortens(s[..e]);
      PiecesTotal(s[e..]);
      PiecesUnfold(t);
      TotalAppend([Trim(s[..e])], Pieces(s[e..]));
      TotalOne(Trim(s[..e]));
    }
  }

  lemma TotalOne(p: string)
    ensures Total([p]) == |p|
  {
    assert [p][1..] == [];
  }

  lemma TrimShortens(t: string)
    ensures |Trim(t)| <= |t|
  {
  }

  // A statement that opens with a comment loses it.
  lemma CommentShortens(lead: string, p: string, tail: string)
    requires p != [] && Trim(p) == p && LeadLen(p) > 0 && lead in {"", "\n"} && tail in {"", "\n"}
    ensures |Lead(lead + p + tail)| < |p|
  {
    hide Trim, LeadLen, Lead;
    TrimmedEnds(p);
    LeadSkips(lead, p + tail);
    OpensComment(p, tail);
    assert lead + p + tail == lead + (p + tail);
    LeadShortens(lead + p + tail);
  }

  lemma LeadShortens(t: string)
    ensures |Lead(t)| <= |t| - LeadLen(t)
  {
    hide Trim, LeadLen;
    TrimShortens(t[LeadLen(t)..]);
  }

  lemma OpensComment(p: string, tail: string)
    requires p != [] && !IsBlank(p[0]) && LeadLen(p) > 0
    ensures LeadLen(p + tail) >= 2
  {
    assert CommentLen(p) > 0 && |p| >= 2;
    assert (p + tail)[..2] == p[..2];
    if p[..2] == "--" {
      assert LineLen(p + tail) == 1 + LineLen((p + tail)[1..]) && LineLen((p + tail)[1..]) >= 1;
    }
  }

  lemma PieceTotal(lead: string, p: string, tail: string)
    requires Settled(p) && lead in {"", "\n"} && tail in {"", "\n"}
    ensures Total(Pieces(lead + p + tail)) <= |p|
    ensures LeadLen(p) > 0 ==> Total(Pieces(lead + p + tail)) < |p|
  {
    hide LeadLen, Pieces, CutLen, Lex, Lead, Trim;
    if LeadLen(p) == 0 {
      OnePiece(lead, p, tail);
      TotalOne(p);
    } else {
      CommentShortens(lead, p, tail);
      PiecesTotal(lead + p + tail);
    }
  }

  // Splitting again never gains a character, and loses some where a statement opens with a comment.
  lemma {:induction false} TotalShrinks(lead: string, ps: seq<string>)
    requires InOrder(ps, false) && lead in {"", "\n"}
    ensures Total(SplitText(lead + Join(ps))) <= Total(ps)
    ensures !Bare(ps) ==> Total(SplitText(lead + Join(ps))) < Total(ps)
    decreases |ps|
  {
    hide SplitText, Ended, Settled, Pieces, LeadLen;
    if ps == [] {
      NoStatements(lead);
      assert lead + Join([]) == lead;
    } else {
      var p := ps[0];
      assert Settled(p);
      BareStep(ps);
      if |ps| == 1 {
        PieceTotal(lead, p, "");
        LastStatement(lead, p);
        TotalOne(p);
        assert ps == [p];
      } else {
        InOrderTail(ps);
        JoinStep(lead, ps);
        hide Join, InOrder, Bare;
        TotalShrinks("\n", ps[1..]);
        TotalStep(lead, p, Join(ps[1..]));
      }
    }
  }

  lemma TotalStep(lead: string, p: string, more: string)
    requires Settled(p) && Ended(p) && lead in {"", "\n"}
    ensures var all, rest := SplitText(lead + (p + "\n;" + ("\n" + more))), SplitText("\n" + more);
      Total(all) <= |p| + Total(rest) && (LeadLen(p) > 0 ==> Total(all) < |p| + Total(rest))
  {
    hide SplitText, Ended, Pieces, LeadLen, CutLen, Trim, Lex;
    FirstStatement(lead, p, "\n" + more);
    PieceTotal(lead, p, "\n");
    TotalAppend(Pieces(lead + p + "\n"), SplitText("\n" + more));
  }

  lemma LastStatement(lead: string, p: string)
    requires Settled(p) && lead in {"", "\n"}
    ensures SplitText(lead + p) == Pieces(lead + p + "")
  {
    hide ChunkLen, Pieces, SplitText, Settled;
    var t := lead + p;
    assert t == lead + p + "" && t[..|t|] == t;
    ChunkOf(lead, p);
    SplitStep(t, |t|);
    assert Pieces(t) + [] == Pieces(t);
  }

  // The statements of a batch, joined as Resolve joins them, split into the same statements again exactly when
  // none of them opens with a comment.
  lemma SplitJoinExactly(sql: string)
    ensures SplitText(Join(SplitText(sql))) == SplitText(sql) <==> Bare(SplitText(sql))
  {
    hide SplitText, InOrder, Bare;
    var ps := SplitText(sql);
    SplitInOrder(sql);
    assert "" + Join(ps) == Join(ps);
    if Bare(ps) { JoinedSplits("", ps); } else { TotalShrinks("", ps); }
  }

  // And none does where the only whitespace is space, tab, carriage return and newline.
  lemma SplitJoin(sql: string)
    requires Plain(sql)
    ensures SplitText(Join(SplitText(sql))) == SplitText(sql)
  {
    hide SplitText, Bare;
    SplitJoinExactly(sql);
    SplitIsBare(sql);
  }

  lemma PlainSlice(t: string, a: nat, b: nat)
    requires Plain(t) && a <= b <= |t|
    ensures Plain(t[a..b]) && t[a..|t|] == t[a..]
  {
    forall i | 0 <= i < b - a ensures t[a..b][i] == t[a + i] {}
  }

  lemma {:induction false} PiecesAreBare(t: string)
    requires Plain(t)
    ensures Bare(Pieces(t))
    decreases |t|
  {
    hide CutLen, Trim, Lead, LeadLen, Lex, Sense, Ended, Plain;
    var s := Lead(t);
    LeadKeeps(t);
    LeadStarts(t);
    if s != [] {
      PieceKeeps(s);
      var e := CutLen(s);
      LeadPrefix(s, Trim(s[..e]));
      PlainSlice(s, e, |s|);
      PiecesAreBare(s[e..]);
      PiecesUnfold(t);
    }
  }

  lemma {:induction false} SplitIsBare(sql: string)
    requires Plain(sql)
    ensures Bare(SplitText(sql))
    decreases |sql|
  {
    hide ChunkLen, Pieces, SplitText, LeadLen, Plain;
    var n := ChunkLen(sql);
    PlainSlice(sql, 0, n);
    assert sql[0..n] == sql[..n];
    PiecesAreBare(sql[..n]);
    ChunkKeeps(sql);
    SplitStep(sql, n);
    if n < |sql| {
      PlainSlice(sql, n + 1, |sql|);
      SplitIsBare(sql[n + 1..]);
    }
  }

  // With any other white space in front the law fails: TrimSpace drops it after the comments were looked for.
  lemma WideSpaceHidesComment(b: char)
    requires IsWide(b)
    ensures SplitText([b] + "-- c") == ["-- c"]
    ensures SplitText(Join(["-- c"])) == []
  {
    hide ChunkLen, Pieces, Lex, SplitText, LeadLen, CutLen, IsWide;
    var c, t := "-- c", [b] + "-- c";
    WideIsMark(b);
    CommentAlone();
    SpaceUnit(t);
    assert t[1..] == c && c[..4] == c && t[..5] == t && c[4..] == [];
    ChunkUnfold(t);
    ChunkUnfold(c);
    NoPieces([]);
    ChunkEnds([]);
    SplitStep(t, 5);
    SplitStep(c, 4);
    WidePiece(b);
    CommentPiece();
  }

  lemma WideIsMark(b: char)
    requires IsWide(b)
    ensures IsBlank(b) && !IsSpace(b) && !IsWordByte(b) && b != ';' && b != '\'' && b != '[' && b != '-' && b != '/'
  {
  }

  lemma CommentAlone()
    ensures CommentLen("-- c") == 4 && NextLen("-- c") == 4 && Lex("-- c") == [Unit(Comment, "-- c")]
  {
    var c := "-- c";
    assert c[..2] == "--" && c[1..] == "- c" && c[1..][1..] == " c" && c[1..][1..][1..] == "c" &&
      c[1..][1..][1..][1..] == "";
    assert LineLen("c") == 1 + LineLen("") && LineLen(" c") == 2 && LineLen("- c") == 3 && LineLen(c) == 4;
    OneUnit(c);
  }

  lemma CommentPiece()
    ensures Pieces("-- c") == []
  {
    hide Pieces;
    CommentAlone();
    var c := "-- c";
    assert c[4..] == "" && LeadLen(c) == 4 + LeadLen(c[4..]);
    EmptyPieces(c);
  }

  lemma WidePiece(b: char)
    requires IsWide(b)
    ensures Pieces([b] + "-- c") == ["-- c"]
  {
    hide Pieces, CutLen, Lead, Lex, Trim;
    var c, t := "-- c", [b] + "-- c";
    WideIsMark(b);
    SolidLead(b, c);
    CommentIsWhole();
    PiecesUnfold(t);
    assert c[..4] == c && c[4..] == [];
    NoPieces(c[4..]);
  }

  // A blank that is no whitespace to the scanner goes when the rest is trimmed.
  lemma SolidLead(b: char, c: string)
    requires IsBlank(b) && !IsSpace(b) && c != [] && !IsBlank(c[0]) && !IsBlank(c[|c| - 1])
    ensures Lead([b] + c) == c && Trim(c) == c
  {
    hide LeadLen, RTrim, LTrim;
    var t := [b] + c;
    NoLead(t);
    assert t[0..] == t && t[1..] == c;
    TrimOnce(t);
    TrimOnce(c);
    RTrimStarts(c);
  }

  lemma NoLead(t: string)
    requires t != [] && IsBlank(t[0]) && !IsSpace(t[0])
    ensures LeadLen(t) == 0
  {
    if |t| >= 2 { assert t[..2][0] == t[0]; }
  }

  lemma TrimOnce(t: string)
    requires t != []
    ensures IsBlank(t[0]) ==> LTrim(t) == LTrim(t[1..])
    ensures !IsBlank(t[0]) ==> LTrim(t) == t
    ensures !IsBlank(t[|t| - 1]) ==> RTrim(t) == t
  {
  }

  lemma CommentIsWhole()
    ensures CutLen("-- c") == 4
  {
    CommentAlone();
    var us := [Unit(Comment, "-- c")];
    WordsUnfold(us, 0, 0);
    assert us[1..] == [];
  }
}
