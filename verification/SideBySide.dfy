// Two statements side by side in a batch, without a separator, are two statements.
module SideBySide {
  import opened Option
  import opened Lexing
  import opened Statements
  import opened Splitter
  import opened SplitLaws
  import opened Rejoin
  import opened Boundaries

  // ---------- A text behind a complete one ----------

  // The white space c behind p stands outside p's strings, names and comments.
  ghost predicate Closed(p: string, c: char) { IsSpace(c) && Lex(p + [c]) == Lex(p) + [Unit(Mark, [c])] }

  lemma LexCons(t: string)
    requires t != []
    ensures Lex(t) == [First(t)] + Lex(t[NextLen(t)..])
  {
  }

  // The first unit of a closed text, alone and with more behind it.
  lemma ClosedFirst(p: string, c: char, y: string)
    requires p != [] && Closed(p, c)
    ensures var n := NextLen(p);
      && First(p + [c] + y) == First(p) && NextLen(p + [c] + y) == n && (p + [c] + y)[n..] == p[n..] + [c] + y
      && Closed(p[n..], c)
  {
    hide NextLen, FirstKind;
    var n, t := NextLen(p), p + [c];
    LexCons(p);
    LexCons(t);
    assert Lex(t)[0] == Lex(p)[0];
    assert |First(t).text| == NextLen(t) && |First(p).text| == n;
    NextStable(t, y);
    assert t[n..] == p[n..] + [c] && (t + y)[n..] == t[n..] + y && (t + y)[..n] == t[..n];
    assert Lex(t)[1..] == Lex(t[n..]) && Lex(p)[1..] == Lex(p[n..]);
    assert (Lex(p) + [Unit(Mark, [c])])[1..] == Lex(p)[1..] + [Unit(Mark, [c])];
  }

  lemma {:induction false} LexBehind(p: string, c: char, y: string)
    requires Closed(p, c)
    ensures Lex(p + [c] + y) == Lex(p) + [Unit(Mark, [c])] + Lex(y)
    decreases |p|
  {
    hide NextLen, FirstKind, Closed;
    var t := p + [c] + y;
    if p == [] {
      assert IsSpace(c) by { ClosedSpace(p, c); }
      assert t == [c] + y && t[1..] == y;
      SpaceUnit(t);
      LexCons(t);
    } else {
      ClosedFirst(p, c, y);
      LexBehind(p[NextLen(p)..], c, y);
      LexCons(t);
      LexCons(p);
    }
  }

  lemma ClosedSpace(p: string, c: char)
    requires Closed(p, c)
    ensures IsSpace(c)
  {
  }

  lemma {:induction false} ChunkBehind(p: string, c: char, y: string)
    requires Closed(p, c) && SEMICOLON !in Lex(p)
    ensures ChunkLen(p + [c] + y) == |p| + 1 + ChunkLen(y)
    decreases |p|
  {
    hide NextLen, FirstKind, Closed, Lex;
    var t := p + [c] + y;
    if p == [] {
      assert IsSpace(c) by { ClosedSpace(p, c); }
      assert t == [c] + y && t[1..] == y;
      SpaceUnit(t);
      ChunkUnfold(t);
    } else {
      var n := NextLen(p);
      ClosedFirst(p, c, y);
      LexCons(p);
      assert First(p) in Lex(p) && forall u :: u in Lex(p[n..]) ==> u in Lex(p);
      ChunkBehind(p[n..], c, y);
      NoSemicolon(t);
      NotSemicolonUnit(t);
    }
  }

  lemma NoSemicolon(t: string)
    requires t != [] && First(t) != SEMICOLON
    ensures t[0] != ';'
  {
    if t[0] == ';' { SemicolonUnit(t); }
  }

  // ---------- Its words ----------

  // How many parentheses are still open at the end; one that closes nothing does not count.
  function EndDepth(us: seq<Unit>, depth: nat): nat {
    if us == [] then depth
    else if us[0] == Unit(Mark, "(") then EndDepth(us[1..], depth + 1)
    else if us[0] == Unit(Mark, ")") then EndDepth(us[1..], if depth == 0 then 0 else depth - 1)
    else EndDepth(us[1..], depth)
  }

  lemma {:induction false} ParenBehind(us: seq<Unit>, c: char, vs: seq<Unit>)
    requires IsBlank(c) && vs != [] && IsWordUnit(vs[0])
    ensures ParenNext(us + [Unit(Mark, [c])] + vs) == ParenNext(us)
  {
    var all := us + [Unit(Mark, [c])] + vs;
    if us == [] {
      assert all[0] == Unit(Mark, [c]) && all[1..] == vs;
      assert [c] != "(" by { assert IsBlank([c][0]); }
    } else {
      assert all[0] == us[0] && all[1..] == us[1..] + [Unit(Mark, [c])] + vs;
      ParenBehind(us[1..], c, vs);
    }
  }

  lemma {:induction false} WordsBehind(us: seq<Unit>, c: char, vs: seq<Unit>, at: nat, depth: nat)
    requires IsBlank(c) && vs != [] && IsWordUnit(vs[0])
    ensures WordsOf(us + [Unit(Mark, [c])] + vs, at, depth) ==
      WordsOf(us, at, depth) + WordsOf(vs, at + |Concat(us)| + 1, EndDepth(us, depth))
    decreases us
  {
    hide IsBlank, WordsOf, ParenNext, IsWordUnit;
    var all := us + [Unit(Mark, [c])] + vs;
    if us == [] {
      assert all[0] == Unit(Mark, [c]) && all[1..] == vs;
      MarkAlone(c, depth);
      NoWords(at, depth);
      WordsUnfold(all, at, depth);
    } else {
      var u, rest := us[0], us[1..];
      assert all[0] == u && all[1..] == rest + [Unit(Mark, [c])] + vs;
      ParenBehind(rest, c, vs);
      WordsUnfold(all, at, depth);
      WordsUnfold(us, at, depth);
      WordsBehind(rest, c, vs, at + |u.text|, Deeper(depth, u));
      assert at + |Concat(us)| == at + |u.text| + |Concat(rest)|;
      assert EndDepth(us, depth) == EndDepth(rest, Deeper(depth, u));
      hide Concat, EndDepth, Deeper;
    }
  }

  lemma MarkAlone(c: char, depth: nat)
    requires IsBlank(c)
    ensures !IsWordUnit(Unit(Mark, [c])) && Deeper(depth, Unit(Mark, [c])) == depth
  {
    assert "("[0] == '(' && ")"[0] == ')';
  }

  // Words standing elsewhere are the same words.
  lemma {:induction false} WordsMoved(us: seq<Unit>, a: nat, b: nat, depth: nat, i: nat)
    requires i < |WordsOf(us, a, depth)|
    ensures |WordsOf(us, a, depth)| == |WordsOf(us, b, depth)|
    ensures var x, y := WordsOf(us, a, depth)[i], WordsOf(us, b, depth)[i];
      x.text == y.text && x.depth == y.depth && x.parenAfter == y.parenAfter
  {
    WordsUnfold(us, a, depth);
    WordsUnfold(us, b, depth);
    var n := if IsWordUnit(us[0]) then 1 else 0;
    var x, y := a + |us[0].text|, b + |us[0].text|;
    if i >= n {
      WordsMoved(us[1..], x, y, Deeper(depth, us[0]), i - n);
    } else {
      SameCount(us[1..], x, y, Deeper(depth, us[0]));
    }
  }

  lemma {:induction false} SameCount(us: seq<Unit>, a: nat, b: nat, depth: nat)
    ensures |WordsOf(us, a, depth)| == |WordsOf(us, b, depth)|
  {
    if us != [] { SameCount(us[1..], a + |us[0].text|, b + |us[0].text|, Deeper(depth, us[0])); }
  }

  // ---------- Statements ----------

  // One statement, with the white space c behind it: it has words, no comment in front and its parentheses closed.
  ghost predicate IsStatement(p: string, c: char) {
    SplitText(p) == [p] && WordsIn(p) != [] && LeadLen(p) == 0 && EndDepth(Lex(p), 0) == 0 && Closed(p, c)
  }

  // q up to its first separator.
  function Chunk(q: string): string { q[..ChunkLen(q)] }

  function Head(q: string): string { RTrim(Chunk(q)) }

  // The keyword or identifier that opens y.
  ghost function FirstWord(y: string): string { if y != [] && First(y).kind == Word then First(y).text else [] }

  // y opens with a keyword that opens statements.
  ghost predicate Begins(y: string) { OpensStatement(Upper(FirstWord(y))) }

  // Whether y continues the statement p.
  ghost predicate ContinuesText(p: string, y: string) {
    var a, b := WordsIn(p), WordsIn(y);
    a != [] && b != [] && Continues(MainOf(a), Upper(a[|a| - 1].text), Upper(FirstWord(y)), Hint(b), Ties(b))
  }

  // The first of the statements opens with z.
  predicate FirstHolds(stmts: seq<string>, z: string) { stmts != [] && z <= stmts[0] }

  // ---------- Its facts ----------

  lemma StatementText(p: string, c: char)
    requires IsStatement(p, c)
    ensures p != [] && Trim(p) == p && LeadLen(p) == 0 && Closed(p, c) && IsSpace(c) && SEMICOLON !in Lex(p)
  {
    hide CutLen, Trim, LeadLen, Lex, WordsOf, EndDepth, SplitText, Ended;
    SplitInOrder(p);
    assert Settled([p][0]);
  }

  lemma StatementWords(p: string, c: char)
    requires IsStatement(p, c)
    ensures WordsIn(p) != [] && EndDepth(Lex(p), 0) == 0 && CutLen(p) == |p|
  {
    hide CutLen, Trim, LeadLen, Lex, WordsOf, EndDepth, Closed, SplitText, Ended;
    SplitInOrder(p);
    assert Settled([p][0]);
  }

  lemma BeginsWithWord(y: string)
    requires Begins(y)
    ensures y != [] && First(y).kind == Word && First(y).text == FirstWord(y)
    ensures Lex(y) != [] && IsWordUnit(Lex(y)[0]) && Lex(y)[0] == First(y)
    ensures OpensStatement(Upper(FirstWord(y))) && |FirstWord(y)| <= |y|
  {
    hide NextLen, FirstKind;
    if y != [] { LexCons(y); }
  }

  // ---------- Its cut ----------

  lemma FirstIsWord(y: string, at: nat)
    requires Begins(y)
    ensures var b, end := WordsOf(Lex(y), at, 0), at + |FirstWord(y)|;
      && b != [] && b[0].text == FirstWord(y) && b[0].at == at && b[0].end == end && b[0].depth == 0 && at < end
      && forall i :: 0 < i < |b| ==> end <= b[i].at && end <= b[i].end
  {
    hide NextLen, FirstKind, OpensStatement, Begins, FirstWord, Lex;
    BeginsWithWord(y);
    UnitsNotEmpty(y);
    WordLeads(Lex(y), at);
  }

  lemma WordLeads(us: seq<Unit>, at: nat)
    requires us != [] && IsWordUnit(us[0]) && us[0].kind == Word && forall u <- us :: |u.text| > 0
    ensures var b, end := WordsOf(us, at, 0), at + |us[0].text|;
      && b != [] && b[0].text == us[0].text && b[0].at == at && b[0].end == end && b[0].depth == 0 && at < end
      && forall i :: 0 < i < |b| ==> end <= b[i].at && end <= b[i].end
  {
    hide WordsOf, Concat;
    WordsUnfold(us, at, 0);
    var rest, end := us[1..], at + |us[0].text|;
    assert Deeper(0, us[0]) == 0;
    forall i | 0 < i < |WordsOf(us, at, 0)|
      ensures end <= WordsOf(us, at, 0)[i].at && end <= WordsOf(us, at, 0)[i].end
    {
      WordsBounds(rest, end, 0, i - 1);
    }
  }

  lemma CompleteWords(p: string, c: char)
    requires IsStatement(p, c)
    ensures Complete(WordsIn(p), |p|)
  {
    hide StopFrom, WordsOf, Lex, Concat, IsStatement;
    StatementWords(p, c);
    UnitsNotEmpty(p);
    ConcatLex(p);
    var a := WordsIn(p);
    forall i | 0 <= i < |a| ensures a[i].at < |p| { WordsBounds(Lex(p), 0, 0, i); }
  }

  lemma WordsOfBoth(p: string, c: char, y: string)
    requires Closed(p, c) && IsSpace(c) && EndDepth(Lex(p), 0) == 0 && Lex(y) != [] && IsWordUnit(Lex(y)[0])
    ensures WordsIn(p + [c] + y) == WordsIn(p) + WordsOf(Lex(y), |p| + 1, 0)
  {
    hide *;
    LexBehind(p, c, y);
    ConcatLex(p);
    SpaceIsBlank(c);
    WordsBehind(Lex(p), c, Lex(y), 0, 0);
    WordsMeans(p + [c] + y);
    WordsMeans(p);
  }

  lemma SpaceIsBlank(c: char)
    requires IsSpace(c)
    ensures IsBlank(c)
  {
  }

  lemma WordsMeans(t: string)
    ensures WordsIn(t) == WordsOf(Lex(t), 0, 0)
  {
    hide WordsOf, Lex;
  }

  // Where the two are cut.
  lemma CutBetween(p: string, c: char, y: string)
    requires IsStatement(p, c) && Begins(y)
    ensures var n := CutLen(p + [c] + y);
      if ContinuesText(p, y) then n >= |p| + 1 + |FirstWord(y)| else n == |p| || n == |p| + 1
  {
    hide StopFrom, WordsOf, Lex, IsStatement, Begins, FirstWord, Continues, MainOf, OpensStatement;
    hide Complete, Hint, Ties;
    var a, b := WordsIn(p), WordsOf(Lex(y), |p| + 1, 0);
    StatementText(p, c);
    StatementWords(p, c);
    BeginsWithWord(y);
    WordsOfBoth(p, c, y);
    CompleteWords(p, c);
    FirstIsWord(y, |p| + 1);
    FirstIsWord(y, 0);
    SameHints(y, |p| + 1);
    WordBoundary(a, b, |p|);
  }

  lemma SameHints(y: string, at: nat)
    requires WordsOf(Lex(y), at, 0) != [] && WordsIn(y) != []
    ensures Hint(WordsOf(Lex(y), at, 0)) == Hint(WordsIn(y)) && Ties(WordsOf(Lex(y), at, 0)) == Ties(WordsIn(y))
  {
    hide WordsOf, Lex;
    WordsMoved(Lex(y), at, 0, 0, 0);
    if |WordsOf(Lex(y), at, 0)| > 1 { WordsMoved(Lex(y), at, 0, 0, 1); }
  }

  // ---------- Its pieces ----------

  lemma {:induction false} RTrimBehind(x: string, z: string)
    requires RTrim(z) != []
    ensures RTrim(x + z) == x + RTrim(z)
    decreases |z|
  {
    assert (x + z)[|x + z| - 1] == z[|z| - 1];
    if IsBlank(z[|z| - 1]) {
      assert (x + z)[..|x + z| - 1] == x + z[..|z| - 1];
      RTrimBehind(x, z[..|z| - 1]);
    }
  }

  lemma {:induction false} RTrimKeeps(x: string, z: string)
    requires z <= x && z != [] && !IsBlank(z[|z| - 1])
    ensures z <= RTrim(x)
  {
    if IsBlank(x[|x| - 1]) {
      assert |z| < |x| && z <= x[..|x| - 1];
      RTrimKeeps(x[..|x| - 1], z);
    }
  }

  lemma SameLead(t: string, u: string)
    requires Lead(t) == Lead(u)
    ensures Pieces(t) == Pieces(u)
  {
  }

  // A text that opens with no white space and no comment leads with itself.
  lemma LeadOfOpen(t: string)
    requires t != [] && LeadLen(t) == 0 && !IsBlank(t[0])
    ensures Lead(t) == RTrim(t)
  {
    hide LeadLen, RTrim, LTrim;
    RTrimStarts(t);
    assert t[0..] == t;
  }

  lemma OpenStays(p: string, c: char, y: string)
    requires IsStatement(p, c)
    ensures LeadLen(p + [c] + y) == 0 && !IsBlank((p + [c] + y)[0])
  {
    hide IsStatement;
    StatementText(p, c);
    TrimmedEnds(p);
    OpenMore(p, c, y);
  }

  lemma OpenMore(p: string, c: char, y: string)
    requires p != [] && LeadLen(p) == 0 && !IsBlank(p[0]) && IsSpace(c)
    ensures LeadLen(p + [c] + y) == 0 && !IsBlank((p + [c] + y)[0])
  {
    var t := p + [c] + y;
    assert t[0] == p[0];
    if |p| >= 2 { assert t[..2] == p[..2]; } else { assert t[..2] == [p[0], c]; }
  }

  lemma WordOpens(y: string)
    requires Begins(y)
    ensures y != [] && LeadLen(y) == 0 && !IsBlank(y[0])
    ensures var w := FirstWord(y); w <= y && w != [] && !IsBlank(w[|w| - 1])
  {
    hide *;
    BeginsWithWord(y);
    WordFirst(y);
    WordBytes(y);
    NoLeadBefore(y);
    FirstMeans(y);
    var w := FirstWord(y);
    WordByteNotBlank(w[|w| - 1]);
    WordByteNotBlank(y[0]);
  }

  lemma FirstMeans(y: string)
    requires y != []
    ensures First(y).text == y[..NextLen(y)]
  {
    hide NextLen, FirstKind;
  }

  lemma WordByteNotBlank(c: char)
    requires IsWordByte(c)
    ensures !IsBlank(c)
  {
  }

  lemma WordFirst(q: string)
    requires q != [] && First(q).kind == Word
    ensures CommentLen(q) == 0 && IsWordByte(q[0]) && NextLen(q) == WordLen(q) > 0
  {
    hide StringLen, BracketLen;
    NextOf(q);
  }

  lemma NoLeadBefore(q: string)
    requires q != [] && CommentLen(q) == 0 && IsWordByte(q[0])
    ensures LeadLen(q) == 0
  {
    hide CommentLen;
  }

  lemma {:induction false} WordBytes(t: string)
    ensures forall i :: 0 <= i < WordLen(t) ==> IsWordByte(t[i])
  {
    if t != [] && IsWordByte(t[0]) {
      WordBytes(t[1..]);
      assert forall i :: 0 < i < WordLen(t) ==> t[i] == t[1..][i - 1];
    }
  }

  // ---------- Side by side ----------

  // The pieces of p, white space and y: p and those of y, unless y continues p.
  lemma PiecesBetween(p: string, c: char, y: string)
    requires IsStatement(p, c) && Begins(y) && RTrim(y) == y
    ensures !ContinuesText(p, y) ==> Pieces(p + [c] + y) == [p] + Pieces(y)
    ensures ContinuesText(p, y) ==> FirstHolds(Pieces(p + [c] + y), p + [c] + FirstWord(y))
  {
    hide *;
    var s := p + [c] + y;
    StatementText(p, c);
    LeadOfBoth(p, c, y);
    CutBetween(p, c, y);
    CutLenBounds(s);
    PiecesUnfold(s);
    if ContinuesText(p, y) {
      FirstPiece(p, c, y, CutLen(s));
      FirstHoldsOne(Trim(s[..CutLen(s)]), Pieces(s[CutLen(s)..]), p + [c] + FirstWord(y));
    } else {
      RestPieces(p, c, y, CutLen(s));
    }
  }

  lemma LeadOfBoth(p: string, c: char, y: string)
    requires IsStatement(p, c) && Begins(y) && RTrim(y) == y
    ensures Lead(p + [c] + y) == p + [c] + y
  {
    hide *;
    OpenStays(p, c, y);
    LeadOfOpen(p + [c] + y);
    WordOpens(y);
    RTrimBehind(p + [c], y);
  }

  lemma FirstPiece(p: string, c: char, y: string, n: nat)
    requires IsStatement(p, c) && Begins(y) && |p| + 1 + |FirstWord(y)| <= n <= |p + [c] + y|
    ensures p + [c] + FirstWord(y) <= Trim((p + [c] + y)[..n])
  {
    hide LeadLen, RTrim, LTrim, IsStatement, Begins, FirstWord;
    var w := FirstWord(y);
    var x, z := (p + [c] + y)[..n], p + [c] + w;
    WordOpens(y);
    OpenStays(p, c, y);
    assert z <= x && z[|z| - 1] == w[|w| - 1] && x[0] == (p + [c] + y)[0];
    RTrimStarts(x);
    RTrimKeeps(x, z);
  }

  lemma RestPieces(p: string, c: char, y: string, n: nat)
    requires p != [] && Trim(p) == p && IsSpace(c) && (n == |p| || n == |p| + 1)
    ensures Trim((p + [c] + y)[..n]) == p && Pieces((p + [c] + y)[n..]) == Pieces(y)
  {
    hide Pieces, LeadLen, Lead, Trim;
    var s := p + [c] + y;
    if n == |p| {
      assert s[..n] == p && s[n..] == [c] + y;
      SpaceLead(c, y);
      SameLead([c] + y, y);
    } else {
      assert s[..n] == p + [c] && s[n..] == y;
      TrimSpace(p, c);
    }
  }

  lemma SpaceLead(c: char, y: string)
    requires IsSpace(c)
    ensures Lead([c] + y) == Lead(y)
  {
    hide CommentLen, Trim;
    assert ([c] + y)[1..] == y && LeadLen([c] + y) == 1 + LeadLen(y);
    assert ([c] + y)[1 + LeadLen(y)..] == y[LeadLen(y)..];
  }

  lemma TrimSpace(p: string, c: char)
    requires p != [] && Trim(p) == p && IsSpace(c)
    ensures Trim(p + [c]) == p
  {
    TrimmedEnds(p);
    RTrimStarts(p);
    RTrimStarts(p + [c]);
    RTrimMore(p, c);
  }

  // The first chunk: only its head matters.
  lemma HeadPieces(p: string, c: char, q: string)
    requires IsStatement(p, c) && Head(q) != []
    ensures Pieces(p + [c] + Chunk(q)) == Pieces(p + [c] + Head(q))
  {
    hide LeadLen, RTrim, LTrim, IsStatement, Chunk, Pieces;
    var chunk := Chunk(q);
    OpenStays(p, c, chunk);
    OpenStays(p, c, Head(q));
    LeadOfOpen(p + [c] + chunk);
    LeadOfOpen(p + [c] + Head(q));
    RTrimBehind(p + [c], chunk);
    RTrimTwice(chunk);
    RTrimBehind(p + [c], Head(q));
    SameLead(p + [c] + chunk, p + [c] + Head(q));
  }

  lemma {:induction false} RTrimTwice(x: string)
    ensures RTrim(RTrim(x)) == RTrim(x)
  {
    if x != [] && IsBlank(x[|x| - 1]) { RTrimTwice(x[..|x| - 1]); }
  }

  lemma HeadAlone(q: string)
    requires Begins(Head(q))
    ensures Pieces(Chunk(q)) == Pieces(Head(q))
  {
    hide LeadLen, RTrim, LTrim, ChunkLen, Pieces, Begins, FirstWord;
    var chunk := Chunk(q);
    BeginsWithWord(Head(q));
    WordOpens(Head(q));
    assert Head(q) <= chunk && chunk[0] == Head(q)[0];
    WordFirst(Head(q));
    OpenChunk(chunk, Head(q));
    LeadOfOpen(chunk);
    LeadOfOpen(Head(q));
    RTrimTwice(chunk);
    SameLead(chunk, Head(q));
  }

  lemma OpenChunk(x: string, z: string)
    requires z <= x && z != [] && IsWordByte(z[0])
    ensures LeadLen(x) == 0
  {
    assert x[0] == z[0];
    if |x| >= 2 { assert x[..2][0] == x[0]; }
  }

  // A statement p and a text q that opens with one of the keywords, side by side: the statements are p and those of
  // q, exactly unless the keyword continues p. Then it stands in one statement with p.
  lemma SideBySideExactly(p: string, c: char, q: string)
    requires IsStatement(p, c) && Begins(Head(q))
    ensures !ContinuesText(p, Head(q)) ==> SplitText(p + [c] + q) == [p] + SplitText(q)
    ensures ContinuesText(p, Head(q)) ==> FirstHolds(SplitText(p + [c] + q), p + [c] + FirstWord(Head(q)))
  {
    hide *;
    StatementText(p, c);
    SplitBehind(p, c, q);
    HeadNotEmpty(q);
    HeadPieces(p, c, q);
    HeadAlone(q);
    HeadTrimmed(q);
    PiecesBetween(p, c, Head(q));
    SplitFirst(q);
    var y, rest := Head(q), RestOf(q);
    if ContinuesText(p, y) {
      FirstHoldsMore(Pieces(p + [c] + y), rest, p + [c] + FirstWord(y));
    } else {
      assert ([p] + Pieces(y)) + rest == [p] + (Pieces(y) + rest);
    }
  }

  lemma FirstHoldsOne(x: string, rest: seq<string>, z: string)
    requires z <= x
    ensures FirstHolds([x] + rest, z)
  {
  }

  lemma FirstHoldsMore(ps: seq<string>, rest: seq<string>, z: string)
    requires FirstHolds(ps, z)
    ensures FirstHolds(ps + rest, z)
  {
  }

  lemma HeadNotEmpty(q: string)
    requires Begins(Head(q))
    ensures Head(q) != []
  {
    hide Head;
    BeginsWithWord(Head(q));
  }

  lemma HeadTrimmed(q: string)
    ensures RTrim(Head(q)) == Head(q)
  {
    hide RTrim, ChunkLen;
    RTrimTwice(Chunk(q));
  }

  // The statements behind q's first separator.
  function RestOf(q: string): seq<string> { if ChunkLen(q) < |q| then SplitText(q[ChunkLen(q) + 1..]) else [] }

  lemma SplitFirst(q: string)
    ensures SplitText(q) == Pieces(Chunk(q)) + RestOf(q)
  {
    hide ChunkLen, Pieces, SplitText;
    SplitStep(q, ChunkLen(q));
  }

  lemma SplitBehind(p: string, c: char, q: string)
    requires Closed(p, c) && SEMICOLON !in Lex(p)
    ensures SplitText(p + [c] + q) == Pieces(p + [c] + Chunk(q)) + RestOf(q)
  {
    hide ChunkLen, Pieces, SplitText, Closed, Lex;
    var t, n := p + [c] + q, ChunkLen(q);
    ChunkBehind(p, c, q);
    assert t[..|p| + 1 + n] == p + [c] + q[..n];
    if n < |q| { assert t[|p| + 1 + n + 1..] == q[n + 1..]; }
    SplitStep(t, |p| + 1 + n);
  }

  // ---------- An example ----------

  lemma WordThen(w: string, x: string)
    requires w != [] && (forall i :: 0 <= i < |w| ==> IsWordByte(w[i])) && (x == [] || !IsWordByte(x[0]))
    ensures Lex(w + x) == [Unit(Word, w)] + Lex(x)
  {
    hide *;
    WordWhole(w, x);
    WordOnly(w + x);
    assert (w + x)[..|w|] == w && (w + x)[|w|..] == x;
    LexCons(w + x);
  }

  lemma {:induction false} WordWhole(w: string, x: string)
    requires (forall i :: 0 <= i < |w| ==> IsWordByte(w[i])) && (x == [] || !IsWordByte(x[0]))
    ensures WordLen(w + x) == |w|
  {
    if w == [] {
      assert w + x == x;
    } else {
      assert (w + x)[1..] == w[1..] + x;
      WordWhole(w[1..], x);
    }
  }

  lemma WordOnly(t: string)
    requires t != [] && IsWordByte(t[0])
    ensures First(t) == Unit(Word, t[..WordLen(t)]) && NextLen(t) == WordLen(t)
  {
    hide WordLen;
    if |t| >= 2 { assert t[..2][0] == t[0]; }
  }

  lemma SpaceThen(x: string)
    ensures Lex(" " + x) == [Unit(Mark, " ")] + Lex(x)
  {
    hide NextLen, FirstKind;
    SpaceUnit(" " + x);
    LexCons(" " + x);
    assert (" " + x)[1..] == x;
  }

  const SELECT_ONE := "SELECT 1"

  lemma SelectUnits(x: string)
    requires x == [] || !IsWordByte(x[0])
    ensures Lex(SELECT_ONE + x) == [Unit(Word, "SELECT"), Unit(Mark, " "), Unit(Word, "1")] + Lex(x)
  {
    hide Lex;
    assert SELECT_ONE + x == "SELECT" + (" " + ("1" + x));
    WordThen("SELECT", " " + ("1" + x));
    SpaceThen("1" + x);
    WordThen("1", x);
  }

  // Its words.
  ghost predicate IsSelectOne(ws: seq<WordAt>) {
    |ws| == 2 && ws[0].text == "SELECT" && ws[1].text == "1" && ws[0].depth == ws[1].depth == 0
  }

  lemma SelectWords()
    ensures IsSelectOne(WordsIn(SELECT_ONE)) && EndDepth(Lex(SELECT_ONE), 0) == 0
    ensures Lex(SELECT_ONE) == [Unit(Word, "SELECT"), Unit(Mark, " "), Unit(Word, "1")]
  {
    hide Lex, WordsOf, EndDepth;
    EmptySense();
    SelectUnits("");
    assert SELECT_ONE + "" == SELECT_ONE;
    var a, b, c := Unit(Word, "SELECT"), Unit(Mark, " "), Unit(Word, "1");
    assert b.text[0] == ' ' && a.text[0] == 'S' && c.text[0] == '1' && "("[0] == '(' && ")"[0] == ')';
    OneUnitMore(a, [b, c], 0);
    OneUnitMore(b, [c], 6);
    OneUnitMore(c, [], 7);
    NoWords(8, 0);
    assert Lex(SELECT_ONE) == [a] + [b, c] && [b, c] == [b] + [c] && [c] == [c] + [];
  }

  lemma OneUnitMore(u: Unit, us: seq<Unit>, at: nat)
    requires u != Unit(Mark, "(") && u != Unit(Mark, ")")
    ensures EndDepth([u] + us, 0) == EndDepth(us, 0)
    ensures WordsOf([u] + us, at, 0) ==
      (if IsWordUnit(u) then [WordAt(u.text, at, at + |u.text|, 0, ParenNext(us))] else []) +
      WordsOf(us, at + |u.text|, 0)
  {
    assert ([u] + us)[1..] == us;
    WordsUnfold([u] + us, at, 0);
  }

  lemma NoWords(at: nat, depth: nat)
    ensures WordsOf([], at, depth) == [] && EndDepth([], depth) == depth
  {
  }

  lemma SelectMeans(ws: seq<WordAt>)
    requires IsSelectOne(ws)
    ensures MainOf(ws) == Main("SELECT", ["1"]) && Upper(ws[|ws| - 1].text) == "1" && Stop(ws) == None
  {
    hide JudgeWord, Judge;
    assert Upper("SELECT") == "SELECT" && Upper("1") == "1";
    OneTop(ws[1..]);
    SelectGoes(ws);
    var st := Opening(ws);
    assert StopFrom(ws, 2, st) == None;
    assert StopFrom(ws, 1, st) == StopFrom(ws, 2, st);
  }

  lemma OneTop(ws: seq<WordAt>)
    requires |ws| == 1 && ws[0].depth == 0
    ensures TopWords(ws) == [Upper(ws[0].text)]
  {
    assert ws[1..] == [];
  }

  lemma SelectGoes(ws: seq<WordAt>)
    requires IsSelectOne(ws) && Upper("SELECT") == "SELECT" && Upper("1") == "1"
    ensures Judge(Opening(ws), ws, 1) == Go(Opening(ws))
  {
  }

  lemma SelectTrimmed()
    ensures Trim(SELECT_ONE) == SELECT_ONE && LeadLen(SELECT_ONE) == 0
  {
    hide CommentLen;
    NoComment(SELECT_ONE);
    assert RTrim(SELECT_ONE) == SELECT_ONE;
    RTrimStarts(SELECT_ONE);
  }

  lemma SelectSettled()
    ensures Settled(SELECT_ONE)
  {
    hide Lex, WordsOf, Trim, StopFrom;
    SelectWords();
    SelectMeans(WordsIn(SELECT_ONE));
    SelectTrimmed();
  }

  lemma SelectClosed()
    ensures Closed(SELECT_ONE, ' ')
  {
    hide Lex, WordsOf, EndDepth;
    SelectUnits(" ");
    SpaceThen("");
    SelectWords();
    EmptySense();
    assert " " + "" == " ";
  }

  lemma SelectIsOne()
    ensures IsStatement(SELECT_ONE, ' ')
  {
    hide Lex, WordsOf, SplitText, EndDepth, Trim, LeadLen, Closed, Settled;
    SelectWords();
    SelectTrimmed();
    SelectSettled();
    SelectClosed();
    OneStatement("", SELECT_ONE);
    assert "" + SELECT_ONE == SELECT_ONE;
  }

  lemma SelectGoesOn(q: string)
    requires IsSelectOne(WordsIn(SELECT_ONE)) && Upper(FirstWord(Head(q))) != "WITH"
    ensures !ContinuesText(SELECT_ONE, Head(q))
  {
    hide WordsIn, FirstWord, Head, MainOf, Upper, Ties;
    SelectMeans(WordsIn(SELECT_ONE));
  }

  // What follows SELECT 1 and opens with any of the keywords but WITH is a statement of its own.
  lemma SelectThen(q: string)
    requires Begins(Head(q)) && Upper(FirstWord(Head(q))) != "WITH"
    ensures SplitText(SELECT_ONE + " " + q) == [SELECT_ONE] + SplitText(q)
  {
    hide *;
    SelectIsOne();
    SelectWords();
    SelectGoesOn(q);
    SideBySideExactly(SELECT_ONE, ' ', q);
    assert [' '] == " ";
  }
}
