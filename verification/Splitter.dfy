// The loops of the statement splitter (internal/extensions/batch), proved against the definitions in Statements.

module Splitter {
  import opened Option
  import opened Lexing
  import opened Statements

  predicate AllBlank(t: string) { forall i :: 0 <= i < |t| ==> IsBlank(t[i]) }

  lemma {:induction false} RTrimEmpty(t: string)
    ensures RTrim(t) == [] <==> AllBlank(t)
  {
    if t != [] && IsBlank(t[|t| - 1]) { RTrimEmpty(t[..|t| - 1]); }
  }

  lemma {:induction false} LTrimBlank(t: string)
    ensures AllBlank(LTrim(t)) <==> AllBlank(t)
  {
    if t != [] && IsBlank(t[0]) {
      LTrimBlank(t[1..]);
      assert forall i :: 1 <= i < |t| ==> t[i] == t[1..][i - 1];
    }
  }

  lemma TrimEmpty(t: string)
    ensures Trim(t) == [] <==> AllBlank(t)
  {
    RTrimEmpty(LTrim(t));
    LTrimBlank(t);
  }

  // ---------- words ----------

  function Mark_(w: WordAt): WordAt { w.(parenAfter := true) }

  // The words found before i, once the '(' that may follow the last of them has been seen.
  function Settle(out: seq<WordAt>, s: string, i: nat): seq<WordAt>
    requires i <= |s|
  {
    var n := |out|;
    if n > 0 && out[n - 1].end <= i && AllBlank(s[out[n - 1].end..i]) && ParenNext(Lex(s[i..]))
    then out[n - 1 := Mark_(out[n - 1])] else out
  }

  ghost predicate Scanned(s: string, out: seq<WordAt>, i: nat, depth: nat) {
    && i <= |s|
    && (out != [] ==> out[|out| - 1].end <= i)
    && WordsIn(s) == Settle(out, s, i) + WordsOf(Lex(s[i..]), i, depth)
  }

  // The words and the '(' ahead of a position, one unit on.
  lemma WordsNext(s: string, i: nat, depth: nat)
    requires i < |s|
    ensures var u, j := First(s[i..]), i + NextLen(s[i..]);
      && u.text == s[i..j]
      && WordsOf(Lex(s[i..]), i, depth) ==
         (if IsWordUnit(u) then [WordAt(u.text, i, j, depth, ParenNext(Lex(s[j..])))] else []) +
         WordsOf(Lex(s[j..]), j, Deeper(depth, u))
      && ParenNext(Lex(s[i..])) == (u == Unit(Mark, "(") || (IsBlankMark(u) && ParenNext(Lex(s[j..]))))
  {
    hide NextLen, FirstKind, Deeper;
    var t, j := s[i..], i + NextLen(s[i..]);
    assert t[NextLen(t)..] == s[j..] && t[..NextLen(t)] == s[i..j];
    assert Lex(t)[1..] == Lex(s[j..]);
  }

  lemma GapGrows(s: string, a: nat, i: nat, j: nat)
    requires a <= i < j <= |s|
    ensures !IsBlank(s[i]) ==> !AllBlank(s[a..j])
    ensures j == i + 1 && IsBlank(s[i]) ==> AllBlank(s[a..j]) == AllBlank(s[a..i])
  {
    assert s[a..j][i - a] == s[i];
    if j == i + 1 { assert forall k :: 0 <= k < i - a ==> s[a..j][k] == s[a..i][k]; }
  }

  // A unit that is no word and no '(': nothing is found, and a gap with it in stays open only if blank.
  lemma PassOver(s: string, out: seq<WordAt>, i: nat, depth: nat)
    requires Scanned(s, out, i, depth) && i < |s|
    requires !IsWordUnit(First(s[i..])) && First(s[i..]) != Unit(Mark, "(")
    ensures Scanned(s, out, i + NextLen(s[i..]), Deeper(depth, First(s[i..])))
  {
    hide NextLen, FirstKind, WordsIn, WordsOf, Lex, ParenNext, AllBlank, Deeper;
    WordsNext(s, i, depth);
    var u, j := First(s[i..]), i + NextLen(s[i..]);
    Opens(s[i..]);
    if out != [] { GapGrows(s, out[|out| - 1].end, i, j); }
    assert Settle(out, s, j) == Settle(out, s, i);
  }

  // A unit of more than one character opens with something that is not blank.
  lemma Opens(t: string)
    requires t != []
    ensures IsBlank(t[0]) <==> IsBlankMark(First(t))
    ensures FirstKind(t) == Mark ==> First(t).text == [t[0]]
  {
    if FirstKind(t) == Comment { assert t[..2][0] == t[0]; }
  }

  lemma FindWord(s: string, out: seq<WordAt>, i: nat, depth: nat)
    requires Scanned(s, out, i, depth) && i < |s| && IsWordUnit(First(s[i..]))
    ensures var j := i + NextLen(s[i..]);
      Scanned(s, out + [WordAt(s[i..j], i, j, depth, false)], j, depth)
  {
    hide NextLen, FirstKind, WordsIn, WordsOf, Lex, ParenNext;
    WordsNext(s, i, depth);
    var j := i + NextLen(s[i..]);
    var more := out + [WordAt(s[i..j], i, j, depth, false)];
    assert Settle(out, s, i) == out;
    assert s[j..j] == [];
    assert Settle(more, s, j) == out + [WordAt(s[i..j], i, j, depth, ParenNext(Lex(s[j..])))];
  }

  lemma FindParen(s: string, out: seq<WordAt>, i: nat, depth: nat)
    requires Scanned(s, out, i, depth) && i < |s| && First(s[i..]) == Unit(Mark, "(")
    ensures NextLen(s[i..]) == 1
    ensures Scanned(s,
      if out != [] && AllBlank(s[out[|out| - 1].end..i]) then out[|out| - 1 := Mark_(out[|out| - 1])] else out,
      i + 1, depth + 1)
  {
    hide WordsIn, WordsOf, Lex, ParenNext, AllBlank;
    WordsNext(s, i, depth);
    assert s[i] == '(';
    if out != [] { GapGrows(s, out[|out| - 1].end, i, i + 1); }
    assert Settle(Settle(out, s, i), s, i + 1) == Settle(out, s, i);
  }

  method ScanWords(s: string) returns (out: seq<WordAt>)
    ensures out == WordsIn(s)
  {
    hide NextLen, Lex, WordsOf, WordsIn, ParenNext, Settle, RTrim, LTrim, Trim;
    out := [];
    var depth := 0;
    var i := 0;
    ScanStarts(s);
    while i < |s|
      invariant Scanned(s, out, i, depth)
    {
      ghost var t := s[i..];
      NextOf(t);
      var j := SkipComment(s, i);
      if j > i {
        PassOver(s, out, i, depth);
        i := j;
        continue;
      }
      var c := s[i];
      assert t[0] == c && t[1..] == s[i + 1..];
      if c == '\'' {
        PassOver(s, out, i, depth);
        i := SkipString(s, i);
      } else if c == '[' {
        FindWord(s, out, i, depth);
        j := SkipBracket(s, i);
        out := out + [WordAt(s[i..j], i, j, depth, false)];
        i := j;
      } else if c == '(' {
        FindParen(s, out, i, depth);
        depth := depth + 1;
        if out != [] {
          TrimEmpty(s[out[|out| - 1].end..i]);
          if Trim(s[out[|out| - 1].end..i]) == "" {
            out := out[|out| - 1 := Mark_(out[|out| - 1])];
          }
        }
        i := i + 1;
      } else if c == ')' {
        PassOver(s, out, i, depth);
        if depth > 0 { depth := depth - 1; }
        i := i + 1;
      } else if IsWordByte(c) {
        FindWord(s, out, i, depth);
        j := SkipWord(s, i);
        out := out + [WordAt(s[i..j], i, j, depth, false)];
        i := j;
      } else {
        PassOver(s, out, i, depth);
        i := i + 1;
      }
    }
    ScanEnds(s, out, depth);
  }

  lemma ScanStarts(s: string)
    ensures Scanned(s, [], 0, 0)
  {
    assert s[0..] == s;
  }

  lemma ScanEnds(s: string, out: seq<WordAt>, depth: nat)
    requires Scanned(s, out, |s|, depth)
    ensures out == WordsIn(s)
  {
    assert s[|s|..] == [];
  }

  // ---------- statementEnd, cutStatements, Split ----------

  method StatementEnd(s: string) returns (end: nat)
    ensures end == CutLen(s)
  {
    hide Judge, WordsIn;
    var ws := ScanWords(s);
    if |ws| == 0 { return |s|; }
    var st := Opening(ws);
    var k := 1;
    while k < |ws|
      invariant 0 < k <= |ws| && Stop(ws) == StopFrom(ws, k, st)
    {
      match Judge(st, ws, k) {
        case Before => return ws[k].at;
        case After => return ws[k].end;
        case Whole => return |s|;
        case Go(next) => st := next;
      }
      k := k + 1;
    }
    end := |s|;
  }

  lemma LeadTurn(s: string, i: nat)
    requires i <= |s|
    ensures i == |s| ==> LeadLen(s[i..]) == 0
    ensures i < |s| && IsSpace(s[i]) ==> LeadLen(s[i..]) == 1 + LeadLen(s[i + 1..])
    ensures i < |s| && !IsSpace(s[i]) && CommentLen(s[i..]) == 0 ==> LeadLen(s[i..]) == 0
    ensures i < |s| && !IsSpace(s[i]) && CommentLen(s[i..]) > 0 ==>
      LeadLen(s[i..]) == CommentLen(s[i..]) + LeadLen(s[i + CommentLen(s[i..])..])
  {
    hide CommentLen;
    if i < |s| {
      assert s[i..][1..] == s[i + 1..];
      assert s[i..][CommentLen(s[i..])..] == s[i + CommentLen(s[i..])..];
    }
  }

  method TrimLeadingComments(s: string) returns (r: string)
    ensures r == Lead(s)
  {
    hide LeadLen, CommentLen, Trim;
    var i := 0;
    assert s[0..] == s;
    while i < |s|
      invariant i <= |s| && LeadLen(s) == i + LeadLen(s[i..])
    {
      LeadTurn(s, i);
      if IsSpace(s[i]) {
        i := i + 1;
        continue;
      }
      var j := SkipComment(s, i);
      if j == i { break; }
      i := j;
    }
    LeadTurn(s, i);
    r := Trim(s[i..]);
  }

  method CutStatements(t: string) returns (out: seq<string>)
    ensures out == Pieces(t)
  {
    hide CutLen, Trim, Lead;
    out := [];
    var rest := t;
    var s := TrimLeadingComments(rest);
    while s != []
      invariant s == Lead(rest) && Pieces(t) == out + Pieces(rest)
      decreases |s|
    {
      CutLenBounds(s);
      var end := StatementEnd(s);
      out := out + [Trim(s[..end])];
      rest := s[end..];
      s := TrimLeadingComments(rest);
    }
  }

  lemma ChunkStep(sql: string, i: nat)
    requires i < |sql| && sql[i] != ';'
    ensures ChunkLen(sql[i..]) == NextLen(sql[i..]) + ChunkLen(sql[i + NextLen(sql[i..])..])
    ensures CommentLen(sql[i..]) == 0 && sql[i] != '\'' && sql[i] != '[' ==>
      ChunkLen(sql[i..]) == 1 + ChunkLen(sql[i + 1..])
  {
    hide CommentLen, StringLen, BracketLen;
    var t := sql[i..];
    assert t[NextLen(t)..] == sql[i + NextLen(t)..] && t[1..] == sql[i + 1..];
    NextOf(t);
    if CommentLen(t) == 0 && IsWordByte(t[0]) && |t| > 1 && IsWordByte(t[1]) {
      assert WordLen(t) == 1 + WordLen(t[1..]);
      NextOf(t[1..]);
      NoComment(t[1..]);
      assert t[1..][NextLen(t[1..])..] == t[NextLen(t)..];
    }
  }

  lemma NoComment(t: string)
    requires t != [] && IsWordByte(t[0])
    ensures CommentLen(t) == 0
  {
    if |t| >= 2 { assert t[..2][0] == t[0]; }
  }

  lemma SplitStep(t: string, n: nat)
    requires n == ChunkLen(t)
    ensures SplitText(t) == Pieces(t[..n]) + (if n < |t| then SplitText(t[n + 1..]) else [])
  {
    hide Pieces, ChunkLen;
  }

  lemma ChunkEnds(t: string)
    requires t == [] || t[0] == ';'
    ensures ChunkLen(t) == 0
  {
  }

  // The text from start is one chunk up to i.
  lemma CutAt(sql: string, start: nat, i: nat)
    requires start <= i <= |sql| && (i < |sql| ==> sql[i] == ';')
    requires ChunkLen(sql[start..]) == i - start + ChunkLen(sql[i..])
    ensures SplitText(sql[start..]) == Pieces(sql[start..i]) + (if i < |sql| then SplitText(sql[i + 1..]) else [])
  {
    hide Pieces, ChunkLen, SplitText;
    ChunkEnds(sql[i..]);
    SplitStep(sql[start..], i - start);
    assert sql[start..][..i - start] == sql[start..i];
    if i < |sql| { assert sql[start..][i - start + 1..] == sql[i + 1..]; }
  }

  method Split(sql: string) returns (stmts: seq<string>)
    ensures stmts == SplitText(sql)
  {
    hide NextLen, Pieces, ChunkLen, SplitText, CommentLen, StringLen, BracketLen;
    stmts := [];
    var start := 0;
    var i := 0;
    assert sql[0..] == sql;
    while i < |sql|
      invariant start <= i <= |sql|
      invariant SplitText(sql) == stmts + SplitText(sql[start..])
      invariant ChunkLen(sql[start..]) == i - start + ChunkLen(sql[i..])
    {
      var j := SkipComment(sql, i);
      NextOf(sql[i..]);
      if j > i {
        NotSemicolon(sql[i..]);
        ChunkStep(sql, i);
        i := j;
        continue;
      }
      assert sql[i..][1..] == sql[i + 1..];
      if sql[i] == '\'' {
        ChunkStep(sql, i);
        i := SkipString(sql, i);
      } else if sql[i] == '[' {
        ChunkStep(sql, i);
        i := SkipBracket(sql, i);
      } else if sql[i] == ';' {
        CutAt(sql, start, i);
        var more := CutStatements(sql[start..i]);
        stmts := stmts + more;
        i := i + 1;
        start := i;
      } else {
        ChunkStep(sql, i);
        i := i + 1;
      }
    }
    assert sql[i..] == [];
    CutAt(sql, start, i);
    assert sql[start..i] == sql[start..];
    var more := CutStatements(sql[start..]);
    stmts := stmts + more;
  }

  lemma NotSemicolon(t: string)
    requires CommentLen(t) > 0
    ensures t[0] != ';'
  {
    assert t[..2][0] == t[0];
  }
}
