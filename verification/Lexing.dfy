// The scanners of the batch layer (internal/extensions/batch/batch.go): comments, strings, [names] and words.

module Lexing {
  // ---------- Characters ----------

  predicate IsSpace(c: char) { c == ' ' || c == '\t' || c == '\n' || c == '\r' }

  // The white space of Unicode beyond that.
  predicate IsWide(c: char) {
    || c == '\U{0B}' || c == '\U{0C}' || c == '\U{85}' || c == '\U{A0}' || c == '\U{1680}'
    || '\U{2000}' <= c <= '\U{200A}' || c == '\U{2028}' || c == '\U{2029}' || c == '\U{202F}' || c == '\U{205F}'
    || c == '\U{3000}'
  }

  // What strings.TrimSpace drops.
  predicate IsBlank(c: char) { IsSpace(c) || IsWide(c) }

  predicate IsNamePart(c: char) { c == '_' || '0' <= c <= '9' || 'a' <= c <= 'z' || 'A' <= c <= 'Z' }

  predicate IsWordByte(c: char) { IsNamePart(c) || c == '@' || c == '#' || c == '$' || c == '.' }

  // ---------- One lexical unit ----------

  datatype Kind = Comment | Text | Name | Word | Mark

  // A -- comment stops before the newline.
  function LineLen(t: string): (n: nat)
    ensures n <= |t|
  {
    if t == [] || t[0] == '\n' then 0 else 1 + LineLen(t[1..])
  }

  // What is left of a block comment nested depth deep.
  function BlockLen(t: string, depth: nat): (n: nat)
    ensures n <= |t|
  {
    if t == [] then 0
    else if |t| >= 2 && t[..2] == "/*" then 2 + BlockLen(t[2..], depth + 1)
    else if |t| >= 2 && t[..2] == "*/" then (if depth <= 1 then 2 else 2 + BlockLen(t[2..], depth - 1))
    else 1 + BlockLen(t[1..], depth)
  }

  // What is left of a string after its opening quote; '' stands for a quote.
  function StringLen(t: string): (n: nat)
    ensures n <= |t|
  {
    if t == [] then 0
    else if t[0] != '\'' then 1 + StringLen(t[1..])
    else if |t| >= 2 && t[1] == '\'' then 2 + StringLen(t[2..])
    else 1
  }

  function BracketLen(t: string): (n: nat)
    ensures n <= |t|
  {
    if t == [] then 0 else if t[0] == ']' then 1 else 1 + BracketLen(t[1..])
  }

  function WordLen(t: string): (n: nat)
    ensures n <= |t|
  {
    if t == [] || !IsWordByte(t[0]) then 0 else 1 + WordLen(t[1..])
  }

  function CommentLen(t: string): (n: nat)
    ensures n <= |t|
  {
    if |t| < 2 then 0
    else if t[..2] == "--" then LineLen(t)
    else if t[..2] == "/*" then 2 + BlockLen(t[2..], 1)
    else 0
  }

  function FirstKind(t: string): Kind
    requires t != []
  {
    if CommentLen(t) > 0 then Comment
    else if t[0] == '\'' then Text
    else if t[0] == '[' then Name
    else if IsWordByte(t[0]) then Word
    else Mark
  }

  // The length of the unit that opens t.
  function NextLen(t: string): (n: nat)
    requires t != []
    ensures 0 < n <= |t|
  {
    match FirstKind(t)
    case Comment => CommentLen(t)
    case Text => 1 + StringLen(t[1..])
    case Name => 1 + BracketLen(t[1..])
    case Word => WordLen(t)
    case Mark => 1
  }

  // ---------- The units of a text ----------

  datatype Unit = Unit(kind: Kind, text: string)

  function First(t: string): Unit
    requires t != []
  {
    Unit(FirstKind(t), t[..NextLen(t)])
  }

  function Lex(t: string): seq<Unit> {
    if t == [] then [] else [First(t)] + Lex(t[NextLen(t)..])
  }

  function Concat(us: seq<Unit>): string {
    if us == [] then [] else us[0].text + Concat(us[1..])
  }

  lemma {:induction false} ConcatLex(t: string)
    ensures Concat(Lex(t)) == t
  {
    if t != [] {
      ConcatLex(t[NextLen(t)..]);
      assert Lex(t)[1..] == Lex(t[NextLen(t)..]);
    }
  }

  // What the first unit is, by its first character.
  lemma NextOf(t: string)
    requires t != []
    ensures CommentLen(t) > 0 ==> NextLen(t) == CommentLen(t) && First(t).kind == Comment
    ensures CommentLen(t) == 0 && t[0] == '\'' ==> NextLen(t) == 1 + StringLen(t[1..]) && First(t).kind == Text
    ensures CommentLen(t) == 0 && t[0] == '[' ==> NextLen(t) == 1 + BracketLen(t[1..]) && First(t).kind == Name
    ensures CommentLen(t) == 0 && IsWordByte(t[0]) ==> NextLen(t) == WordLen(t) && First(t).kind == Word
    ensures CommentLen(t) == 0 && t[0] != '\'' && t[0] != '[' && !IsWordByte(t[0]) ==>
      NextLen(t) == 1 && First(t) == Unit(Mark, [t[0]])
  {
  }

  // ---------- The loops ----------

  method SkipLine(s: string, i: nat) returns (j: nat)
    requires i <= |s|
    ensures j == i + LineLen(s[i..]) && j <= |s|
  {
    j := i;
    while j < |s| && s[j] != '\n'
      invariant i <= j <= |s| && i + LineLen(s[i..]) == j + LineLen(s[j..])
    {
      assert s[j..][1..] == s[j + 1..];
      j := j + 1;
    }
  }

  // One turn of the loop below.
  lemma BlockTurn(s: string, j: nat, depth: nat)
    requires j < |s| && depth >= 1
    ensures j + 1 < |s| && s[j..j + 2] == "/*" ==> BlockLen(s[j..], depth) == 2 + BlockLen(s[j + 2..], depth + 1)
    ensures j + 1 < |s| && s[j..j + 2] == "*/" ==>
      BlockLen(s[j..], depth) == if depth == 1 then 2 else 2 + BlockLen(s[j + 2..], depth - 1)
    ensures !(j + 1 < |s| && s[j..j + 2] in ["/*", "*/"]) ==> BlockLen(s[j..], depth) == 1 + BlockLen(s[j + 1..], depth)
  {
    if j + 1 < |s| { assert s[j..][..2] == s[j..j + 2] && s[j..][2..] == s[j + 2..]; }
    assert s[j..][1..] == s[j + 1..];
  }

  // The case "/*" of SkipComment, with the opening mark already counted.
  method SkipBlock(s: string, i: nat) returns (j: nat)
    requires i <= |s|
    ensures j == i + BlockLen(s[i..], 1) && j <= |s|
  {
    hide BlockLen;
    j := i;
    var depth: nat := 1;
    while j < |s|
      invariant i <= j <= |s| && depth >= 1
      invariant i + BlockLen(s[i..], 1) == j + BlockLen(s[j..], depth)
    {
      BlockTurn(s, j, depth);
      if j + 1 < |s| && s[j..j + 2] == "/*" {
        depth := depth + 1;
        j := j + 2;
      } else if j + 1 < |s| && s[j..j + 2] == "*/" {
        depth := depth - 1;
        j := j + 2;
        if depth == 0 { return; }
      } else {
        j := j + 1;
      }
    }
  }

  method SkipComment(s: string, i: nat) returns (j: nat)
    requires i <= |s|
    ensures j == i + CommentLen(s[i..]) && j <= |s|
  {
    if i + 1 >= |s| { return i; }
    assert s[i..][..2] == s[i..i + 2] && s[i..][2..] == s[i + 2..];
    if s[i..i + 2] == "--" {
      j := SkipLine(s, i);
    } else if s[i..i + 2] == "/*" {
      j := SkipBlock(s, i + 2);
    } else {
      j := i;
    }
  }

  method SkipString(s: string, i: nat) returns (j: nat)
    requires i < |s|
    ensures j == i + 1 + StringLen(s[i + 1..]) && j <= |s|
  {
    j := i + 1;
    while j < |s|
      invariant i < j <= |s|
      invariant i + 1 + StringLen(s[i + 1..]) == j + StringLen(s[j..])
    {
      assert s[j..][1..] == s[j + 1..];
      if s[j] == '\'' {
        if j + 1 < |s| && s[j + 1] == '\'' {
          assert s[j..][2..] == s[j + 2..];
          j := j + 2;
          continue;
        }
        return j + 1;
      }
      j := j + 1;
    }
  }

  method SkipBracket(s: string, i: nat) returns (j: nat)
    requires i < |s|
    ensures j == i + 1 + BracketLen(s[i + 1..]) && j <= |s|
  {
    j := i + 1;
    while j < |s|
      invariant i < j <= |s|
      invariant i + 1 + BracketLen(s[i + 1..]) == j + BracketLen(s[j..])
    {
      assert s[j..][1..] == s[j + 1..];
      if s[j] == ']' { return j + 1; }
      j := j + 1;
    }
  }

  method SkipWord(s: string, i: nat) returns (j: nat)
    requires i <= |s|
    ensures j == i + WordLen(s[i..]) && j <= |s|
  {
    j := i;
    while j < |s| && IsWordByte(s[j])
      invariant i <= j <= |s| && i + WordLen(s[i..]) == j + WordLen(s[j..])
    {
      assert s[j..][1..] == s[j + 1..];
      j := j + 1;
    }
  }

  // ---------- What follows a unit ----------

  // A unit that ends inside a text ends there whatever comes after the text.
  lemma {:induction false} LineStable(t: string, y: string)
    requires LineLen(t) < |t|
    ensures LineLen(t + y) == LineLen(t)
  {
    if t[0] != '\n' {
      assert (t + y)[1..] == t[1..] + y;
      LineStable(t[1..], y);
    }
  }

  // Ended says that the comment was closed.
  predicate Closes(t: string, depth: nat) {
    t != [] &&
    if |t| >= 2 && t[..2] == "/*" then Closes(t[2..], depth + 1)
    else if |t| >= 2 && t[..2] == "*/" then depth <= 1 || Closes(t[2..], depth - 1)
    else Closes(t[1..], depth)
  }

  lemma {:induction false} BlockStable(t: string, depth: nat, y: string)
    requires BlockLen(t, depth) < |t| || Closes(t, depth)
    ensures Closes(t, depth) && Closes(t + y, depth) && BlockLen(t + y, depth) == BlockLen(t, depth)
  {
    assert (t + y)[1..] == t[1..] + y;
    if |t| >= 2 {
      assert (t + y)[2..] == t[2..] + y && (t + y)[..2] == t[..2];
      if t[..2] == "/*" { BlockStable(t[2..], depth + 1, y); }
      else if t[..2] == "*/" { if depth > 1 { BlockStable(t[2..], depth - 1, y); } }
      else { BlockStable(t[1..], depth, y); }
    }
  }

  lemma {:induction false} StringStable(t: string, y: string)
    requires StringLen(t) < |t|
    ensures StringLen(t + y) == StringLen(t)
  {
    assert (t + y)[1..] == t[1..] + y;
    if t[0] != '\'' {
      StringStable(t[1..], y);
    } else if |t| >= 2 && t[1] == '\'' {
      assert (t + y)[2..] == t[2..] + y;
      StringStable(t[2..], y);
    }
  }

  lemma {:induction false} BracketStable(t: string, y: string)
    requires BracketLen(t) < |t|
    ensures BracketLen(t + y) == BracketLen(t)
  {
    assert (t + y)[1..] == t[1..] + y;
    if t[0] != ']' { BracketStable(t[1..], y); }
  }

  lemma {:induction false} WordStable(t: string, y: string)
    requires WordLen(t) < |t|
    ensures WordLen(t + y) == WordLen(t)
  {
    assert (t + y)[1..] == t[1..] + y;
    if IsWordByte(t[0]) { WordStable(t[1..], y); }
  }

  lemma NextStable(t: string, y: string)
    requires t != [] && NextLen(t) < |t|
    ensures NextLen(t + y) == NextLen(t) && FirstKind(t + y) == FirstKind(t)
  {
    assert (t + y)[1..] == t[1..] + y && (t + y)[0] == t[0];
    assert (t + y)[..2] == t[..2] && (t + y)[2..] == t[2..] + y;
    match FirstKind(t)
    case Comment => if t[..2] == "--" { LineStable(t, y); } else { BlockStable(t[2..], 1, y); }
    case Text => StringStable(t[1..], y);
    case Name => BracketStable(t[1..], y);
    case Word => WordStable(t, y);
    case Mark =>
  }

  // ---------- Cutting a text after a unit ----------

  lemma {:induction false} LineTruncated(t: string, m: nat)
    requires LineLen(t) <= m <= |t|
    ensures LineLen(t[..m]) == LineLen(t)
  {
    if t != [] && t[0] != '\n' {
      assert t[..m][1..] == t[1..][..m - 1];
      LineTruncated(t[1..], m - 1);
    }
  }

  lemma {:induction false} BlockTruncated(t: string, depth: nat, m: nat)
    requires BlockLen(t, depth) <= m <= |t|
    ensures BlockLen(t[..m], depth) == BlockLen(t, depth)
  {
    if t != [] {
      assert t[..m][1..] == t[1..][..m - 1];
      if |t| >= 2 && m >= 2 {
        assert t[..m][..2] == t[..2] && t[..m][2..] == t[2..][..m - 2];
        if t[..2] == "/*" { BlockTruncated(t[2..], depth + 1, m - 2); }
        else if t[..2] == "*/" { if depth > 1 { BlockTruncated(t[2..], depth - 1, m - 2); } }
        else { BlockTruncated(t[1..], depth, m - 1); }
      }
    }
  }

  lemma {:induction false} StringTruncated(t: string, m: nat)
    requires StringLen(t) <= m <= |t|
    ensures StringLen(t[..m]) == StringLen(t)
  {
    if t != [] {
      assert t[..m][1..] == t[1..][..m - 1];
      if t[0] != '\'' {
        StringTruncated(t[1..], m - 1);
      } else if |t| >= 2 && t[1] == '\'' {
        assert t[..m][2..] == t[2..][..m - 2];
        StringTruncated(t[2..], m - 2);
      }
    }
  }

  lemma {:induction false} BracketTruncated(t: string, m: nat)
    requires BracketLen(t) <= m <= |t|
    ensures BracketLen(t[..m]) == BracketLen(t)
  {
    if t != [] && t[0] != ']' {
      assert t[..m][1..] == t[1..][..m - 1];
      BracketTruncated(t[1..], m - 1);
    }
  }

  lemma {:induction false} WordTruncated(t: string, m: nat)
    requires WordLen(t) <= m <= |t|
    ensures WordLen(t[..m]) == WordLen(t)
  {
    if t != [] && IsWordByte(t[0]) {
      assert t[..m][1..] == t[1..][..m - 1];
      WordTruncated(t[1..], m - 1);
    }
  }

  // What comes after a unit has no part in it.
  lemma NextTruncated(t: string, m: nat)
    requires t != [] && NextLen(t) <= m <= |t|
    ensures NextLen(t[..m]) == NextLen(t) && FirstKind(t[..m]) == FirstKind(t)
  {
    assert t[..m][1..] == t[1..][..m - 1];
    if m >= 2 { assert t[..m][..2] == t[..2] && t[..m][2..] == t[2..][..m - 2]; }
    match FirstKind(t)
    case Comment =>
      if t[..2] == "--" {
        assert LineLen(t) == 1 + LineLen(t[1..]) && LineLen(t[1..]) == 1 + LineLen(t[1..][1..]);
        LineTruncated(t, m);
      } else {
        BlockTruncated(t[2..], 1, m - 2);
      }
    case Text => StringTruncated(t[1..], m - 1);
    case Name => BracketTruncated(t[1..], m - 1);
    case Word => WordTruncated(t, m);
    case Mark =>
  }

  // ---------- A unit that ended before some character ends before a newline ----------

  lemma {:induction false} LineEnds(x: string)
    requires LineLen(x) == |x|
    ensures LineLen(x + "\n") == |x|
  {
    if x == [] {
      assert x + "\n" == "\n";
    } else {
      assert (x + "\n")[1..] == x[1..] + "\n";
      LineEnds(x[1..]);
    }
  }

  lemma {:induction false} BlockEnds(x: string, depth: nat, c: char)
    requires BlockLen(x + [c], depth) == |x|
    ensures Closes(x, depth)
  {
    if x != [] {
      assert (x + [c])[1..] == x[1..] + [c];
      assert (x + [c])[2..] == if |x| >= 2 then x[2..] + [c] else [];
      if |x| >= 2 {
        assert (x + [c])[..2] == x[..2];
        if x[..2] == "/*" { BlockEnds(x[2..], depth + 1, c); }
        else if x[..2] == "*/" { if depth > 1 { BlockEnds(x[2..], depth - 1, c); } }
        else { BlockEnds(x[1..], depth, c); }
      }
    }
  }

  lemma {:induction false} StringEnds(x: string, c: char)
    requires StringLen(x + [c]) == |x|
    ensures StringLen(x + "\n") == |x| && x != [] && x[|x| - 1] == '\''
  {
    if x != [] {
      assert (x + [c])[1..] == x[1..] + [c] && (x + "\n")[1..] == x[1..] + "\n";
      if x[0] != '\'' {
        StringEnds(x[1..], c);
      } else if |x| >= 2 && x[1] == '\'' {
        assert (x + [c])[2..] == x[2..] + [c] && (x + "\n")[2..] == x[2..] + "\n";
        StringEnds(x[2..], c);
      }
    }
  }

  lemma {:induction false} BracketEnds(x: string, c: char)
    requires BracketLen(x + [c]) == |x|
    ensures BracketLen(x + "\n") == |x| && x != [] && x[|x| - 1] == ']'
  {
    if x != [] {
      assert (x + [c])[1..] == x[1..] + [c] && (x + "\n")[1..] == x[1..] + "\n";
      if x[0] != ']' { BracketEnds(x[1..], c); }
    }
  }

  lemma {:induction false} WordEnds(x: string)
    requires WordLen(x) == |x|
    ensures WordLen(x + "\n") == |x|
  {
    if x == [] {
      assert x + "\n" == "\n";
    } else {
      assert (x + "\n")[1..] == x[1..] + "\n";
      WordEnds(x[1..]);
    }
  }

  lemma NextEnds(u: string, y: string)
    requires u != [] && y != [] && NextLen(u + y) == |u|
    ensures NextLen(u) == |u| && FirstKind(u) == FirstKind(u + y)
    ensures NextLen(u + "\n") == |u| && FirstKind(u + "\n") == FirstKind(u)
  {
    var c := y[0];
    assert (u + y)[..|u| + 1] == u + [c] && (u + y)[..|u|] == u;
    NextTruncated(u + y, |u| + 1);
    NextTruncated(u + y, |u|);
    OneMore(u, c);
  }

  lemma OneMore(u: string, c: char)
    requires u != [] && NextLen(u) == |u| && NextLen(u + [c]) == |u| && FirstKind(u + [c]) == FirstKind(u)
    ensures NextLen(u + "\n") == |u| && FirstKind(u + "\n") == FirstKind(u)
  {
    assert (u + [c])[1..] == u[1..] + [c] && (u + "\n")[1..] == u[1..] + "\n";
    if |u| >= 2 {
      assert (u + [c])[2..] == u[2..] + [c] && (u + "\n")[2..] == u[2..] + "\n";
      assert (u + [c])[..2] == u[..2] == (u + "\n")[..2];
    }
    match FirstKind(u)
    case Comment =>
      if u[..2] == "--" {
        LineEnds(u);
      } else {
        BlockEnds(u[2..], 1, c);
        BlockStable(u[2..], 1, "\n");
      }
    case Text => StringEnds(u[1..], c);
    case Name => BracketEnds(u[1..], c);
    case Word => WordEnds(u);
    case Mark =>
  }

  // ---------- Cutting a text between units ----------

  // The last unit is complete: a newline after the text would not join it.
  predicate Ended(t: string) {
    t != [] ==>
      var n := NextLen(t);
      if n < |t| then Ended(t[n..]) else NextLen(t + "\n") == n
  }

  function Take(t: string, k: nat): string
    requires k <= |Lex(t)|
  {
    Concat(Lex(t)[..k])
  }

  // Before and after the k-th unit.
  lemma {:induction false} LexTake(t: string, k: nat)
    requires k <= |Lex(t)|
    ensures var m := |Take(t, k)|;
      m <= |t| && Lex(t[..m]) == Lex(t)[..k] && Lex(t[m..]) == Lex(t)[k..] &&
      (m < |t| ==> Ended(t[..m])) && (Ended(t) ==> Ended(t[m..]))
  {
    hide NextLen, FirstKind;
    var m := |Take(t, k)|;
    if k == 0 {
      assert t[0..] == t;
    } else {
      var n := NextLen(t);
      assert Lex(t)[1..] == Lex(t[n..]) && Lex(t)[..k][1..] == Lex(t)[1..][..k - 1];
      assert Take(t, k) == t[..n] + Take(t[n..], k - 1);
      LexTake(t[n..], k - 1);
      LexTakeStep(t, n, m);
      assert Lex(t)[k..] == Lex(t)[1..][k - 1..];
    }
  }

  lemma Slices(t: string, n: nat, m: nat)
    requires n <= m <= |t|
    ensures t[n..][..m - n] == t[..m][n..] && t[n..][m - n..] == t[m..] && t[..m][..n] == t[..n] && t == t[..m] + t[m..]
  {
  }

  lemma LexTakeStep(t: string, n: nat, m: nat)
    requires t != [] && n == NextLen(t) <= m <= |t|
    ensures t[n..][..m - n] == t[..m][n..] && t[n..][m - n..] == t[m..]
    ensures Lex(t[..m]) == [First(t)] + Lex(t[..m][n..])
    ensures Ended(t[..m][n..]) && m < |t| ==> Ended(t[..m])
    ensures Ended(t) && m < |t| ==> Ended(t[n..])
  {
    hide *;
    Slices(t, n, m);
    NextTruncated(t, m);
    OneUnit(t);
    OneUnit(t[..m]);
    FirstTruncated(t, m);
    if n == m < |t| { NextEnds(t[..m], t[m..]); }
  }

  lemma FirstTruncated(t: string, m: nat)
    requires t != [] && NextLen(t) <= m <= |t|
    ensures First(t[..m]) == First(t)
  {
    hide NextLen, FirstKind;
    NextTruncated(t, m);
    Slices(t, NextLen(t), m);
  }

  // The first step of Lex and of Ended.
  lemma OneUnit(t: string)
    requires t != []
    ensures Lex(t) == [First(t)] + Lex(t[NextLen(t)..])
    ensures Ended(t) == if NextLen(t) < |t| then Ended(t[NextLen(t)..]) else NextLen(t + "\n") == |t|
    ensures NextLen(t) == |t| ==> Lex(t) == [Unit(FirstKind(t), t)]
  {
    hide NextLen, FirstKind;
    if NextLen(t) == |t| { assert t[..|t|] == t && t[|t|..] == []; }
  }

  // ---------- Dropping a trailing blank ----------

  // us ends in a unit that lost its last character c.
  ghost predicate Shortened(us: seq<Unit>, vs: seq<Unit>, c: char) {
    && |us| == |vs| > 0
    && us[..|us| - 1] == vs[..|us| - 1]
    && us[|us| - 1].kind == vs[|us| - 1].kind && us[|us| - 1].kind in {Comment, Text, Name}
    && vs[|us| - 1].text == us[|us| - 1].text + [c]
    && us[|us| - 1].text != [] && vs[|us| - 1].text[0] == us[|us| - 1].text[0]
    && (us[|us| - 1].kind == Name ==> us[|us| - 1].text[0] == '[')
  }

  ghost predicate Dropped(us: seq<Unit>, vs: seq<Unit>, c: char) {
    vs == us + [Unit(Mark, [c])] || Shortened(us, vs, c)
  }

  lemma {:induction false} DropBlank(t: string, c: char)
    requires IsBlank(c)
    ensures Dropped(Lex(t), Lex(t + [c]), c)
    ensures Ended(t + [c]) ==> Ended(t)
  {
    var v := t + [c];
    if t == [] {
      assert v == [c];
      BlankIsMark(c);
    } else {
      var n := NextLen(v);
      if n < |t| {
        assert v[..|t|] == t;
        NextTruncated(v, |t|);
        assert v[n..] == t[n..] + [c];
        DropBlank(t[n..], c);
        assert v[..n] == t[..n];
        DroppedCons(First(t), Lex(t[n..]), Lex(v[n..]), c);
      } else {
        DropBlankLast(t, c);
      }
    }
  }

  lemma BlankIsMark(c: char)
    requires IsBlank(c)
    ensures Lex([c]) == [Unit(Mark, [c])]
  {
    assert [c][1..] == [] && [c][..1] == [c];
  }

  lemma DroppedCons(u: Unit, us: seq<Unit>, vs: seq<Unit>, c: char)
    requires Dropped(us, vs, c)
    ensures Dropped([u] + us, [u] + vs, c)
  {
    if Shortened(us, vs, c) {
      var n := |us|;
      assert ([u] + us)[..n] == [u] + us[..n - 1] && ([u] + vs)[..n] == [u] + vs[..n - 1];
    } else {
      assert [u] + vs == ([u] + us) + [Unit(Mark, [c])];
    }
  }

  // The unit in front of the blank takes it in or stops before it.
  lemma DropBlankLast(t: string, c: char)
    requires t != [] && IsBlank(c) && NextLen(t + [c]) >= |t|
    ensures Dropped(Lex(t), Lex(t + [c]), c)
    ensures Ended(t + [c]) ==> Ended(t)
  {
    hide NextLen, FirstKind, CommentLen, Lex, Ended;
    var v := t + [c];
    if NextLen(t) < |t| { NextStable(t, [c]); }
    OneUnit(t);
    OneUnit(v);
    if NextLen(v) == |t| {
      NextEnds(t, [c]);
      assert v[|t|..] == [c] && v[..|t|] == t;
      BlankIsMark(c);
    } else {
      LongUnit(t, c);
      if Ended(v) { LongEnded(t, c); }
    }
  }

  lemma LongUnit(t: string, c: char)
    requires t != [] && IsBlank(c) && NextLen(t + [c]) == |t| + 1
    ensures FirstKind(t) == FirstKind(t + [c]) && FirstKind(t) in {Comment, Text, Name}
    ensures FirstKind(t) == Name ==> t[0] == '['
  {
    var v := t + [c];
    if FirstKind(v) == Word { WordStops(t, c); }
    if |t| >= 2 { assert v[..2] == t[..2] && v[2..] == t[2..] + [c]; } else { assert v[..2] == [t[0], c]; }
    if CommentLen(v) > 0 && v[..2] == "--" { assert LineLen(t) == 1 + LineLen(t[1..]); }
  }

  lemma {:induction false} WordStops(t: string, c: char)
    requires !IsWordByte(c)
    ensures WordLen(t + [c]) <= |t|
  {
    if t != [] {
      assert (t + [c])[1..] == t[1..] + [c];
      WordStops(t[1..], c);
    }
  }

  // Only a line comment is complete with a blank at its end.
  lemma LongEnded(t: string, c: char)
    requires t != [] && IsBlank(c) && NextLen(t) == |t|
    requires NextLen(t + [c]) == |t| + 1 && NextLen(t + [c] + "\n") == |t| + 1
    ensures NextLen(t + "\n") == |t|
  {
    var v := t + [c];
    LongUnit(t, c);
    NextEnds(v, "\n");
    assert v[1..] == t[1..] + [c] && (v + "\n")[1..] == v[1..] + ['\n'];
    match FirstKind(v)
    case Text => StringEnds(v[1..], '\n');
    case Name => BracketEnds(v[1..], '\n');
    case Comment => LongComment(t, c);
  }

  lemma LongComment(t: string, c: char)
    requires |t| >= 2 && IsBlank(c) && CommentLen(t) == |t|
    requires CommentLen(t + [c]) == |t| + 1 && CommentLen(t + [c] + "\n") == |t| + 1
    ensures t[..2] == "--" && NextLen(t + "\n") == |t|
  {
    hide BlockLen, LineLen, Closes;
    var v := t + [c];
    assert v[2..] == t[2..] + [c] && (v + "\n")[2..] == v[2..] + ['\n'];
    assert (v + "\n")[..2] == v[..2] == t[..2] == (t + "\n")[..2];
    if t[..2] == "--" {
      LineEnds(t);
    } else {
      BlockEnds(v[2..], 1, '\n');
      ClosesLast(v[2..], 1);
    }
  }

  // A closed comment that takes the whole text ends in '/'.
  lemma {:induction false} ClosesLast(x: string, depth: nat)
    requires Closes(x, depth) && BlockLen(x, depth) == |x|
    ensures x[|x| - 1] == '/'
  {
    if |x| >= 2 && x[..2] == "/*" { ClosesLast(x[2..], depth + 1); }
    else if |x| >= 2 && x[..2] == "*/" {
      if depth > 1 { ClosesLast(x[2..], depth - 1); } else { assert x[..2][1] == x[1]; }
    }
    else { ClosesLast(x[1..], depth); }
  }
}
