// What one unit of a batch is, in characters (the scanners of internal/extensions/batch/batch.go), and which names
// a variable stands for.
module LexLaws {
  import opened Option
  import opened Lexing
  import opened Literals
  import opened SideBySide
  import opened Statements
  import opened Splitter
  import opened SplitLaws
  import Fold

  // ---------- Comments ----------

  // A -- comment ends at its line's end.
  lemma LineComment(x: string, y: string)
    requires '\n' !in x && (y == [] || y[0] == '\n')
    ensures Lex("--" + x + y) == [Unit(Comment, "--" + x)] + Lex(y)
  {
    var t := "--" + x + y;
    assert t[..2] == "--";
    LineOf("--" + x, y);
    CommentOnly(t);
    UnitInFront("--" + x, y);
  }

  lemma {:induction false} LineOf(x: string, y: string)
    requires '\n' !in x && (y == [] || y[0] == '\n')
    ensures LineLen(x + y) == |x|
  {
    if x == [] {
      assert x + y == y;
    } else {
      assert (x + y)[1..] == x[1..] + y && x[0] in x;
      LineOf(x[1..], y);
    }
  }

  // A block comment ends at the mark that closes it; comments nest.
  datatype Piece = Plain(text: string) | Nested(pieces: seq<Piece>)

  predicate Proper(ps: seq<Piece>)
    decreases ps
  {
    ps == [] || (ProperPiece(ps[0]) && Proper(ps[1..]))
  }

  predicate ProperPiece(p: Piece)
    decreases p
  {
    match p
    case Plain(text) => '*' !in text && '/' !in text
    case Nested(pieces) => Proper(pieces)
  }

  function Inside(ps: seq<Piece>): string
    decreases ps
  {
    if ps == [] then "" else Written(ps[0]) + Inside(ps[1..])
  }

  function Written(p: Piece): string
    decreases p
  {
    match p
    case Plain(text) => text
    case Nested(pieces) => "/*" + Inside(pieces) + "*/"
  }

  lemma BlockComment(ps: seq<Piece>, y: string)
    requires Proper(ps)
    ensures Lex(Written(Nested(ps)) + y) == [Unit(Comment, Written(Nested(ps)))] + Lex(y)
  {
    hide Lex, Inside, Proper, BlockLen;
    var x := Written(Nested(ps));
    var t := x + y;
    assert t == "/*" + (Inside(ps) + ("*/" + y));
    assert t[..2] == "/*" && t[2..] == Inside(ps) + ("*/" + y);
    InsideOf(ps, 1, "*/" + y);
    BlockCloses(y);
    CommentOnly(t);
    UnitInFront(x, y);
  }

  lemma BlockCloses(y: string)
    ensures BlockLen("*/" + y, 1) == 2
    ensures forall depth: nat :: depth > 1 ==> BlockLen("*/" + y, depth) == 2 + BlockLen(y, depth - 1)
  {
    var t := "*/" + y;
    assert t[..2] == "*/" && t[2..] == y;
  }

  lemma BlockOpens(y: string, depth: nat)
    ensures BlockLen("/*" + y, depth) == 2 + BlockLen(y, depth + 1)
  {
    var t := "/*" + y;
    assert t[..2] == "/*" && t[2..] == y;
  }

  lemma {:induction false} InsideOf(ps: seq<Piece>, depth: nat, y: string)
    requires Proper(ps) && depth > 0
    requires y != [] && y[0] == '*'
    ensures BlockLen(Inside(ps) + y, depth) == |Inside(ps)| + BlockLen(y, depth)
    decreases ps
  {
    hide BlockLen;
    if ps == [] {
      assert Inside(ps) + y == y;
    } else {
      var rest := Inside(ps[1..]) + y;
      assert Inside(ps) + y == Written(ps[0]) + rest;
      PieceOf(ps[0], depth, rest);
      InsideOf(ps[1..], depth, y);
    }
  }

  lemma {:induction false} PieceOf(p: Piece, depth: nat, y: string)
    requires ProperPiece(p) && depth > 0
    ensures BlockLen(Written(p) + y, depth) == |Written(p)| + BlockLen(y, depth)
    decreases p
  {
    hide BlockLen;
    match p
    case Plain(text) => PlainOf(text, depth, y);
    case Nested(pieces) =>
      assert Written(p) + y == "/*" + (Inside(pieces) + ("*/" + y));
      BlockOpens(Inside(pieces) + ("*/" + y), depth);
      InsideOf(pieces, depth + 1, "*/" + y);
      BlockCloses(y);
  }

  lemma {:induction false} PlainOf(text: string, depth: nat, y: string)
    requires '*' !in text && '/' !in text
    ensures BlockLen(text + y, depth) == |text| + BlockLen(y, depth)
  {
    var t := text + y;
    if text == [] {
      assert t == y;
    } else {
      assert t[1..] == text[1..] + y && t[0] in text;
      if |t| >= 2 { assert t[..2][0] == t[0]; }
      PlainOf(text[1..], depth, y);
    }
  }

  lemma CommentOnly(t: string)
    requires CommentLen(t) > 0
    ensures First(t) == Unit(Comment, t[..CommentLen(t)]) && NextLen(t) == CommentLen(t)
  {
    hide CommentLen;
  }

  // A comment in front of a batch is no part of any statement.
  lemma CommentInFront(x: string, y: string)
    requires x != [] && CommentLen(x + y) == |x|
    ensures SplitText(x + y) == SplitText(y)
  {
    hide *;
    var t, n := x + y, ChunkLen(y);
    CommentOnly(t);
    NotSemicolon(t);
    ChunkUnfold(t);
    assert t[|x|..] == y && t[..|x| + n] == x + y[..n];
    SplitStep(t, |x| + n);
    SplitStep(y, n);
    StillComment(t, |x| + n);
    LeadDrops(x, y[..n]);
    SameLead(x + y[..n], y[..n]);
    if n < |y| { assert t[|x| + n + 1..] == y[n + 1..]; }
  }

  lemma StillComment(t: string, m: nat)
    requires t != [] && 0 < CommentLen(t) <= m <= |t|
    ensures CommentLen(t[..m]) == CommentLen(t)
  {
    hide CommentLen, NextLen, FirstKind;
    CommentOnly(t);
    FirstTruncated(t, m);
    KindIsComment(t[..m]);
  }

  lemma KindIsComment(t: string)
    requires t != [] && First(t).kind == Comment
    ensures CommentLen(t) == |First(t).text|
  {
    hide CommentLen;
  }

  lemma LeadDrops(x: string, y: string)
    requires x != [] && CommentLen(x + y) == |x|
    ensures Lead(x + y) == Lead(y)
  {
    hide CommentLen, Trim;
    var t := x + y;
    assert t[|x|..] == y;
    CommentNotSpace(t);
    assert LeadLen(t) == |x| + LeadLen(y);
    assert t[|x| + LeadLen(y)..] == y[LeadLen(y)..];
  }

  lemma CommentNotSpace(t: string)
    requires CommentLen(t) > 0
    ensures !IsSpace(t[0])
  {
    assert t[..2][0] == t[0];
  }

  // A line comment, its line's end included, and a block comment leave the statements behind them as they are.
  lemma LineCommentInFront(x: string, y: string)
    requires '\n' !in x
    ensures SplitText("--" + x + "\n" + y) == SplitText(y)
  {
    assert IsSpace('\n');
    hide *;
    LineComment(x, "\n" + y);
    CommentUnit("--" + x, "\n" + y);
    assert "--" + x + ("\n" + y) == "--" + x + "\n" + y;
    CommentInFront("--" + x, "\n" + y);
    SpaceInFront('\n', y);
    assert ['\n'] + y == "\n" + y;
  }

  lemma BlockCommentInFront(ps: seq<Piece>, y: string)
    requires Proper(ps)
    ensures SplitText(Written(Nested(ps)) + y) == SplitText(y)
  {
    hide *;
    BlockComment(ps, y);
    Opened(ps);
    CommentUnit(Written(Nested(ps)), y);
    CommentInFront(Written(Nested(ps)), y);
  }

  lemma Opened(ps: seq<Piece>)
    ensures Written(Nested(ps)) != []
  {
  }

  lemma CommentUnit(x: string, y: string)
    requires x != [] && Lex(x + y) == [Unit(Comment, x)] + Lex(y)
    ensures CommentLen(x + y) == |x|
  {
    hide CommentLen, NextLen;
    LexCons(x + y);
    assert Lex(x + y)[0] == First(x + y);
    KindIsComment(x + y);
  }

  // Nor is white space.
  lemma SpaceInFront(c: char, y: string)
    requires IsSpace(c)
    ensures SplitText([c] + y) == SplitText(y)
  {
    hide *;
    var t, n := [c] + y, ChunkLen(y);
    SpaceIsBlank(c);
    SpaceUnit(t);
    NotSeparator(c);
    ChunkUnfold(t);
    assert t[1..] == y && t[..1 + n] == [c] + y[..n];
    SplitStep(t, 1 + n);
    SplitStep(y, n);
    SpaceLead(c, y[..n]);
    SameLead([c] + y[..n], y[..n]);
    if n < |y| { assert t[1 + n + 1..] == y[n + 1..]; }
  }

  lemma NotSeparator(c: char)
    requires IsSpace(c)
    ensures c != ';'
  {
  }

  // ---------- Names ----------

  // A [name] ends at its first closing bracket.
  lemma BracketName(x: string, y: string)
    requires ']' !in x
    ensures Lex("[" + x + "]" + y) == [Unit(Name, "[" + x + "]")] + Lex(y)
  {
    hide Lex;
    var t := "[" + x + "]" + y;
    assert t[1..] == x + ("]" + y) && t[0] == '[';
    BracketOf(x, y);
    BracketOnly(t);
    UnitInFront("[" + x + "]", y);
  }

  lemma {:induction false} BracketOf(x: string, y: string)
    requires ']' !in x
    ensures BracketLen(x + ("]" + y)) == |x| + 1
  {
    if x == [] {
      assert x + ("]" + y) == "]" + y;
    } else {
      assert (x + ("]" + y))[1..] == x[1..] + ("]" + y) && x[0] in x;
      BracketOf(x[1..], y);
    }
  }

  lemma BracketOnly(t: string)
    requires t != [] && t[0] == '['
    ensures First(t) == Unit(Name, t[..NextLen(t)]) && NextLen(t) == 1 + BracketLen(t[1..])
  {
    hide BracketLen;
    if |t| >= 2 { assert t[..2][0] == t[0]; }
  }

  // Letters, digits and _ @ # $ . make words.
  predicate InWord(c: char) {
    || 'a' <= c <= 'z' || 'A' <= c <= 'Z' || '0' <= c <= '9'
    || c == '_' || c == '@' || c == '#' || c == '$' || c == '.'
  }

  lemma WordUnit(x: string, y: string)
    requires x != [] && (forall i :: 0 <= i < |x| ==> InWord(x[i])) && (y == [] || !InWord(y[0]))
    ensures Lex(x + y) == [Unit(Word, x)] + Lex(y)
  {
    WordThen(x, y);
  }

  // Any other character is a unit of its own, but where it opens a string, a [name] or a comment.
  lemma MarkUnit(c: char, y: string)
    requires !InWord(c) && c != '\'' && c != '[' && !(y != [] && [c, y[0]] in {"--", "/*"})
    ensures Lex([c] + y) == [Unit(Mark, [c])] + Lex(y)
  {
    hide Lex;
    var t := [c] + y;
    assert y != [] ==> t[..2] == [c, y[0]];
    assert t[1..] == y && t[..1] == [c];
    UnitInFront([c], y);
  }

  lemma UnitInFront(x: string, y: string)
    requires x != [] && NextLen(x + y) == |x| && First(x + y).text == (x + y)[..|x|]
    ensures Lex(x + y) == [Unit(First(x + y).kind, x)] + Lex(y)
  {
    hide NextLen, FirstKind;
    assert (x + y)[..|x|] == x && (x + y)[|x|..] == y;
    LexCons(x + y);
  }

  // ---------- Variables ----------

  // Two spellings of one name: equal but for A to Z against a to z.
  ghost predicate SameName(a: string, b: string) {
    |a| == |b| && forall i :: 0 <= i < |a| ==>
      a[i] == b[i] || ('A' <= a[i] <= 'Z' && b[i] as int == a[i] as int + 32)
  }

  // @name stands for the variable in any spelling: low is the one it is kept under.
  lemma VariableReads(vars: Vars, name: string, low: string, y: string)
    requires (forall i :: 0 <= i < |name| ==> IsNamePart(name[i])) && (y == [] || !IsNamePart(y[0]))
    requires SameName(name, low) && forall i :: 0 <= i < |low| ==> !('A' <= low[i] <= 'Z')
    ensures Subst(vars, "@" + name + y) == (if low in vars then vars[low] else "@" + name) + Subst(vars, y)
  {
    hide *;
    var t := "@" + name + y;
    assert t[1..] == name + y && t[0] == '@' && t[1 + |name|..] == y && t[1..1 + |name|] == name;
    NameOf(name, y);
    AtSign(t);
    SubstAt(vars, t);
    KeptUnder(name, low);
    BoundTo(vars, name);
  }

  lemma AtSign(t: string)
    requires t != [] && t[0] == '@'
    ensures CommentLen(t) == 0
  {
    if |t| >= 2 { assert t[..2][0] == t[0]; }
  }

  lemma SubstAt(vars: Vars, t: string)
    requires t != [] && t[0] == '@' && CommentLen(t) == 0
    ensures Subst(vars, t) ==
      Bound(vars, t[1..1 + NameLen(t[1..])]) + Subst(vars, t[1 + NameLen(t[1..])..])
  {
    hide CommentLen, NameLen, Bound;
  }

  lemma KeptUnder(name: string, low: string)
    requires SameName(name, low) && forall i :: 0 <= i < |low| ==> !('A' <= low[i] <= 'Z')
    ensures Fold.Key(name) == low
  {
  }

  lemma BoundTo(vars: Vars, name: string)
    ensures Bound(vars, name) == if Fold.Key(name) in vars then vars[Fold.Key(name)] else "@" + name
  {
  }

  lemma {:induction false} NameOf(x: string, y: string)
    requires (forall i :: 0 <= i < |x| ==> IsNamePart(x[i])) && (y == [] || !IsNamePart(y[0]))
    ensures NameLen(x + y) == |x|
  {
    if x == [] {
      assert x + y == y;
    } else {
      assert (x + y)[1..] == x[1..] + y;
      NameOf(x[1..], y);
    }
  }
}
