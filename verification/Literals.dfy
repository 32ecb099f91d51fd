// String literals: printing them (sqlLiteral in internal/wire/rpc.go, quote in internal/extensions/batch/declared.go),
// and the three places that read them back (lex in internal/tsql/lexer.go, unquote in declared.go, skipString and
// substitute in internal/extensions/batch/batch.go).

module Literals {
  import opened Option
  import opened Lexing
  import Fold

  // strings.ReplaceAll(s, "'", "''").
  function Doubled(s: string): string {
    if s == [] then [] else (if s[0] == '\'' then "''" else [s[0]]) + Doubled(s[1..])
  }

  // strings.ReplaceAll(s, "''", "'").
  function Halved(s: string): string {
    if s == [] then []
    else if |s| >= 2 && s[..2] == "''" then "'" + Halved(s[2..])
    else [s[0]] + Halved(s[1..])
  }

  function Quote(s: string): string { "'" + Doubled(s) + "'" }

  // Some quote after the opening one closes the literal.
  predicate Terminated(t: string) {
    t != [] &&
    if t[0] != '\'' then Terminated(t[1..])
    else if |t| >= 2 && t[1] == '\'' then Terminated(t[2..])
    else true
  }

  // ---------- lex ----------

  // The string case of lex, after the opening quote: the token's text and what it spans; None is the
  // error for an unterminated literal.
  function ReadString(t: string): Option<(string, nat)> {
    if t == [] then None
    else if t[0] != '\'' then
      (match ReadString(t[1..])
       case None => None
       case Some(r) => Some(([t[0]] + r.0, r.1 + 1)))
    else if |t| >= 2 && t[1] == '\'' then
      (match ReadString(t[2..])
       case None => None
       case Some(r) => Some(("'" + r.0, r.1 + 2)))
    else Some(("", 1))
  }

  function After(text: string, n: nat, r: Option<(string, nat)>): Option<(string, nat)> {
    if r.Some? then Some((text + r.value.0, n + r.value.1)) else None
  }

  lemma ReadTurn(s: string, j: nat, text: string, n: nat)
    requires j < |s|
    ensures s[j] != '\'' ==> After(text, n, ReadString(s[j..])) == After(text + [s[j]], n + 1, ReadString(s[j + 1..]))
    ensures s[j] == '\'' && j + 1 < |s| && s[j + 1] == '\'' ==>
      After(text, n, ReadString(s[j..])) == After(text + "'", n + 2, ReadString(s[j + 2..]))
    ensures s[j] == '\'' && !(j + 1 < |s| && s[j + 1] == '\'') ==>
      After(text, n, ReadString(s[j..])) == Some((text, n + 1))
  {
    assert s[j..][1..] == s[j + 1..];
    if j + 1 < |s| { assert s[j..][2..] == s[j + 2..]; }
    if s[j] != '\'' && ReadString(s[j + 1..]).Some? {
      var r := ReadString(s[j + 1..]).value.0;
      assert text + ([s[j]] + r) == text + [s[j]] + r;
    } else if j + 1 < |s| && ReadString(s[j + 2..]).Some? {
      var r := ReadString(s[j + 2..]).value.0;
      assert text + ("'" + r) == text + "'" + r;
    }
    assert text + "" == text;
  }

  method LexString(s: string, i: nat) returns (token: Option<(string, nat)>)
    requires i < |s|
    ensures token == ReadString(s[i + 1..])
  {
    hide ReadString;
    var j := i + 1;
    var b := "";
    ReadStarts(s[i + 1..]);
    while j < |s|
      invariant i < j <= |s|
      invariant ReadString(s[i + 1..]) == After(b, j - i - 1, ReadString(s[j..]))
    {
      ReadTurn(s, j, b, j - i - 1);
      if s[j] == '\'' {
        if j + 1 < |s| && s[j + 1] == '\'' {
          b := b + "'";
          j := j + 2;
          continue;
        }
        return Some((b, j - i));
      }
      b := b + [s[j]];
      j := j + 1;
    }
    assert s[j..] == "";
    ReadEmpty();
    token := None;
  }

  lemma ReadStarts(t: string)
    ensures ReadString(t) == After("", 0, ReadString(t))
  {
    hide ReadString;
    if ReadString(t).Some? { assert "" + ReadString(t).value.0 == ReadString(t).value.0; }
  }

  lemma ReadEmpty()
    ensures ReadString("") == None
  {
  }

  // lex and skipString find the same end, and lex's text is what ReplaceAll makes of what lies between.
  lemma {:induction false} ReadersAgree(t: string)
    ensures ReadString(t).Some? <==> Terminated(t)
    ensures Terminated(t) ==> 0 < StringLen(t) <= |t|
    ensures Terminated(t) ==> ReadString(t) == Some((Halved(t[..StringLen(t) - 1]), StringLen(t)))
  {
    if t != [] {
      if t[0] != '\'' {
        ReadersAgree(t[1..]);
        if Terminated(t) {
          var n := StringLen(t);
          assert t[..n - 1][1..] == t[1..][..n - 2] && t[..n - 1][0] == t[0];
          if n > 2 { assert t[..n - 1][..2][0] == t[0]; }
        }
      } else if |t| >= 2 && t[1] == '\'' {
        ReadersAgree(t[2..]);
        if Terminated(t) {
          var n := StringLen(t);
          assert t[..n - 1][2..] == t[2..][..n - 3] && t[..n - 1][..2] == "''";
        }
      } else {
        assert t[..0] == "";
      }
    }
  }

  // ---------- Printing and reading ----------

  lemma {:induction false} HalvedDoubled(x: string)
    ensures Halved(Doubled(x)) == x
  {
    if x != [] {
      HalvedDoubled(x[1..]);
      if x[0] == '\'' {
        assert Doubled(x)[..2] == "''" && Doubled(x)[2..] == Doubled(x[1..]);
      } else {
        assert Doubled(x)[1..] == Doubled(x[1..]);
        if |Doubled(x)| >= 2 { assert Doubled(x)[..2][0] == x[0]; }
      }
    }
  }

  // The text from a doubled string on, one character of the string later.
  lemma DoubledStep(x: string, y: string)
    requires x != []
    ensures var t, rest := Doubled(x) + "'" + y, Doubled(x[1..]) + "'" + y;
      if x[0] == '\'' then |t| >= 2 && t[0] == '\'' && t[1] == '\'' && t[2..] == rest
      else t[0] == x[0] && t[1..] == rest
    ensures |Doubled(x)| == |Doubled(x[1..])| + if x[0] == '\'' then 2 else 1
  {
    var h := if x[0] == '\'' then "''" else [x[0]];
    var d := Doubled(x[1..]);
    assert Doubled(x) == h + d;
    hide Doubled;
    HeadOf(h, d, "'" + y);
    Reassociate(Doubled(x), y);
    Reassociate(d, y);
  }

  lemma Reassociate(a: string, y: string)
    ensures a + "'" + y == a + ("'" + y)
  {
  }

  lemma HeadOf(h: string, a: string, b: string)
    ensures (h + a) + b == h + (a + b) && (h + (a + b))[|h|..] == a + b
    ensures forall i :: 0 <= i < |h| ==> (h + (a + b))[i] == h[i]
  {
  }

  lemma {:induction false} DoubledReads(x: string, y: string)
    requires y == [] || y[0] != '\''
    ensures Terminated(Doubled(x) + "'" + y) && StringLen(Doubled(x) + "'" + y) == |Doubled(x)| + 1
  {
    if x == [] {
      assert Doubled(x) + "'" + y == "'" + y;
    } else {
      hide Doubled;
      DoubledReads(x[1..], y);
      DoubledStep(x, y);
    }
  }

  // The printed literal runs on exactly when another quote follows it.
  lemma {:induction false} QuoteEndsExactly(x: string, y: string)
    ensures StringLen(Doubled(x) + "'" + y) == |Doubled(x)| + 1 <==> (y == [] || y[0] != '\'')
  {
    if y == [] || y[0] != '\'' { DoubledReads(x, y); } else { DoubledRunsOn(x, y); }
  }

  lemma {:induction false} DoubledRunsOn(x: string, y: string)
    requires y != [] && y[0] == '\''
    ensures StringLen(Doubled(x) + "'" + y) > |Doubled(x)| + 1
  {
    if x == [] {
      assert Doubled(x) + "'" + y == "'" + y;
    } else {
      hide Doubled;
      DoubledRunsOn(x[1..], y);
      DoubledStep(x, y);
    }
  }

  // lex reads a printed string as one token with that text.
  lemma LexReadsQuote(x: string, y: string)
    requires y == [] || y[0] != '\''
    ensures ReadString((Quote(x) + y)[1..]) == Some((x, |Quote(x)| - 1))
  {
    var t := Doubled(x) + "'" + y;
    assert (Quote(x) + y)[1..] == t;
    hide Doubled, Halved, ReadString, StringLen, Terminated;
    DoubledReads(x, y);
    HalvedDoubled(x);
    ReadersAgree(t);
    assert t[..|Doubled(x)|] == Doubled(x);
  }

  // skipString steps over it, as one unit.
  lemma QuoteIsOneUnit(x: string, y: string)
    requires y == [] || y[0] != '\''
    ensures First(Quote(x) + y) == Unit(Text, Quote(x)) && Lex(Quote(x) + y) == [Unit(Text, Quote(x))] + Lex(y)
  {
    hide Doubled, StringLen, NextLen, FirstKind;
    var t := Quote(x) + y;
    assert t[1..] == Doubled(x) + "'" + y && t[..2][0] == '\'';
    DoubledReads(x, y);
    NextOf(t);
    OneUnit(t);
    assert t[..|Quote(x)|] == Quote(x) && t[|Quote(x)|..] == y;
  }

  // ---------- unquote ----------

  // A '...' or N'...' literal's text and prefix.
  function Unquote(v: string): Option<(string, string)> {
    var prefix := if v != [] && (v[0] == 'N' || v[0] == 'n') then v[..1] else "";
    var q := v[|prefix|..];
    if |q| < 2 || q[0] != '\'' || 1 + StringLen(q[1..]) != |q| then None
    else Some((Halved(q[1..|q| - 1]), prefix))
  }

  lemma UnquoteQuote(x: string, prefix: string)
    requires prefix in {"", "N", "n"}
    ensures Unquote(prefix + Quote(x)) == Some((x, prefix))
  {
    hide Doubled, Halved, StringLen;
    var v := prefix + Quote(x);
    var q := Quote(x);
    DoubledReads(x, []);
    HalvedDoubled(x);
    assert Doubled(x) + "'" + [] == Doubled(x) + "'" == q[1..];
    assert v[|prefix|..] == q && v[..|prefix|] == prefix;
    assert q[1..|q| - 1] == Doubled(x);
  }

  // A literal that unquote accepts prints back to itself exactly when it is closed.
  lemma UnquoteExactly(v: string)
    requires Unquote(v).Some?
    ensures var r := Unquote(v).value;
      v == r.1 + Quote(r.0) <==> Terminated(v[|r.1| + 1..])
  {
    hide Doubled, Halved, StringLen, Terminated;
    var r := Unquote(v).value;
    var q := v[|r.1|..];
    var body := v[|r.1| + 1..];
    assert q[1..] == body && v == r.1 + ("'" + body) && r.0 == Halved(q[1..|q| - 1]);
    assert q[1..|q| - 1] == body[..|body| - 1];
    if Terminated(body) {
      HalvedBack(body);
      assert body == body[..|body| - 1] + "'";
    }
    if v == r.1 + Quote(r.0) {
      DoubledReads(r.0, []);
      assert v[|r.1| + 1..] == Doubled(r.0) + "'" + [];
    }
  }

  lemma {:induction false} HalvedBack(t: string)
    requires Terminated(t) && StringLen(t) == |t|
    ensures t[|t| - 1] == '\'' && Doubled(Halved(t[..|t| - 1])) == t[..|t| - 1]
  {
    var b := t[..|t| - 1];
    if t[0] != '\'' {
      HalvedBack(t[1..]);
      assert b[1..] == t[1..][..|t| - 2];
      HalvedChar(b);
    } else if |t| >= 2 && t[1] == '\'' {
      HalvedBack(t[2..]);
      assert b[2..] == t[2..][..|t| - 3] && b[..2] == "''";
      HalvedQuote(b);
    } else {
      assert b == [];
    }
  }

  lemma HalvedQuote(b: string)
    requires |b| >= 2 && b[..2] == "''"
    ensures Doubled(Halved(b)) == "''" + Doubled(Halved(b[2..]))
  {
    hide Doubled;
    DoubledCons('\'', Halved(b[2..]));
    assert "'" + Halved(b[2..]) == ['\''] + Halved(b[2..]);
  }

  lemma HalvedChar(b: string)
    requires b != [] && b[0] != '\''
    ensures Doubled(Halved(b)) == [b[0]] + Doubled(Halved(b[1..]))
  {
    hide Doubled;
    if |b| >= 2 { assert b[..2][0] == b[0]; }
    DoubledCons(b[0], Halved(b[1..]));
  }

  lemma DoubledCons(c: char, x: string)
    ensures Doubled([c] + x) == (if c == '\'' then "''" else [c]) + Doubled(x)
  {
    assert ([c] + x)[1..] == x;
  }

  // An unclosed literal is accepted and loses its last character.
  lemma UnquoteDropsCharacter()
    ensures Unquote("'abc") == Some(("ab", ""))
  {
    var q := "'abc";
    assert q[0..] == q && q[1..] == "abc" && "abc"[1..] == "bc" && "bc"[1..] == "c" && "c"[1..] == "";
    assert StringLen("c") == 1 && StringLen("bc") == 2 && StringLen("abc") == 3;
    assert q[1..3] == "ab" && "ab"[1..] == "b" && "b"[1..] == "" && "ab"[..2] == "ab";
    assert Halved("b") == "b" && Halved("ab") == "ab";
  }

  // ---------- substitute ----------

  type Vars = map<string, string>

  function NameLen(t: string): (n: nat)
    ensures n <= |t|
  {
    if t == [] || !IsNamePart(t[0]) then 0 else 1 + NameLen(t[1..])
  }

  // The value of a bound variable; an unknown one is left as it is.
  function Bound(vars: Vars, name: string): string {
    if Fold.Key(name) in vars then vars[Fold.Key(name)] else "@" + name
  }

  function Subst(vars: Vars, t: string): string {
    if t == [] then []
    else if CommentLen(t) > 0 || t[0] == '\'' || t[0] == '[' then t[..NextLen(t)] + Subst(vars, t[NextLen(t)..])
    else if t[0] == '@' then Bound(vars, t[1..1 + NameLen(t[1..])]) + Subst(vars, t[1 + NameLen(t[1..])..])
    else [t[0]] + Subst(vars, t[1..])
  }

  lemma SubstTurn(vars: Vars, s: string, i: nat)
    requires i < |s|
    ensures var t := s[i..];
      if CommentLen(t) > 0 || s[i] == '\'' || s[i] == '[' then
        Subst(vars, t) == s[i..i + NextLen(t)] + Subst(vars, s[i + NextLen(t)..])
      else if s[i] == '@' then
        Subst(vars, t) ==
        Bound(vars, s[i + 1..i + 1 + NameLen(s[i + 1..])]) + Subst(vars, s[i + 1 + NameLen(s[i + 1..])..])
      else Subst(vars, t) == [s[i]] + Subst(vars, s[i + 1..])
  {
    hide NextLen, CommentLen, NameLen, Bound;
    var t := s[i..];
    assert t[1..] == s[i + 1..] && t[..NextLen(t)] == s[i..i + NextLen(t)] && t[NextLen(t)..] == s[i + NextLen(t)..];
    var n := NameLen(t[1..]);
    assert t[1..1 + n] == s[i + 1..i + 1 + n] && t[1 + n..] == s[i + 1 + n..];
  }

  method SkipName(s: string, i: nat) returns (j: nat)
    requires i <= |s|
    ensures j == i + NameLen(s[i..]) && j <= |s|
  {
    j := i;
    while j < |s| && IsNamePart(s[j])
      invariant i <= j <= |s| && i + NameLen(s[i..]) == j + NameLen(s[j..])
    {
      assert s[j..][1..] == s[j + 1..];
      j := j + 1;
    }
  }

  lemma Appended(b: string, x: string, rest: string)
    ensures b + (x + rest) == (b + x) + rest
  {
  }

  method Substitute(s: string, vars: Vars) returns (b: string)
    ensures b == Subst(vars, s)
  {
    hide NextLen, NameLen, Subst, Bound, CommentLen, StringLen, BracketLen;
    if |vars| == 0 {
      SubstNothing(vars, s);
      return s;
    }
    b := "";
    var i := 0;
    assert s[0..] == s;
    while i < |s|
      invariant i <= |s| && Subst(vars, s) == b + Subst(vars, s[i..])
    {
      SubstTurn(vars, s, i);
      NextOf(s[i..]);
      assert s[i..][1..] == s[i + 1..];
      var j := SkipComment(s, i);
      var x;
      if j > i {
        x := s[i..j];
      } else if s[i] == '\'' {
        j := SkipString(s, i);
        x := s[i..j];
      } else if s[i] == '[' {
        j := SkipBracket(s, i);
        x := s[i..j];
      } else if s[i] == '@' {
        j := SkipName(s, i + 1);
        x := Bound(vars, s[i + 1..j]);
      } else {
        j := i + 1;
        x := [s[i]];
      }
      Appended(b, x, Subst(vars, s[j..]));
      b := b + x;
      i := j;
    }
    assert s[i..] == [];
    SubstEmpty(vars);
  }

  lemma SubstEmpty(vars: Vars)
    ensures Subst(vars, []) == []
  {
  }

  lemma {:induction false} SubstNothing(vars: Vars, t: string)
    requires |vars| == 0
    ensures Subst(vars, t) == t
  {
    hide NextLen, CommentLen, NameLen;
    if t != [] {
      var n := NameLen(t[1..]);
      if CommentLen(t) > 0 || t[0] == '\'' || t[0] == '[' { SubstNothing(vars, t[NextLen(t)..]); }
      else if t[0] == '@' {
        SubstNothing(vars, t[1 + n..]);
        assert t == "@" + t[1..1 + n] + t[1 + n..];
      } else { SubstNothing(vars, t[1..]); }
    }
  }

  // The same within one word.
  function SubstWord(vars: Vars, w: string): string {
    if w == [] then []
    else if w[0] == '@' then Bound(vars, w[1..1 + NameLen(w[1..])]) + SubstWord(vars, w[1 + NameLen(w[1..])..])
    else [w[0]] + SubstWord(vars, w[1..])
  }

  function SubstUnits(vars: Vars, us: seq<Unit>): string {
    if us == [] then []
    else (if us[0].kind == Word then SubstWord(vars, us[0].text) else us[0].text) + SubstUnits(vars, us[1..])
  }

  // Only words change: comments, strings, [names] and punctuation come out as they went in.
  lemma {:induction false} SubstByUnits(vars: Vars, t: string)
    ensures Subst(vars, t) == SubstUnits(vars, Lex(t))
  {
    hide NextLen, FirstKind, CommentLen, NameLen, Bound, SubstWord;
    if t != [] {
      OneUnit(t);
      NextOf(t);
      SubstByUnits(vars, t[NextLen(t)..]);
      assert Lex(t)[1..] == Lex(t[NextLen(t)..]);
      if FirstKind(t) == Word { WordSubst(vars, t); }
    }
  }

  lemma {:induction false} NameInWord(t: string)
    ensures NameLen(t) <= WordLen(t) && NameLen(t[..WordLen(t)]) == NameLen(t)
  {
    if t != [] && IsNamePart(t[0]) {
      NameInWord(t[1..]);
      assert t[..WordLen(t)][1..] == t[1..][..WordLen(t[1..])];
    }
  }

  lemma {:induction false} WordSkips(t: string, n: nat)
    requires n <= WordLen(t)
    ensures WordLen(t[n..]) == WordLen(t) - n
  {
    if n == 0 { assert t[0..] == t; } else {
      WordSkips(t[1..], n - 1);
      assert t[1..][n - 1..] == t[n..];
    }
  }

  lemma PlainWordByte(t: string)
    requires t != [] && IsWordByte(t[0])
    ensures CommentLen(t) == 0 && t[0] != '\'' && t[0] != '['
  {
    if |t| >= 2 { assert t[..2][0] == t[0]; }
  }

  lemma {:induction false} WordSubst(vars: Vars, t: string)
    ensures Subst(vars, t) == SubstWord(vars, t[..WordLen(t)]) + Subst(vars, t[WordLen(t)..])
  {
    hide WordLen, NameLen, Subst, SubstWord, CommentLen, Bound;
    var n := WordLen(t);
    WordStarts(t);
    if n == 0 {
      assert t[0..] == t && t[..0] == [];
      WordOver(vars);
    } else {
      var k := if t[0] == '@' then 1 + NameLen(t[1..]) else 1;
      NameInWord(t[1..]);
      WordSkips(t, k);
      WordSubst(vars, t[k..]);
      WordSlices(t, n, k);
      WordTurn(vars, t, n, k);
      var x := if t[0] == '@' then Bound(vars, t[1..k]) else [t[0]];
      Appended(x, SubstWord(vars, t[..n][k..]), Subst(vars, t[n..]));
    }
  }

  lemma WordStarts(t: string)
    ensures WordLen(t) > 0 <==> t != [] && IsWordByte(t[0])
    ensures WordLen(t) > 0 ==> WordLen(t) == 1 + WordLen(t[1..])
  {
  }

  lemma WordOver(vars: Vars)
    ensures SubstWord(vars, []) == []
  {
  }

  // One step of both functions in a word.
  lemma WordTurn(vars: Vars, t: string, n: nat, k: nat)
    requires t != [] && IsWordByte(t[0]) && 0 < k <= n <= |t|
    requires k == if t[0] == '@' then 1 + NameLen(t[1..]) else 1
    requires t[0] == '@' ==> NameLen(t[..n][1..]) == NameLen(t[1..])
    ensures var x := if t[0] == '@' then Bound(vars, t[1..k]) else [t[0]];
      Subst(vars, t) == x + Subst(vars, t[k..]) && SubstWord(vars, t[..n]) == x + SubstWord(vars, t[..n][k..])
  {
    hide NameLen, CommentLen, Bound;
    PlainWordByte(t);
    WordSlices(t, n, k);
  }

  lemma WordSlices(t: string, n: nat, k: nat)
    requires 0 < k <= n <= |t|
    ensures t[..n][1..] == t[1..][..n - 1] && t[..n][k..] == t[k..][..n - k] && t[k..][n - k..] == t[n..]
    ensures t[..n][1..k] == t[1..k] && t[..n][0] == t[0]
  {
  }

  // In particular a literal comes out as it went in.
  lemma SubstKeepsQuote(vars: Vars, x: string, y: string)
    requires y == [] || y[0] != '\''
    ensures Subst(vars, Quote(x) + y) == Quote(x) + Subst(vars, y)
  {
    hide Subst, Quote, Lex;
    QuoteIsOneUnit(x, y);
    SubstByUnits(vars, Quote(x) + y);
    SubstByUnits(vars, y);
    assert ([Unit(Text, Quote(x))] + Lex(y))[1..] == Lex(y);
  }
}
