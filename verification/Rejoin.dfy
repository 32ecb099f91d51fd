// What the statement splitter keeps: every unit of the batch, whole and in order; and splitting the pieces
// joined again gives the same pieces.

module Rejoin {
  import opened Option
  import opened Lexing
  import opened Statements

  // ---------- The words before a cut ----------

  // The j-th unit is the k-th word; the words up to it, and with it.
  ghost predicate IsNth(us: seq<Unit>, at: nat, depth: nat, k: nat, j: nat) {
    && k < |WordsOf(us, at, depth)| && j < |us| && IsWordUnit(us[j])
    && var w := WordsOf(us, at, depth)[k];
    && w.at == at + |Concat(us[..j])| && w.end == at + |Concat(us[..j + 1])|
    && WordsOf(us[..j], at, depth) == WordsOf(us, at, depth)[..k]
    && WordsOf(us[..j + 1], at, depth) == WordsOf(us, at, depth)[..k] + [w.(parenAfter := false)]
  }

  lemma {:induction false} WordUnit(us: seq<Unit>, at: nat, depth: nat, k: nat) returns (j: nat)
    requires k < |WordsOf(us, at, depth)|
    ensures IsNth(us, at, depth, k, j)
  {
    hide IsNth;
    WordsUnfold(us, at, depth);
    if IsWordUnit(us[0]) && k == 0 {
      j := 0;
      FirstWord(us, at, depth);
    } else {
      var i := if IsWordUnit(us[0]) then k - 1 else k;
      j := WordUnit(us[1..], at + |us[0].text|, Deeper(depth, us[0]), i);
      j := j + 1;
      NextWord(us, at, depth, i, j);
    }
  }

  lemma WordsUnfold(us: seq<Unit>, at: nat, depth: nat)
    requires us != []
    ensures WordsOf(us, at, depth) ==
      (if IsWordUnit(us[0]) then [WordAt(us[0].text, at, at + |us[0].text|, depth, ParenNext(us[1..]))] else []) +
      WordsOf(us[1..], at + |us[0].text|, Deeper(depth, us[0]))
  {
  }

  lemma FirstWord(us: seq<Unit>, at: nat, depth: nat)
    requires us != [] && IsWordUnit(us[0])
    ensures IsNth(us, at, depth, 0, 0)
  {
    assert us[..0] == [] && us[..1] == [us[0]];
    OneWord(us[0], at, depth);
    assert Concat(us[..1]) == us[0].text + Concat([]);
  }

  lemma NextWord(us: seq<Unit>, at: nat, depth: nat, i: nat, j: nat)
    requires us != [] && 0 < j && IsNth(us[1..], at + |us[0].text|, Deeper(depth, us[0]), i, j - 1)
    ensures IsNth(us, at, depth, if IsWordUnit(us[0]) then i + 1 else i, j)
  {
    hide WordsOf, Concat, ParenNext, Deeper;
    var end, next := at + |us[0].text|, Deeper(depth, us[0]);
    WordsUnfold(us, at, depth);
    PrefixStep(us, at, depth, j);
    PrefixStep(us, at, depth, j + 1);
    ParenStops(us[1..], j - 1);
    assert us[j] == us[1..][j - 1];
    assert |us[0].text + Concat(us[1..][..j - 1])| == |us[0].text| + |Concat(us[1..][..j - 1])|;
    if IsWordUnit(us[0]) {
      var ws := WordsOf(us, at, depth);
      assert ws[..i + 1] == [ws[0]] + WordsOf(us[1..], end, next)[..i];
    }
  }

  lemma OneWord(u: Unit, at: nat, depth: nat)
    requires IsWordUnit(u)
    ensures WordsOf([u], at, depth) == [WordAt(u.text, at, at + |u.text|, depth, false)]
  {
    assert [u][1..] == [];
  }

  lemma PrefixStep(us: seq<Unit>, at: nat, depth: nat, j: nat)
    requires 0 < j <= |us|
    ensures us[..j][1..] == us[1..][..j - 1]
    ensures Concat(us[..j]) == us[0].text + Concat(us[1..][..j - 1])
    ensures WordsOf(us[..j], at, depth) ==
      (if IsWordUnit(us[0])
       then [WordAt(us[0].text, at, at + |us[0].text|, depth, ParenNext(us[1..][..j - 1]))] else []) +
      WordsOf(us[1..][..j - 1], at + |us[0].text|, Deeper(depth, us[0]))
  {
    assert us[..j][1..] == us[1..][..j - 1];
  }

  // Looking for '(' never goes past a word.
  lemma {:induction false} ParenStops(us: seq<Unit>, j: nat)
    requires j < |us| && IsWordUnit(us[j])
    ensures ParenNext(us[..j]) == ParenNext(us) && ParenNext(us[..j + 1]) == ParenNext(us)
  {
    assert us[..j + 1][1..] == us[1..][..j];
    if j > 0 {
      assert us[..j][1..] == us[1..][..j - 1];
      ParenStops(us[1..], j - 1);
    }
  }

  // ---------- A statement cut off stays one statement ----------

  // A verdict to go on does not depend on what follows the next word.
  lemma JudgePrefix(st: State, ws: seq<WordAt>, i: nat, k: nat, more: seq<WordAt>)
    requires 0 < i < k < |ws|
    requires Judge(st, ws, i).Go?
    requires k == i + 1 ==> !Judge(Judge(st, ws, i).st, ws, k).Go?
    requires more == [] || (|more| == 1 && more[0].text == ws[k].text)
    ensures Judge(st, ws[..k] + more, i) == Judge(st, ws, i)
  {
    hide JudgeWord;
    var vs := ws[..k] + more;
    assert vs[i] == ws[i] && vs[i - 1] == ws[i - 1];
    assert i + 1 < |vs| ==> vs[i + 1].text == ws[i + 1].text;
    var u, prev := Upper(ws[i].text), Upper(ws[i - 1].text);
    TiesGoesOn(st, u, u == "WITH" && ws[i].parenAfter, prev);
  }

  // TIES matters to SELECT ... WITH alone, which then goes on past TIES.
  lemma TiesGoesOn(st: State, u: string, hint: bool, prev: string)
    ensures JudgeWord(st, u, hint, prev, true) != JudgeWord(st, u, hint, prev, false) ==>
      JudgeWord(st, u, hint, prev, true) == Go(st) &&
      forall h, p, t :: JudgeWord(st, "TIES", h, p, t) == Go(st)
  {
  }

  // Where it stops, and that it does not stop earlier or later on the words up to there.
  lemma {:induction false} Stopper(ws: seq<WordAt>, i: nat, st: State) returns (k: nat)
    requires 0 < i <= |ws| && StopFrom(ws, i, st).Some?
    ensures i <= k < |ws|
    ensures
      || (StopFrom(ws, i, st).value == ws[k].at && StopFrom(ws[..k], i, st) == None)
      || (StopFrom(ws, i, st).value == ws[k].end &&
          StopFrom(ws[..k] + [ws[k].(parenAfter := false)], i, st) == Some(ws[k].end))
    ensures i < k ==> Judge(st, ws, i).Go?
    ensures i == k ==> !Judge(st, ws, i).Go?
    decreases |ws| - i
  {
    match Judge(st, ws, i)
    case Before => k := i;
    case After =>
      k := i;
      AfterAlone(st, ws, i);
    case Go(next) =>
      k := Stopper(ws, i + 1, next);
      JudgePrefix(st, ws, i, k, []);
      JudgePrefix(st, ws, i, k, [ws[k].(parenAfter := false)]);
      assert ws[..k] + [] == ws[..k];
  }

  lemma AfterAlone(st: State, ws: seq<WordAt>, i: nat)
    requires 0 < i < |ws| && Judge(st, ws, i) == After
    ensures StopFrom(ws[..i] + [ws[i].(parenAfter := false)], i, st) == Some(ws[i].end)
  {
    var vs := ws[..i] + [ws[i].(parenAfter := false)];
    assert vs[i] == ws[i].(parenAfter := false);
    assert Judge(st, vs, i) == After;
  }

  // The statement statementEnd cuts off, read by itself, is one statement.
  lemma CutIsWhole(s: string) returns (j: nat)
    requires s != []
    ensures j <= |Lex(s)| && CutLen(s) == |Take(s, j)| <= |s|
    ensures CutLen(s[..CutLen(s)]) == CutLen(s)
  {
    hide StopFrom, WordsOf, Lex, Concat;
    var us := Lex(s);
    ConcatLex(s);
    var ws := WordsIn(s);
    if ws == [] || Stop(ws).None? {
      j := |us|;
      assert us[..j] == us && s[..|s|] == s;
    } else {
      var k := Stopper(ws, 1, Opening(ws));
      j := WordUnit(us, 0, 0, k);
      LexTake(s, j);
      LexTake(s, j + 1);
      assert ws[..k][0] == ws[0] && (ws[..k] + [ws[k].(parenAfter := false)])[0] == ws[0];
      if Stop(ws).value != ws[k].at { j := j + 1; }
    }
  }

  // ---------- Blanks at the end do not count ----------

  // The same words but for a shorter text of a last, unterminated [name].
  ghost predicate Close(ws: seq<WordAt>, vs: seq<WordAt>) {
    && |ws| == |vs|
    && (forall i :: 0 <= i < |ws| - 1 ==> ws[i] == vs[i])
    && (ws != [] ==>
        var a, b := ws[|ws| - 1], vs[|ws| - 1];
        || a == b
        || (a.text != [] && b.text != [] && a.text[0] == '[' == b.text[0] && b == a.(text := b.text, end := a.end + 1)))
  }

  lemma {:induction false} ParenDropped(us: seq<Unit>, vs: seq<Unit>, c: char)
    requires IsBlank(c) && Dropped(us, vs, c)
    ensures ParenNext(us) == ParenNext(vs)
  {
    if us == [] {
      assert vs == [Unit(Mark, [c])];
    } else if us[1..] == [] && vs != us + [Unit(Mark, [c])] {
    } else {
      DroppedRest(us, vs, c);
      ParenDropped(us[1..], vs[1..], c);
    }
  }

  lemma DroppedRest(us: seq<Unit>, vs: seq<Unit>, c: char)
    requires us != [] && Dropped(us, vs, c) && (us[1..] != [] || vs == us + [Unit(Mark, [c])])
    ensures vs != [] && vs[0] == us[0] && Dropped(us[1..], vs[1..], c)
  {
    if vs == us + [Unit(Mark, [c])] {
      assert vs[1..] == us[1..] + [Unit(Mark, [c])];
    } else {
      assert us[1..][..|us| - 2] == us[..|us| - 1][1..] && vs[1..][..|us| - 2] == vs[..|us| - 1][1..];
      assert us[0] == us[..|us| - 1][0] && vs[0] == vs[..|us| - 1][0];
    }
  }

  lemma {:induction false} WordsDropped(us: seq<Unit>, vs: seq<Unit>, c: char, at: nat, depth: nat)
    requires IsBlank(c) && Dropped(us, vs, c)
    ensures Close(WordsOf(us, at, depth), WordsOf(vs, at, depth))
  {
    hide WordsOf, ParenNext, Deeper, Dropped;
    if us == [] || (us[1..] == [] && vs != us + [Unit(Mark, [c])]) {
      LastDropped(us, vs, c, at, depth);
    } else {
      DroppedRest(us, vs, c);
      WordsUnfold(us, at, depth);
      WordsUnfold(vs, at, depth);
      ParenDropped(us[1..], vs[1..], c);
      WordsDropped(us[1..], vs[1..], c, at + |us[0].text|, Deeper(depth, us[0]));
    }
  }

  lemma LastDropped(us: seq<Unit>, vs: seq<Unit>, c: char, at: nat, depth: nat)
    requires IsBlank(c) && Dropped(us, vs, c)
    requires us == [] || (us[1..] == [] && vs != us + [Unit(Mark, [c])])
    ensures Close(WordsOf(us, at, depth), WordsOf(vs, at, depth))
  {
    assert |vs| == 1 && vs[1..] == [] && (us == [] ==> vs[0] == Unit(Mark, [c]));
    assert us != [] ==> us[0] == us[|us| - 1] && vs[0] == vs[|us| - 1];
    if us != [] { WordsUnfold(us, at, depth); }
    WordsUnfold(vs, at, depth);
  }

  lemma JudgeClose(st: State, ws: seq<WordAt>, vs: seq<WordAt>, i: nat)
    requires Close(ws, vs) && 0 < i < |ws|
    ensures Judge(st, ws, i) == Judge(st, vs, i)
  {
    hide Upper, JudgeWord;
    assert ws[i - 1] == vs[i - 1];
    if i + 1 < |ws| { NotTies(ws[i + 1].text, vs[i + 1].text); }
    NameIsNoKeyword(st, ws[i].text, vs[i].text, Upper(ws[i - 1].text), i + 1 < |ws| && Upper(ws[i + 1].text) == "TIES");
  }

  ghost predicate Names(a: string, b: string) { a != [] && b != [] && a[0] == '[' == b[0] }

  // A text that opens with '[' is no keyword.
  lemma NotTies(a: string, b: string)
    requires a == b || Names(a, b)
    ensures (Upper(a) == "TIES") == (Upper(b) == "TIES")
  {
  }

  lemma NameIsNoKeyword(st: State, a: string, b: string, prev: string, ties: bool)
    requires a == b || Names(a, b)
    ensures (Upper(a) == "WITH") == (Upper(b) == "WITH")
    ensures forall hint :: JudgeWord(st, Upper(a), hint, prev, ties) == JudgeWord(st, Upper(b), hint, prev, ties)
  {
    hide IsLead;
    if a != b {
      NotLead(Upper(a));
      NotLead(Upper(b));
    }
  }

  lemma NotLead(u: string)
    requires u != [] && u[0] == '['
    ensures !IsLead(u)
  {
  }

  lemma {:induction false} StopClose(ws: seq<WordAt>, vs: seq<WordAt>, i: nat, st: State)
    requires Close(ws, vs) && 0 < i <= |ws|
    ensures
      || StopFrom(ws, i, st) == StopFrom(vs, i, st)
      || (StopFrom(ws, i, st).Some? && StopFrom(vs, i, st) == Some(StopFrom(ws, i, st).value + 1))
    decreases |ws| - i
  {
    hide Judge;
    if i < |ws| {
      JudgeClose(st, ws, vs, i);
      if Judge(st, ws, i).Go? { StopClose(ws, vs, i + 1, Judge(st, ws, i).st); }
    }
  }

  lemma DropKeepsWhole(t: string, c: char)
    requires IsBlank(c) && CutLen(t + [c]) == |t| + 1
    ensures CutLen(t) == |t|
  {
    hide WordsOf, StopFrom, Lex, Dropped;
    DropBlank(t, c);
    WordsDropped(Lex(t), Lex(t + [c]), c, 0, 0);
    var ws, vs := WordsIn(t), WordsIn(t + [c]);
    if |ws| > 0 {
      if t == [] { EmptyHasNoWords(); } else { CutLenBounds(t); }
      if |ws| == 1 {
        OneStops(ws, Opening(ws));
      } else {
        assert Opening(ws) == Opening(vs) && CutLen(t) <= |t|;
        StopClose(ws, vs, 1, Opening(ws));
      }
    }
  }

  lemma EmptyHasNoWords()
    ensures WordsIn([]) == []
  {
  }

  lemma OneStops(ws: seq<WordAt>, st: State)
    requires |ws| == 1
    ensures StopFrom(ws, 1, st) == None
  {
  }

  const SEMICOLON := Unit(Mark, ";")

  // The units that carry meaning, without blanks at the end of an unterminated one.
  predicate Carries(u: Unit) { u.kind != Comment && !IsBlankMark(u) && u != SEMICOLON }

  function Sense(us: seq<Unit>): seq<Unit> {
    if us == [] then []
    else (if Carries(us[0]) then [us[0].(text := RTrim(us[0].text))] else []) + Sense(us[1..])
  }

  lemma {:induction false} SenseAppend(us: seq<Unit>, vs: seq<Unit>)
    ensures Sense(us + vs) == Sense(us) + Sense(vs)
  {
    if us == [] {
      assert us + vs == vs;
    } else {
      hide Sense;
      SenseAppend(us[1..], vs);
      SenseTurn(us, vs);
    }
  }

  lemma SenseTurn(us: seq<Unit>, vs: seq<Unit>)
    requires us != [] && Sense(us[1..] + vs) == Sense(us[1..]) + Sense(vs)
    ensures Sense(us + vs) == Sense(us) + Sense(vs)
  {
    hide Carries, RTrim, Sense;
    var x, rest := us[0], us[1..];
    assert us + vs == [x] + (rest + vs);
    SenseUnfold(x, rest + vs);
    SenseUnfold(x, rest);
    assert us == [x] + rest;
  }

  lemma SenseUnfold(x: Unit, rest: seq<Unit>)
    ensures Sense([x] + rest) == (if Carries(x) then [x.(text := RTrim(x.text))] else []) + Sense(rest)
  {
    assert ([x] + rest)[1..] == rest;
  }

  lemma SenseOne(u: Unit)
    ensures Sense([u]) == if Carries(u) then [u.(text := RTrim(u.text))] else []
  {
    assert [u][1..] == [];
  }

  lemma SenseDropped(us: seq<Unit>, vs: seq<Unit>, c: char)
    requires IsBlank(c) && Dropped(us, vs, c)
    ensures Sense(us) == Sense(vs)
  {
    hide Sense, RTrim;
    if vs == us + [Unit(Mark, [c])] {
      SenseAppend(us, [Unit(Mark, [c])]);
      SenseOne(Unit(Mark, [c]));
    } else {
      var n := |us| - 1;
      assert us == us[..n] + [us[n]] && vs == vs[..n] + [vs[n]];
      SenseAppend(us[..n], [us[n]]);
      SenseAppend(vs[..n], [vs[n]]);
      SenseOne(us[n]);
      SenseOne(vs[n]);
      RTrimMore(us[n].text, c);
    }
  }

  lemma RTrimMore(x: string, c: char)
    requires IsBlank(c)
    ensures RTrim(x + [c]) == RTrim(x)
  {
    assert (x + [c])[..|x|] == x;
  }

  // What trimming the end of a statement keeps.
  lemma {:induction false} TrimKeeps(t: string)
    ensures CutLen(t) == |t| ==> CutLen(RTrim(t)) == |RTrim(t)|
    ensures SEMICOLON !in Lex(t) ==> SEMICOLON !in Lex(RTrim(t))
    ensures Ended(t) ==> Ended(RTrim(t))
    ensures Sense(Lex(RTrim(t))) == Sense(Lex(t))
  {
    if t != [] && IsBlank(t[|t| - 1]) {
      hide CutLen, Lex, Ended, Sense;
      var c, u := t[|t| - 1], t[..|t| - 1];
      assert t == u + [c];
      TrimKeeps(u);
      DropBlank(u, c);
      SenseDropped(Lex(u), Lex(t), c);
      if SEMICOLON !in Lex(t) { SemicolonDropped(Lex(u), Lex(t), c); }
      if CutLen(t) == |t| { DropKeepsWhole(u, c); }
    }
  }

  lemma SemicolonDropped(us: seq<Unit>, vs: seq<Unit>, c: char)
    requires Dropped(us, vs, c) && SEMICOLON !in vs
    ensures SEMICOLON !in us
  {
    if Shortened(us, vs, c) {
      forall i | 0 <= i < |us| ensures us[i] != SEMICOLON {
        if i < |us| - 1 { assert us[i] == us[..|us| - 1][i] == vs[..|us| - 1][i]; }
      }
    }
  }
}
