// LIKE: the one-loop matcher of internal/exec/exec.go and what a pattern means.

module Like {
  import opened Option
  import opened Fold

  // ---------- What a pattern is ----------

  datatype Item = Single(c: char) | Range(lo: char, hi: char)

  datatype Token =
    | AnyRun                             // %
    | AnyOne                             // _
    | One(c: char)                       // a literal, or an escaped character
    | Class(neg: bool, items: seq<Item>) // [set], [^set]
    | Dangling                           // an escape with nothing after it

  datatype Member = Member(c: char, plain: bool)

  predicate InItem(item: Item, c: char) {
    match item
    case Single(d) => c == d
    case Range(lo, hi) => lo <= c <= hi
  }

  predicate InSome(items: seq<Item>, c: char) {
    exists i :: 0 <= i < |items| && InItem(items[i], c)
  }

  // The members of a class from index i up to its closing bracket, and the index of that bracket
  // (|p| when it is missing). A ']' in first place is a member.
  function Members(p: string, i: nat, start: nat, esc: Option<char>): (r: (seq<Member>, nat))
    requires i <= |p|
    ensures i <= r.1 <= |p|
    decreases |p| - i
  {
    if i == |p| || (p[i] == ']' && i != start) then ([], i)
    else if esc == Some(p[i]) && i + 1 < |p| then
      var (ms, end) := Members(p, i + 2, start, esc);
      ([Member(p[i + 1], true)] + ms, end)
    else
      var (ms, end) := Members(p, i + 1, start, esc);
      ([Member(p[i], false)] + ms, end)
  }

  // a-f is a range unless its dash was escaped.
  function Items(ms: seq<Member>): seq<Item> {
    if ms == [] then []
    else if |ms| >= 3 && ms[1].c == '-' && !ms[1].plain then
      [Range(ms[0].c, ms[2].c)] + Items(ms[3..])
    else [Single(ms[0].c)] + Items(ms[1..])
  }

  // The first token of a pattern and the length it takes. An unclosed '[' is a plain character.
  function NextToken(p: string, esc: Option<char>): (r: (Token, nat))
    requires p != []
    ensures 1 <= r.1 <= |p|
  {
    if esc == Some(p[0]) then (if |p| < 2 then (Dangling, 1) else (One(p[1]), 2))
    else if p[0] == '%' then (AnyRun, 1)
    else if p[0] == '_' then (AnyOne, 1)
    else if p[0] == '[' then
      var neg := 1 < |p| && p[1] == '^';
      var start := if neg then 2 else 1;
      var (ms, end) := Members(p, start, start, esc);
      if end == |p| then (One('['), 1) else (Class(neg, Items(ms)), end + 1)
    else (One(p[0]), 1)
  }

  function Tokens(p: string, esc: Option<char>): seq<Token> {
    if p == [] then []
    else var (t, n) := NextToken(p, esc); [t] + Tokens(p[n..], esc)
  }

  predicate Accepts(t: Token, c: char) {
    match t
    case AnyRun => true
    case AnyOne => true
    case One(d) => c == d
    case Class(neg, items) => InSome(items, c) != neg
    case Dangling => false
  }

  // ---------- What a pattern means ----------

  ghost predicate Denotes(t: Token, piece: string) {
    t.AnyRun? || (|piece| == 1 && Accepts(t, piece[0]))
  }

  function Concat(pieces: seq<string>): string {
    if pieces == [] then [] else pieces[0] + Concat(pieces[1..])
  }

  ghost predicate Splits(ts: seq<Token>, pieces: seq<string>, s: string) {
    |pieces| == |ts| && Concat(pieces) == s && forall i :: 0 <= i < |ts| ==> Denotes(ts[i], pieces[i])
  }

  // s matches when it can be cut into one piece per token, each in that token's language.
  ghost predicate Matches(ts: seq<Token>, s: string) {
    exists pieces :: Splits(ts, pieces, s)
  }

  // ---------- The matcher, position by position ----------

  predicate AllPercent(p: string) {
    forall i :: 0 <= i < |p| ==> p[i] == '%'
  }

  // Tries every run for every %. When the text is used up only %s may remain.
  predicate MatchFrom(p: string, s: string, esc: Option<char>)
    decreases |p| + |s|
  {
    if p == [] then s == []
    else if s == [] then AllPercent(p)
    else
      var (t, n) := NextToken(p, esc);
      if t.AnyRun? then MatchFrom(p[1..], s, esc) || MatchFrom(p, s[1..], esc)
      else Accepts(t, s[0]) && MatchFrom(p[n..], s[1..], esc)
  }

  // The closing step treats any % as a wildcard, even where % is the escape character.
  predicate TailIsWild(p: string, esc: Option<char>) {
    esc == Some('%') ==> p == [] || p[|p| - 1] != '%'
  }

  lemma {:induction false} MatchFromSound(p: string, s: string, esc: Option<char>) returns (pieces: seq<string>)
    requires TailIsWild(p, esc)
    requires MatchFrom(p, s, esc)
    ensures Splits(Tokens(p, esc), pieces, s)
    decreases |p| + |s|
  {
    if p == [] {
      pieces := [];
    } else if s == [] {
      var rest := MatchFromSound(p[1..], s, esc);
      pieces := [""] + rest;
    } else {
      var (t, n) := NextToken(p, esc);
      if t.AnyRun? && !MatchFrom(p[1..], s, esc) {
        var more := MatchFromSound(p, s[1..], esc);
        pieces := more[0 := [s[0]] + more[0]];
        assert pieces[1..] == more[1..];
      } else if t.AnyRun? {
        var rest := MatchFromSound(p[1..], s, esc);
        pieces := [""] + rest;
      } else {
        var rest := MatchFromSound(p[n..], s[1..], esc);
        pieces := [[s[0]]] + rest;
      }
    }
  }

  lemma {:induction false} MatchFromComplete(p: string, s: string, esc: Option<char>, pieces: seq<string>)
    requires TailIsWild(p, esc)
    requires Splits(Tokens(p, esc), pieces, s)
    ensures MatchFrom(p, s, esc)
    decreases |p| + |s|
  {
    if p == [] {
    } else {
      var (t, n) := NextToken(p, esc);
      var rest := Tokens(p[n..], esc);
      var first := pieces[0];
      assert Denotes(Tokens(p, esc)[0], first);
      assert forall i :: 0 <= i < |rest| ==> rest[i] == Tokens(p, esc)[i + 1];
      if t.AnyRun? && first != [] {
        var shorter := pieces[0 := first[1..]];
        assert shorter[1..] == pieces[1..];
        assert s == [first[0]] + Concat(shorter);
        MatchFromComplete(p, s[1..], esc, shorter);
      } else {
        assert Splits(rest, pieces[1..], s[|first|..]);
        MatchFromComplete(p[n..], s[|first|..], esc, pieces[1..]);
      }
    }
  }

  // Position by position, or as a whole: the two readings of a pattern agree.
  lemma MatchFromIsMatches(p: string, s: string, esc: Option<char>)
    requires TailIsWild(p, esc)
    ensures MatchFrom(p, s, esc) <==> Matches(Tokens(p, esc), s)
  {
    if MatchFrom(p, s, esc) {
      var pieces := MatchFromSound(p, s, esc);
    }
    if Matches(Tokens(p, esc), s) {
      var pieces :| Splits(Tokens(p, esc), pieces, s);
      MatchFromComplete(p, s, esc, pieces);
    }
  }

  // ---------- Why remembering only the last % is enough ----------

  // The pattern left after k single-character tokens of p, if the next k are all of that sort.
  ghost function After(p: string, k: nat, esc: Option<char>): Option<string> {
    if k == 0 then Some(p)
    else if p == [] then None
    else
      var (t, n) := NextToken(p, esc);
      if t.AnyRun? || t.Dangling? then None else After(p[n..], k - 1, esc)
  }

  lemma {:induction false} AfterOneMore(p: string, k: nat, esc: Option<char>, q: string)
    requires After(p, k, esc) == Some(q) && q != []
    requires var t := NextToken(q, esc).0; !t.AnyRun? && !t.Dangling?
    ensures After(p, k + 1, esc) == Some(q[NextToken(q, esc).1..])
  {
    if k > 0 {
      AfterOneMore(p[NextToken(p, esc).1..], k - 1, esc, q);
    }
  }

  // A match of p must match what follows its first k single tokens k characters later.
  lemma {:induction false} MatchAfter(p: string, s: string, k: nat, esc: Option<char>, q: string)
    requires esc != Some('%')
    requires After(p, k, esc) == Some(q) && MatchFrom(p, s, esc)
    ensures k <= |s| && MatchFrom(q, s[k..], esc)
  {
    if k > 0 {
      var n := NextToken(p, esc).1;
      MatchAfter(p[n..], s[1..], k - 1, esc, q);
      assert s[1..][k - 1..] == s[k..];
    } else {
      assert s[0..] == s;
    }
  }

  // A % absorbs whatever comes before a place where it could start.
  lemma {:induction false} PercentAbsorbs(p: string, s: string, k: nat, esc: Option<char>)
    requires p != [] && p[0] == '%' && esc != Some('%')
    requires k <= |s| && MatchFrom(p, s[k..], esc)
    ensures MatchFrom(p, s, esc)
  {
    if k > 0 {
      assert s[1..][k - 1..] == s[k..];
      PercentAbsorbs(p, s[1..], k - 1, esc);
    } else {
      assert s[0..] == s;
    }
  }

  // A match starting at a % starts matching after it at some place.
  lemma {:induction false} PercentStops(p: string, s: string, esc: Option<char>) returns (j: nat)
    requires p != [] && p[0] == '%' && esc != Some('%')
    requires MatchFrom(p, s, esc)
    ensures j <= |s| && MatchFrom(p[1..], s[j..], esc)
  {
    if s == [] || MatchFrom(p[1..], s, esc) {
      j := 0;
      assert s[0..] == s;
    } else {
      var i := PercentStops(p, s[1..], esc);
      j := i + 1;
      assert s[1..][i..] == s[j..];
    }
  }

  // The matcher of pat from index pi against str from index si.
  ghost predicate At(pat: string, pi: nat, str: string, si: nat, esc: Option<char>)
    requires pi <= |pat| && si <= |str|
  {
    MatchFrom(pat[pi..], str[si..], esc)
  }

  // The remembered % at starP, and the tokens between it and pi matched str[starS..si].
  ghost predicate Remembers(pat: string, starP: int, pi: int, starS: int, si: int, esc: Option<char>) {
    && 0 <= starP < pi <= |pat| && 0 <= starS <= si
    && pat[starP] == '%' && esc != Some('%')
    && After(pat[starP + 1..], si - starS, esc) == Some(pat[pi..])
  }

  // What restarting at the remembered % one character later could still find.
  ghost predicate Restart(pat: string, starP: int, str: string, starS: int, esc: Option<char>) {
    0 <= starP <= |pat| && 0 <= starS < |str| && At(pat, starP, str, starS + 1, esc)
  }

  // Such a restart, if it finds anything, passes the place the scan has reached further right. So a
  // later % makes the remembered one useless: dropping it loses no match.
  lemma RestartPasses(pat: string, starP: int, pi: int, str: string, starS: int, si: int, esc: Option<char>)
    requires Remembers(pat, starP, pi, starS, si, esc) && si <= |str|
    requires Restart(pat, starP, str, starS, esc)
    ensures exists j :: si < j <= |str| && At(pat, pi, str, j, esc)
    ensures pi < |pat| && pat[pi] == '%' ==> At(pat, pi, str, si, esc)
  {
    var star, s := pat[starP..], str[starS + 1..];
    var j := PercentStops(star, s, esc);
    assert star[1..] == pat[starP + 1..];
    MatchAfter(star[1..], s[j..], si - starS, esc, pat[pi..]);
    var at := si + 1 + j;
    assert s[j..][si - starS..] == str[at..];
    assert At(pat, pi, str, at, esc);
    if pi < |pat| && pat[pi] == '%' {
      assert str[si..][1 + j..] == str[at..];
      PercentAbsorbs(pat[pi..], str[si..], 1 + j, esc);
    }
  }

  // The scan's invariant: the answer is a match from here or from a restart at the remembered %.
  ghost predicate OnTrack(pat: string, starP: int, pi: int, str: string, starS: int, si: int, esc: Option<char>) {
    && 0 <= si <= |str| && 0 <= pi <= |pat|
    && (if starP < 0 then starS == 0 else Remembers(pat, starP, pi, starS, si, esc))
    && MatchFrom(pat, str, esc) == (At(pat, pi, str, si, esc) || Restart(pat, starP, str, starS, esc))
  }

  // Reaching a % at pi makes it the remembered one.
  lemma TakePercent(pat: string, starP: int, pi: nat, str: string, starS: int, si: nat, esc: Option<char>)
    requires OnTrack(pat, starP, pi, str, starS, si, esc) && si < |str|
    requires pi < |pat| && pat[pi] == '%' && esc != Some('%')
    ensures OnTrack(pat, pi, pi + 1, str, si, si, esc)
  {
    if Restart(pat, starP, str, starS, esc) { RestartPasses(pat, starP, pi, str, starS, si, esc); }
    assert pat[pi..][1..] == pat[pi + 1..];
    assert str[si..][1..] == str[si + 1..];
  }

  // A token taking one character: its step keeps the invariant, or it is no match from here.
  lemma TakeToken(pat: string, starP: int, pi: nat, str: string, starS: int, si: nat, esc: Option<char>)
    requires OnTrack(pat, starP, pi, str, starS, si, esc) && si < |str|
    requires pi < |pat| ==> !NextToken(pat[pi..], esc).0.AnyRun?
    ensures pi < |pat| ==> var (t, n) := NextToken(pat[pi..], esc);
      && (Accepts(t, str[si]) ==> OnTrack(pat, starP, pi + n, str, starS, si + 1, esc))
      && (!Accepts(t, str[si]) ==> !At(pat, pi, str, si, esc))
      && (t.Dangling? ==> !MatchFrom(pat, str, esc))
    ensures pi == |pat| ==> !At(pat, pi, str, si, esc)
    ensures starP < 0 && !At(pat, pi, str, si, esc) ==> !MatchFrom(pat, str, esc)
  {
    if pi == |pat| { return; }
    var (t, n) := NextToken(pat[pi..], esc);
    assert pat[pi..][n..] == pat[pi + n..] && str[si..][1..] == str[si + 1..];
    if Restart(pat, starP, str, starS, esc) { RestartPasses(pat, starP, pi, str, starS, si, esc); }
    if starP >= 0 && Accepts(t, str[si]) {
      AfterOneMore(pat[starP + 1..], si - starS, esc, pat[pi..]);
    }
  }

  // No match from here: give the remembered % one character more.
  lemma FallBack(pat: string, starP: nat, pi: nat, str: string, starS: nat, si: nat, esc: Option<char>)
    requires OnTrack(pat, starP, pi, str, starS, si, esc) && si < |str|
    requires !At(pat, pi, str, si, esc)
    ensures OnTrack(pat, starP, starP + 1, str, starS + 1, starS + 1, esc)
  {
    assert pat[starP..][1..] == pat[starP + 1..];
    assert starS + 1 < |str| ==> str[starS + 1..][1..] == str[starS + 2..];
  }

  lemma StartScan(pat: string, str: string, esc: Option<char>)
    ensures OnTrack(pat, -1, 0, str, 0, 0, esc)
  {
    assert str[0..] == str && pat[0..] == pat;
  }

  lemma EndScan(pat: string, starP: int, pi: nat, str: string, starS: int, esc: Option<char>)
    requires OnTrack(pat, starP, pi, str, starS, |str|, esc)
    ensures MatchFrom(pat, str, esc) == AllPercent(pat[pi..])
  {
    if Restart(pat, starP, str, starS, esc) { RestartPasses(pat, starP, pi, str, starS, |str|, esc); }
  }

  // ---------- The loops ----------

  // likeClass: c against the [set] opening p; n is its length, 0 when it is not closed.
  method LikeClass(p: string, c: char, esc: Option<char>) returns (isIn: bool, n: nat)
    requires p != [] && p[0] == '[' && esc != Some('[')
    ensures n == 0 ==> NextToken(p, esc) == (One('['), 1)
    ensures n > 0 ==> NextToken(p, esc).0.Class? && n == NextToken(p, esc).1
    ensures n > 0 ==> isIn == Accepts(NextToken(p, esc).0, c)
  {
    var neg := 1 < |p| && p[1] == '^';
    var start := if neg then 2 else 1;
    var ms, end := CollectMembers(p, start, esc);
    if end >= |p| { return false, 0; }
    var found := InMembers(ms, c);
    isIn, n := found != neg, end + 1;
  }

  method CollectMembers(p: string, start: nat, esc: Option<char>) returns (ms: seq<Member>, i: nat)
    requires start <= |p|
    ensures (ms, i) == Members(p, start, start, esc)
  {
    i := start;
    ms := [];
    ghost var (all, end) := Members(p, start, start, esc);
    while i < |p| && (p[i] != ']' || i == start)
      invariant start <= i <= |p|
      invariant all == ms + Members(p, i, start, esc).0
      invariant end == Members(p, i, start, esc).1
    {
      ghost var rest := Members(p, i, start, esc).0;
      if esc == Some(p[i]) && i + 1 < |p| {
        assert ms + rest == ms + [Member(p[i + 1], true)] + Members(p, i + 2, start, esc).0;
        ms, i := ms + [Member(p[i + 1], true)], i + 2;
      } else {
        assert ms + rest == ms + [Member(p[i], false)] + Members(p, i + 1, start, esc).0;
        ms, i := ms + [Member(p[i], false)], i + 1;
      }
    }
    assert all == ms;
  }

  lemma SomeOfMore(item: Item, items: seq<Item>, c: char)
    ensures InSome([item] + items, c) == (InItem(item, c) || InSome(items, c))
  {
    var more := [item] + items;
    assert more[0] == item && forall i :: 0 <= i < |items| ==> more[i + 1] == items[i];
  }

  // The loop over a class's members, taking three at a time for a range.
  method InMembers(ms: seq<Member>, c: char) returns (found: bool)
    ensures found == InSome(Items(ms), c)
  {
    found := false;
    var k := 0;
    assert ms[0..] == ms;
    while k < |ms|
      invariant 0 <= k <= |ms|
      invariant InSome(Items(ms), c) == (found || InSome(Items(ms[k..]), c))
    {
      if k + 2 < |ms| && ms[k + 1].c == '-' && !ms[k + 1].plain {
        assert ms[k..][3..] == ms[k + 3..];
        SomeOfMore(Range(ms[k].c, ms[k + 2].c), Items(ms[k + 3..]), c);
        found := found || ms[k].c <= c <= ms[k + 2].c;
        k := k + 3;
      } else {
        assert ms[k..][1..] == ms[k + 1..];
        SomeOfMore(Single(ms[k].c), Items(ms[k + 1..]), c);
        found := found || ms[k].c == c;
        k := k + 1;
      }
    }
  }

  // One turn of the scan on anything but a %.
  method TryToken(pat: string, pi: nat, c: char, esc: Option<char>) returns (dangling: bool, matched: bool, next: nat)
    requires pi <= |pat| && (pi < |pat| ==> !NextToken(pat[pi..], esc).0.AnyRun?)
    ensures pi == |pat| ==> !dangling && !matched
    ensures pi < |pat| ==> var (t, n) := NextToken(pat[pi..], esc);
      dangling == t.Dangling? && matched == Accepts(t, c) && (!dangling ==> next == pi + n)
  {
    dangling, matched, next := false, false, pi;
    if pi == |pat| {
      return;
    }
    if esc == Some(pat[pi]) {
      if pi + 1 >= |pat| {
        return true, false, pi; // an escape with nothing after it makes the pattern invalid
      }
      matched, next := pat[pi + 1] == c, pi + 2;
    } else if pat[pi] == '_' {
      matched, next := true, pi + 1;
    } else if pat[pi] == '[' {
      var isIn, n := LikeClass(pat[pi..], c, esc);
      if n > 0 {
        matched, next := isIn, pi + n;
      } else {
        matched, next := c == '[', pi + 1;
      }
    } else {
      matched, next := pat[pi] == c, pi + 1;
    }
  }

  // likeMatch after folding: one left-to-right scan with a single backtrack point.
  method Scan(str: string, pat: string, esc: Option<char>) returns (b: bool)
    ensures b == MatchFrom(pat, str, esc)
  {
    hide OnTrack, MatchFrom;
    var si, pi := 0, 0;
    var starP, starS := -1, 0;
    StartScan(pat, str, esc);
    while si < |str|
      invariant 0 <= si <= |str| && 0 <= pi <= |pat|
      invariant starP < pi && 0 <= starS <= si
      invariant OnTrack(pat, starP, pi, str, starS, si, esc)
      decreases |str| - starS, |pat| - pi
    {
      if pi < |pat| && pat[pi] == '%' && esc != Some('%') {
        TakePercent(pat, starP, pi, str, starS, si, esc);
        starP, starS, pi := pi, si, pi + 1;
      } else {
        TakeToken(pat, starP, pi, str, starS, si, esc);
        var dangling, matched, next := TryToken(pat, pi, str[si], esc);
        if dangling || (!matched && starP < 0) {
          return false;
        } else if matched {
          si, pi := si + 1, next;
        } else {
          FallBack(pat, starP, pi, str, starS, si, esc);
          starS, si, pi := starS + 1, starS + 1, starP + 1;
        }
      }
    }
    EndScan(pat, starP, pi, str, starS, esc);
    b := OnlyPercents(pat, pi);
  }

  // The closing loop: once the text is used up, only %s may be left.
  method OnlyPercents(pat: string, from: nat) returns (b: bool)
    requires from <= |pat|
    ensures b == AllPercent(pat[from..])
  {
    var pi := from;
    while pi < |pat| && pat[pi] == '%'
      invariant from <= pi <= |pat|
      invariant forall i :: from <= i < pi ==> pat[i] == '%'
    {
      pi := pi + 1;
    }
    assert pi < |pat| ==> pat[from..][pi - from] != '%';
    return pi == |pat|;
  }

  // ---------- ESCAPE '%', exactly ----------

  ghost predicate Satisfiable(t: Token) {
    exists c: char :: Accepts(t, c)
  }

  // Some token before the last accepts no character at all, as in [b-a].
  ghost predicate BlockedEarly(ts: seq<Token>) {
    exists i :: 0 <= i < |ts| - 1 && !Satisfiable(ts[i])
  }

  lemma {:induction false} OneCharPieces(ts: seq<Token>, pieces: seq<string>, s: string)
    requires Splits(ts, pieces, s) && forall i :: 0 <= i < |ts| ==> !ts[i].AnyRun?
    ensures |s| == |ts|
  {
    if ts != [] {
      assert Denotes(ts[0], pieces[0]);
      assert forall i :: 0 <= i < |ts| - 1 ==> Denotes(ts[1..][i], pieces[1..][i]) by {
        assert forall i :: 0 <= i < |ts| - 1 ==> ts[1..][i] == ts[i + 1] && pieces[1..][i] == pieces[i + 1];
      }
      OneCharPieces(ts[1..], pieces[1..], s[|pieces[0]|..]);
    }
  }

  lemma {:induction false} NoRunsUnderPercentEscape(p: string)
    ensures forall i :: 0 <= i < |Tokens(p, Some('%'))| ==> !Tokens(p, Some('%'))[i].AnyRun?
  {
    if p != [] {
      NoRunsUnderPercentEscape(p[NextToken(p, Some('%')).1..]);
    }
  }

  lemma {:induction false} MembersClose(p: string, i: nat, start: nat, esc: Option<char>)
    requires i <= |p|
    ensures var end := Members(p, i, start, esc).1; end < |p| ==> p[end] == ']'
    decreases |p| - i
  {
    if i == |p| || (p[i] == ']' && i != start) {
    } else if esc == Some(p[i]) && i + 1 < |p| {
      MembersClose(p, i + 2, start, esc);
    } else {
      MembersClose(p, i + 1, start, esc);
    }
  }

  // A text one character short of the pattern, that the closing step accepts all the same.
  lemma {:induction false} ShortText(p: string) returns (s: string)
    requires p != [] && p[|p| - 1] == '%' && !BlockedEarly(Tokens(p, Some('%')))
    ensures MatchFrom(p, s, Some('%')) && |s| == |Tokens(p, Some('%'))| - 1
  {
    var ts := Tokens(p, Some('%'));
    var n := NextToken(p, Some('%')).1;
    if n == |p| {
      var start := if 1 < |p| && p[1] == '^' then 2 else 1;
      if start <= |p| { MembersClose(p, start, start, Some('%')); }
      s := [];
    } else {
      assert forall i :: 0 <= i < |ts| - 1 ==> ts[1..][i] == ts[i + 1];
      var tail := ShortText(p[n..]);
      assert Satisfiable(ts[0]);
      var c: char :| Accepts(ts[0], c);
      s := [c] + tail;
    }
  }

  lemma {:induction false} BlockedFails(p: string, s: string)
    requires BlockedEarly(Tokens(p, Some('%')))
    ensures !MatchFrom(p, s, Some('%'))
  {
    var ts := Tokens(p, Some('%'));
    var (t, n) := NextToken(p, Some('%'));
    var i :| 0 <= i < |ts| - 1 && !Satisfiable(ts[i]);
    if AllPercent(p) {
      assert Accepts(One('%'), '%');
      PercentsAreSatisfiable(p, i);
    } else if s != [] && Accepts(t, s[0]) {
      assert ts[1..][i - 1] == ts[i];
      BlockedFails(p[n..], s[1..]);
    }
  }

  lemma BlockedMeansNothing(ts: seq<Token>, s: string)
    requires BlockedEarly(ts)
    ensures !Matches(ts, s)
  {
    var i :| 0 <= i < |ts| - 1 && !Satisfiable(ts[i]);
    assert ts[i].AnyRun? ==> Accepts(ts[i], 'a');
    forall pieces ensures !Splits(ts, pieces, s) {
      assert |pieces| == |ts| ==> !Denotes(ts[i], pieces[i]);
    }
  }

  lemma {:induction false} PercentsAreSatisfiable(p: string, i: nat)
    requires AllPercent(p) && i < |Tokens(p, Some('%'))| - 1
    ensures Satisfiable(Tokens(p, Some('%'))[i])
  {
    if i == 0 {
      assert Accepts(One('%'), '%');
    } else {
      PercentsAreSatisfiable(p[2..], i - 1);
    }
  }

  // The matcher meets a pattern's meaning on every text, unless % is the escape character, the pattern
  // ends in %, and every token before its last can accept something. So '%%' under ESCAPE '%' fails.
  lemma EscapePercentExactly(p: string, esc: Option<char>)
    ensures (forall s :: MatchFrom(p, s, esc) <==> Matches(Tokens(p, esc), s))
      <==> (TailIsWild(p, esc) || BlockedEarly(Tokens(p, esc)))
  {
    if TailIsWild(p, esc) {
      forall s { MatchFromIsMatches(p, s, esc); }
    } else if BlockedEarly(Tokens(p, esc)) {
      forall s ensures !MatchFrom(p, s, esc) && !Matches(Tokens(p, esc), s) {
        BlockedFails(p, s);
        BlockedMeansNothing(Tokens(p, esc), s);
      }
    } else {
      var s := ShortText(p);
      NoRunsUnderPercentEscape(p);
      if Matches(Tokens(p, esc), s) {
        var pieces :| Splits(Tokens(p, esc), pieces, s);
        OneCharPieces(Tokens(p, esc), pieces, s);
      }
    }
  }

  // ---------- Folding, and the recursive matcher ----------

  function FoldEscape(esc: Option<char>): Option<char> {
    match esc
    case None => None
    case Some(c) => Some(Lower(c))
  }

  // LIKE as the evaluator calls it: text, pattern and escape folded unless the collation is exact.
  predicate LikeMatch(s: string, pattern: string, exact: bool, esc: Option<char>) {
    if exact then MatchFrom(pattern, s, esc) else MatchFrom(Key(pattern), Key(s), FoldEscape(esc))
  }

  method RunLike(s: string, pattern: string, exact: bool, esc: Option<char>) returns (b: bool)
    ensures b == LikeMatch(s, pattern, exact, esc)
    ensures exact && TailIsWild(pattern, esc) ==> (b <==> Matches(Tokens(pattern, esc), s))
    ensures !exact && TailIsWild(Key(pattern), FoldEscape(esc)) ==>
      (b <==> Matches(Tokens(Key(pattern), FoldEscape(esc)), Key(s)))
  {
    if exact {
      b := Scan(s, pattern, esc);
      if TailIsWild(pattern, esc) { MatchFromIsMatches(pattern, s, esc); }
    } else {
      b := Scan(Key(s), Key(pattern), FoldEscape(esc));
      if TailIsWild(Key(pattern), FoldEscape(esc)) { MatchFromIsMatches(Key(pattern), Key(s), FoldEscape(esc)); }
    }
  }
}
