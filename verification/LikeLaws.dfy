// What each kind of pattern text matches (likeMatch and likeClass in internal/exec/exec.go).
module LikeLaws {
  import opened Option
  import opened Like

  // Members that stand for themselves, the first one a ']' or not.
  predicate IsSet(body: string) {
    body != [] && body[0] != '^' && '-' !in body && ']' !in body[1..]
  }

  function Plain(body: string): seq<Member> { if body == [] then [] else [Member(body[0], false)] + Plain(body[1..]) }

  lemma {:induction false} SetMembers(p: string, i: nat, start: nat, body: string, rest: string)
    requires start <= i <= |p| && p[i..] == body + "]" + rest && (i == start ==> body != [])
    requires forall j :: 0 <= j < |body| ==> (body[j] == ']' ==> i == start && j == 0)
    ensures Members(p, i, start, None) == (Plain(body), i + |body|)
    decreases |body|
  {
    assert p[i] == (body + "]" + rest)[0];
    if body != [] {
      assert p[i + 1..] == p[i..][1..] == body[1..] + "]" + rest;
      SetMembers(p, i + 1, start, body[1..], rest);
    }
  }

  lemma {:induction false} SetItems(body: string, c: char)
    requires '-' !in body
    ensures InSome(Items(Plain(body)), c) <==> c in body
    ensures forall m <- Plain(body) :: m.c != '-'
  {
    if body != [] {
      var ms := Plain(body);
      SetItems(body[1..], c);
      assert ms[1..] == Plain(body[1..]);
      assert |ms| >= 2 ==> ms[1] in ms[1..];
      SomeOfMore(Single(body[0]), Items(ms[1..]), c);
      assert body == [body[0]] + body[1..];
    }
  }

  // [abc] matches one of its characters, [^abc] one that is none of them.
  lemma ClassMatches(body: string, neg: bool, p: string, c: char, s: string)
    requires IsSet(body)
    ensures MatchFrom((if neg then "[^" else "[") + body + "]" + p, [c] + s, None) <==>
      (if neg then c !in body else c in body) && MatchFrom(p, s, None)
  {
    var open := if neg then "[^" else "[";
    var pat := open + body + "]" + p;
    assert pat[|open|..] == body + "]" + p && pat[0] == '[' && pat[1] == (if neg then '^' else body[0]);
    SetMembers(pat, |open|, |open|, body, p);
    SetItems(body, c);
    OneTurn(pat, |open| + |body| + 1, p, c, s);
  }

  // [a-f] matches the characters from a to f, [^a-f] the others.
  lemma RangeMatches(lo: char, hi: char, neg: bool, p: string, c: char, s: string)
    requires lo != '^' && hi != ']'
    ensures MatchFrom((if neg then "[^" else "[") + [lo, '-', hi, ']'] + p, [c] + s, None) <==>
      (if neg then c < lo || hi < c else lo <= c <= hi) && MatchFrom(p, s, None)
  {
    var open := if neg then "[^" else "[";
    var n := |open|;
    var pat := open + [lo, '-', hi, ']'] + p;
    assert pat[0] == '[' && pat[1] == (if neg then '^' else lo);
    assert pat[n] == lo && pat[n + 1] == '-' && pat[n + 2] == hi && pat[n + 3] == ']';
    assert pat[n..] == [lo, '-', hi] + "]" + p;
    SetMembers(pat, n, n, [lo, '-', hi], p);
    var ms := [Member(lo, false), Member('-', false), Member(hi, false)];
    assert [lo, '-', hi][1..] == ['-', hi] && ['-', hi][1..] == [hi] && [hi][1..] == [];
    assert Plain([hi]) == [Member(hi, false)] + [];
    assert Plain(['-', hi]) == [Member('-', false)] + Plain([hi]);
    assert Plain([lo, '-', hi]) == ms;
    assert ms[3..] == [] && Items(ms) == [Range(lo, hi)] + [];
    SomeOfMore(Range(lo, hi), [], c);
    OneTurn(pat, n + 4, p, c, s);
  }

  // A token of one character in front of the pattern p.
  lemma OneTurn(pat: string, n: nat, p: string, c: char, s: string)
    requires pat != [] && n <= |pat| && pat[n..] == p
    requires NextToken(pat, None).1 == n && !NextToken(pat, None).0.AnyRun?
    ensures MatchFrom(pat, [c] + s, None) <==> Accepts(NextToken(pat, None).0, c) && MatchFrom(p, s, None)
  {
    assert ([c] + s)[1..] == s;
  }

  // _ matches any one character, a plain character itself, and behind the escape character any character itself.
  lemma CharacterMatches(d: char, p: string, c: char, s: string, esc: Option<char>)
    requires d != '%' && d != '[' && esc != Some(d)
    ensures MatchFrom([d] + p, [c] + s, esc) <==> (d == '_' || c == d) && MatchFrom(p, s, esc)
    ensures !MatchFrom([d] + p, [], esc)
  {
    assert ([d] + p)[1..] == p && ([c] + s)[1..] == s && ([d] + p)[0] == d;
  }

  lemma EscapedMatches(e: char, d: char, p: string, c: char, s: string)
    ensures MatchFrom([e, d] + p, [c] + s, Some(e)) <==> c == d && MatchFrom(p, s, Some(e))
  {
    assert ([e, d] + p)[2..] == p && ([c] + s)[1..] == s;
  }

  // % matches every run of characters, the empty one too.
  lemma PercentMatches(p: string, s: string, esc: Option<char>)
    requires esc != Some('%')
    ensures MatchFrom("%" + p, s, esc) <==> exists k :: 0 <= k <= |s| && MatchFrom(p, s[k..], esc)
  {
    var pat := "%" + p;
    assert pat[1..] == p;
    if MatchFrom(pat, s, esc) { var k := PercentStops(pat, s, esc); }
    if k :| 0 <= k <= |s| && MatchFrom(p, s[k..], esc) {
      RunEnds(pat, s[k..], esc);
      PercentAbsorbs(pat, s, k, esc);
    }
  }

  lemma RunEnds(pat: string, s: string, esc: Option<char>)
    requires pat != [] && pat[0] == '%' && esc != Some('%') && MatchFrom(pat[1..], s, esc)
    ensures MatchFrom(pat, s, esc)
  {
    if s == [] {
      assert forall i :: 1 <= i < |pat| ==> pat[i] == pat[1..][i - 1];
    }
  }

  // The pattern without characters matches the text without characters.
  lemma EmptyMatches(s: string, esc: Option<char>)
    ensures MatchFrom("", s, esc) <==> s == ""
  {
  }
}
