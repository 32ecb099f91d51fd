// The recursive matcher of the catalog procedures (likeMatch in internal/engine/proc.go) and where it agrees with
// LIKE: it steps over the bytes of the UTF-8 encoding, the loop of internal/exec/exec.go over characters.
module ByteLike {
  import opened Option
  import opened Like

  type octet = x: int | 0 <= x < 256

  // ---------- UTF-8 ----------

  function Utf8(c: char): (b: seq<octet>)
    ensures 1 <= |b| <= 4
    ensures c < '\U{80}' <==> |b| == 1
    ensures c < '\U{80}' ==> b == [c as int]
    ensures c >= '\U{80}' ==> b[0] >= 0xC0
  {
    var n := c as int;
    if n < 0x80 then [n]
    else if n < 0x800 then [0xC0 + n / 0x40, 0x80 + n % 0x40]
    else if n < 0x1_0000 then [0xE0 + n / 0x1000, 0x80 + n / 0x40 % 0x40, 0x80 + n % 0x40]
    else [0xF0 + n / 0x4_0000, 0x80 + n / 0x1000 % 0x40, 0x80 + n / 0x40 % 0x40, 0x80 + n % 0x40]
  }

  function Bytes(s: string): (b: seq<octet>)
    ensures |b| >= |s|
  {
    if s == [] then [] else Utf8(s[0]) + Bytes(s[1..])
  }

  predicate Ascii(s: string) { forall i :: 0 <= i < |s| ==> s[i] < '\U{80}' }

  // ---------- The matcher ----------

  const PERCENT: octet := '%' as int
  const UNDERSCORE: octet := '_' as int

  // %, _ and literals only, trying each run in turn.
  predicate ByteMatch(s: seq<octet>, pat: seq<octet>)
    decreases |pat|
  {
    if pat == [] then s == []
    else if pat[0] == PERCENT then exists i :: 0 <= i <= |s| && ByteMatch(s[i..], pat[1..])
    else s != [] && (pat[0] == UNDERSCORE || pat[0] == s[0]) && ByteMatch(s[1..], pat[1..])
  }

  // A run is nothing, or its first byte and a run.
  lemma RunTurn(s: seq<octet>, pat: seq<octet>)
    requires pat != [] && pat[0] == PERCENT
    ensures ByteMatch(s, pat) <==> ByteMatch(s, pat[1..]) || (s != [] && ByteMatch(s[1..], pat))
  {
    assert s[0..] == s;
    if i :| 0 <= i <= |s| && ByteMatch(s[i..], pat[1..]) && i > 0 {
      assert s[1..][i - 1..] == s[i..];
    }
    if s != [] && ByteMatch(s[1..], pat) {
      var i :| 0 <= i <= |s[1..]| && ByteMatch(s[1..][i..], pat[1..]);
      assert s[1..][i..] == s[i + 1..];
    }
  }

  // ---------- Agreement ----------

  lemma AllPercentTurn(pat: string)
    requires pat != "" && pat[0] == '%'
    ensures AllPercent(pat) == AllPercent(pat[1..])
  {
    assert forall i :: 0 <= i < |pat| - 1 ==> pat[1..][i] == pat[i + 1];
  }

  // On ASCII text the two agree on every pattern without classes, whatever characters the pattern holds.
  lemma {:induction false} AgreeOnAscii(s: string, pat: string)
    requires Ascii(s) && '[' !in pat
    ensures ByteMatch(Bytes(s), Bytes(pat)) == MatchFrom(pat, s, None)
    decreases |pat| + |s|
  {
    if pat != "" {
      if pat[0] == '%' {
        AgreeOnAscii(s, pat[1..]);
        RunTurn(Bytes(s), Bytes(pat));
        if s != "" { AgreeOnAscii(s[1..], pat); } else { AllPercentTurn(pat); }
      } else if s != "" && (pat[0] == '_' || pat[0] == s[0]) {
        AgreeOnAscii(s[1..], pat[1..]);
      }
    }
  }

  function Underscores(n: nat): string { if n == 0 then "" else "_" + Underscores(n - 1) }

  // An underscore is one character to the one and one byte to the other.
  lemma {:induction false} UnderscoresCount(s: string, b: seq<octet>, n: nat)
    ensures '[' !in Underscores(n)
    ensures MatchFrom(Underscores(n), s, None) <==> |s| == n
    ensures ByteMatch(b, Bytes(Underscores(n))) <==> |b| == n
    decreases n
  {
    if n > 0 {
      UnderscoresCount(if s == "" then "" else s[1..], if b == [] then [] else b[1..], n - 1);
      assert Underscores(n)[0] == '_' && Underscores(n)[1..] == Underscores(n - 1);
    }
  }

  lemma {:induction false} LongerThanText(s: string)
    ensures |Bytes(s)| == |s| <==> Ascii(s)
  {
    if s != "" {
      LongerThanText(s[1..]);
      if Ascii(s[1..]) && s[0] < '\U{80}' { assert forall i :: 1 <= i < |s| ==> s[i] == s[1..][i - 1]; }
      if Ascii(s) { assert forall i :: 0 <= i < |s| - 1 ==> s[1..][i] == s[i + 1]; }
    }
  }

  // The matchers agree on every pattern without classes exactly when the text is ASCII.
  lemma AgreeExactly(s: string)
    ensures (forall pat :: '[' !in pat ==> ByteMatch(Bytes(s), Bytes(pat)) == MatchFrom(pat, s, None)) <==> Ascii(s)
  {
    hide ByteMatch, MatchFrom, Ascii;
    if Ascii(s) {
      forall pat | '[' !in pat ensures ByteMatch(Bytes(s), Bytes(pat)) == MatchFrom(pat, s, None) {
        AgreeOnAscii(s, pat);
      }
    } else {
      LongerThanText(s);
      UnderscoresCount(s, Bytes(s), |s|);
      var pat := Underscores(|s|);
      assert ByteMatch(Bytes(s), Bytes(pat)) != MatchFrom(pat, s, None);
    }
  }

  // One accented letter is one character and two bytes.
  lemma AccentedLetterIsTwoBytes()
    ensures Bytes("\U{E9}") == [0xC3, 0xA9]
    ensures MatchFrom("_", "\U{E9}", None) && !ByteMatch([0xC3, 0xA9], Bytes("_"))
  {
    assert "\U{E9}"[1..] == "" && "_"[1..] == "";
    assert Underscores(1) == "_" by { assert Underscores(0) == ""; }
    UnderscoresCount("\U{E9}", [0xC3, 0xA9], 1);
  }
}
