// Chunked character values (encodePLPString in internal/wire/result.go and plpString in internal/wire/rpc.go;
// section 2.2.5.2.3 of MS-TDS) and little-endian integers (encodeIntN and leInt).

module WireValues {
  import opened Option
  import opened Arithmetic
  import opened Framing

  // ---------- Little-endian numbers ----------

  function Pow256(n: nat): nat
    ensures Pow256(n) > 0
  {
    if n == 0 then 1 else 256 * Pow256(n - 1)
  }

  // The low n bytes of a number.
  function Le(v: nat, n: nat): (b: seq<byte>)
    ensures |b| == n
  {
    if n == 0 then [] else [v % 256] + Le(v / 256, n - 1)
  }

  function FromLe(b: seq<byte>): (v: nat)
    ensures v < Pow256(|b|)
  {
    if b == [] then 0
    else
      var low: int := b[0];
      low + 256 * FromLe(b[1..])
  }

  lemma {:induction false} LeReads(v: nat, n: nat)
    ensures FromLe(Le(v, n)) == v % Pow256(n)
  {
    if n > 0 {
      LeReads(v / 256, n - 1);
      assert Le(v, n)[1..] == Le(v / 256, n - 1);
      ModStep(v, Pow256(n - 1));
    } else {
      assert v % 1 == 0;
    }
  }

  lemma ModStep(v: nat, p: nat)
    requires p > 0
    ensures v % (256 * p) == v % 256 + 256 * ((v / 256) % p)
  {
    var q, r := v / 256, v % 256;
    var a, b := q / p, q % p;
    assert v == 256 * q + r && q == p * a + b;
    assert v == (256 * p) * a + (256 * b + r) by { assert 256 * (p * a + b) == (256 * p) * a + 256 * b; }
    assert 0 <= 256 * b + r < 256 * p by { assert b <= p - 1; }
    Quotient(v, 256 * p, a, 256 * b + r);
  }

  // ---------- Integers ----------

  const TWO64 := 0x1_0000_0000_0000_0000

  // uint64 of an int64.
  function Unsigned(v: int): nat
    requires -TWO64 / 2 <= v < TWO64 / 2
  {
    if v < 0 then v + TWO64 else v
  }

  // The value's bytes behind their number; NULL is length 0.
  function EncodeIntN(v: Option<int>, size: nat): seq<byte>
    requires size < 256 && (v.Some? ==> -TWO64 / 2 <= v.value < TWO64 / 2)
  {
    if v.None? then [0] else [size] + Le(Unsigned(v.value), size)
  }

  // Two's complement at the width of the bytes.
  function FromTwos(b: seq<byte>): int {
    if b == [] then 0 else Wrapped(FromLe(b), Pow256(|b|))
  }

  // The bytes from the last one down; the sign bit fills the rest of the 64.
  method LeInt(b: seq<byte>) returns (v: int)
    requires 0 < |b| <= 8
    ensures v == FromTwos(b)
  {
    var u: nat := 0;
    var i := |b|;
    assert b[|b|..] == [];
    while i > 0
      invariant 0 <= i <= |b|
      invariant u == FromLe(b[i..])
    {
      i := i - 1;
      assert b[i..][1..] == b[i + 1..];
      u := u * 256 + b[i];
    }
    assert b[0..] == b;
    v := if u >= Pow256(|b|) / 2 then u - Pow256(|b|) else u;
  }

  // What leInt makes of an encoded integer: a NULL has no bytes.
  function DecodeIntN(s: seq<byte>): Option<(Option<int>, seq<byte>)> {
    if s == [] then None
    else
      var n: int := s[0];
      if |s| < 1 + n then None
      else if n == 0 then Some((None, s[1..]))
      else Some((Some(FromTwos(s[1..1 + n])), s[1 + n..]))
  }

  predicate Fits(v: int, size: nat) { -(Pow256(size) as int) <= 2 * v < Pow256(size) }

  lemma Widths()
    ensures Pow256(1) == 0x100 && Pow256(2) == 0x1_0000 && Pow256(4) == 0x1_0000_0000 && Pow256(8) == TWO64
  {
    assert Pow256(0) == 1;
    assert Pow256(3) == 0x100_0000 && Pow256(5) == 0x100_0000_0000;
    assert Pow256(6) == 0x1_0000_0000_0000 && Pow256(7) == 0x100_0000_0000_0000;
  }

  lemma TwosBack(v: int, size: nat)
    requires size in {1, 2, 4, 8} && -TWO64 / 2 <= v < TWO64 / 2
    ensures FromTwos(Le(Unsigned(v), size)) == v <==> Fits(v, size)
  {
    hide Le, FromLe, Pow256, Unsigned;
    LeReads(Unsigned(v), size);
    Widths();
    if size == 1 { TwosAt1(v); }
    else if size == 2 { TwosAt2(v); }
    else if size == 4 { TwosAt4(v); }
    else { TwosAt8(v); }
  }

  // A value read back from its low bits.
  function Wrapped(x: int, p: int): int { if x >= p / 2 then x - p else x }

  lemma TwosAt1(v: int)
    requires -TWO64 / 2 <= v < TWO64 / 2
    ensures Wrapped(Unsigned(v) % 0x100, 0x100) == v <==> -0x80 <= v < 0x80
  {
  }

  lemma TwosAt2(v: int)
    requires -TWO64 / 2 <= v < TWO64 / 2
    ensures Wrapped(Unsigned(v) % 0x1_0000, 0x1_0000) == v <==> -0x8000 <= v < 0x8000
  {
  }

  lemma TwosAt4(v: int)
    requires -TWO64 / 2 <= v < TWO64 / 2
    ensures Wrapped(Unsigned(v) % 0x1_0000_0000, 0x1_0000_0000) == v <==> -0x8000_0000 <= v < 0x8000_0000
  {
  }

  lemma TwosAt8(v: int)
    requires -TWO64 / 2 <= v < TWO64 / 2
    ensures Wrapped(Unsigned(v) % TWO64, TWO64) == v
  {
  }

  // An integer comes back, with what follows it untouched, exactly when it is in the signed range of its width.
  lemma IntRoundTripExactly(v: int, size: nat, rest: seq<byte>)
    requires size in {1, 2, 4, 8} && -TWO64 / 2 <= v < TWO64 / 2
    ensures DecodeIntN(EncodeIntN(Some(v), size) + rest) == Some((Some(v), rest)) <==> Fits(v, size)
    ensures DecodeIntN(EncodeIntN(None, size) + rest) == Some((None, rest))
  {
    hide Le, FromTwos, Fits;
    TwosBack(v, size);
    var s := EncodeIntN(Some(v), size) + rest;
    assert s[1..1 + size] == Le(Unsigned(v), size) && s[1 + size..] == rest;
    assert (EncodeIntN(None, size) + rest)[1..] == rest;
  }

  // ---------- Chunked strings ----------

  type unit = u: int | 0 <= u < 65536

  const CHUNK := 0x10_0000

  function UnitBytes(u: seq<unit>): (b: seq<byte>)
    ensures |b| == 2 * |u|
  {
    if u == [] then [] else [u[0] % 256, u[0] / 256] + UnitBytes(u[1..])
  }

  // ucs2: pairs of bytes; an odd one at the end is dropped.
  function Units(b: seq<byte>): seq<unit> {
    if |b| < 2 then []
    else
      var high: int := b[1];
      [b[0] + 256 * high] + Units(b[2..])
  }

  lemma {:induction false} UnitsRead(u: seq<unit>)
    ensures Units(UnitBytes(u)) == u
  {
    if u != [] {
      UnitsRead(u[1..]);
      assert UnitBytes(u)[2..] == UnitBytes(u[1..]);
    }
  }

  // Each chunk behind its length, and a chunk of length 0.
  function Chunks(data: seq<byte>): seq<byte>
    decreases |data|
  {
    if data == [] then Le(0, 4)
    else if |data| <= CHUNK then Le(|data|, 4) + data + Le(0, 4)
    else Le(CHUNK, 4) + data[..CHUNK] + Chunks(data[CHUNK..])
  }

  // A string's code units, or NULL.
  function EncodePlp(v: Option<seq<unit>>): seq<byte> {
    if v.None? then seq(8, _ => 0xFF)
    else Le(2 * |v.value|, 8) + Chunks(UnitBytes(v.value))
  }

  function ReadChunks(s: seq<byte>): Option<(seq<byte>, seq<byte>)>
    decreases |s|
  {
    if |s| < 4 then None
    else
      var n := FromLe(s[..4]);
      if n == 0 then Some(([], s[4..]))
      else if |s| < 4 + n then None
      else
        match ReadChunks(s[4 + n..])
        case None => None
        case Some(r) => Some((s[4..4 + n] + r.0, r.1))
  }

  // The value of a chunked string and what follows it; None when the bytes run out.
  function ReadPlp(s: seq<byte>): Option<(Option<seq<unit>>, seq<byte>)> {
    if |s| < 8 then None
    else if s[..8] == seq(8, _ => 0xFF) then Some((None, s[8..]))
    else
      match ReadChunks(s[8..])
      case None => None
      case Some(r) => Some((Some(Units(r.0)), r.1))
  }

  // ---------- The loops ----------

  lemma ChunkTurn(data: seq<byte>, off: nat, out: seq<byte>)
    requires off < |data|
    ensures var end := if off + CHUNK > |data| then |data| else off + CHUNK;
      out + Chunks(data[off..]) == (out + Le(end - off, 4) + data[off..end]) + Chunks(data[end..])
  {
    hide Le;
    var end := if off + CHUNK > |data| then |data| else off + CHUNK;
    var t := data[off..];
    assert t[..end - off] == data[off..end];
    if |t| <= CHUNK {
      assert data[end..] == [] && data[off..end] == t;
      assert out + (Le(|t|, 4) + t + Le(0, 4)) == (out + Le(|t|, 4) + t) + Le(0, 4);
    } else {
      assert t[CHUNK..] == data[end..];
      assert out + (Le(CHUNK, 4) + t[..CHUNK] + Chunks(t[CHUNK..])) ==
        (out + Le(CHUNK, 4) + t[..CHUNK]) + Chunks(t[CHUNK..]);
    }
  }

  method EncodePlpString(v: Option<seq<unit>>) returns (out: seq<byte>)
    ensures out == EncodePlp(v)
  {
    hide Le, Chunks, UnitBytes;
    if v.None? { return seq(8, _ => 0xFF); }
    var data := UnitBytes(v.value);
    out := Le(|data|, 8);
    var off := 0;
    assert data[0..] == data;
    while off < |data|
      invariant off <= |data|
      invariant out + Chunks(data[off..]) == EncodePlp(v)
    {
      ChunkTurn(data, off, out);
      var end := off + CHUNK;
      if end > |data| { end := |data|; }
      out := out + Le(end - off, 4) + data[off..end];
      off := end;
    }
    assert data[off..] == [];
    NoChunks();
    out := out + Le(0, 4);
  }

  lemma NoChunks()
    ensures Chunks([]) == Le(0, 4)
  {
  }

  function More(buf: seq<byte>, r: Option<(seq<byte>, seq<byte>)>): Option<(seq<byte>, seq<byte>)> {
    if r.Some? then Some((buf + r.value.0, r.value.1)) else None
  }

  lemma ReadTurn(s: seq<byte>, pos: nat, buf: seq<byte>)
    requires pos <= |s|
    ensures |s| - pos < 4 ==> More(buf, ReadChunks(s[pos..])) == None
    ensures |s| - pos >= 4 ==>
      var n := FromLe(s[pos..pos + 4]);
      && (n == 0 ==> More(buf, ReadChunks(s[pos..])) == Some((buf, s[pos + 4..])))
      && (n > 0 && |s| - pos < 4 + n ==> More(buf, ReadChunks(s[pos..])) == None)
      && (n > 0 && |s| - pos >= 4 + n ==>
          More(buf, ReadChunks(s[pos..])) == More(buf + s[pos + 4..pos + 4 + n], ReadChunks(s[pos + 4 + n..])))
  {
    hide FromLe;
    var t := s[pos..];
    if |t| >= 4 {
      assert t[..4] == s[pos..pos + 4] && t[4..] == s[pos + 4..];
      var n := FromLe(t[..4]);
      assert buf + [] == buf;
      if 0 < n <= |t| - 4 {
        assert t[4..4 + n] == s[pos + 4..pos + 4 + n] && t[4 + n..] == s[pos + 4 + n..];
        var r := ReadChunks(t[4 + n..]);
        if r.Some? { assert buf + (t[4..4 + n] + r.value.0) == (buf + t[4..4 + n]) + r.value.0; }
      }
    }
  }

  method PlpString(s: seq<byte>) returns (v: Option<(Option<seq<unit>>, seq<byte>)>)
    ensures v == ReadPlp(s)
  {
    hide FromLe, ReadChunks, Units;
    if |s| < 8 { return None; }
    if s[..8] == seq(8, _ => 0xFF) { return Some((None, s[8..])); }
    var pos := 8;
    var buf: seq<byte> := [];
    MoreNothing(ReadChunks(s[8..]));
    while true
      invariant 8 <= pos <= |s|
      invariant ReadChunks(s[8..]) == More(buf, ReadChunks(s[pos..]))
      decreases |s| - pos
    {
      ReadTurn(s, pos, buf);
      if |s| - pos < 4 { return None; }
      var n := FromLe(s[pos..pos + 4]);
      pos := pos + 4;
      if n == 0 { break; }
      if |s| - pos < n { return None; }
      buf := buf + s[pos..pos + n];
      pos := pos + n;
    }
    v := Some((Some(Units(buf)), s[pos..]));
  }

  lemma MoreNothing(r: Option<(seq<byte>, seq<byte>)>)
    ensures More([], r) == r
  {
    if r.Some? { assert [] + r.value.0 == r.value.0; }
  }

  // ---------- Round trip ----------

  // One chunk in front of more bytes.
  lemma ChunkReads(body: seq<byte>, tail: seq<byte>)
    requires |body| < 0x1_0000_0000
    ensures var s := Le(|body|, 4) + body + tail;
      if body == [] then ReadChunks(s) == Some(([], tail)) else ReadChunks(s) == More(body, ReadChunks(tail))
  {
    hide Le, FromLe;
    var s, n := Le(|body|, 4) + body + tail, |body|;
    Widths();
    LeReads(n, 4);
    Parts(Le(n, 4), body, tail);
  }

  lemma Parts(a: seq<byte>, b: seq<byte>, c: seq<byte>)
    ensures var s := a + b + c;
      s[..|a|] == a && s[|a|..|a| + |b|] == b && s[|a| + |b|..] == c && (b == [] ==> s[|a|..] == c)
  {
  }

  lemma {:induction false} ChunksRead(data: seq<byte>, rest: seq<byte>)
    ensures ReadChunks(Chunks(data) + rest) == Some((data, rest))
    decreases |data|
  {
    hide Le, FromLe, ReadChunks;
    ChunkReads([], rest);
    if data == [] {
      assert Le(0, 4) + [] + rest == Le(0, 4) + rest;
    } else {
      var n := if |data| <= CHUNK then |data| else CHUNK;
      var tail := Chunks(data[n..]) + rest;
      NoChunks();
      assert data[..n] + data[n..] == data;
      if n == |data| { assert data[n..] == [] && data[..n] == data; }
      assert Chunks(data) + rest == Le(n, 4) + data[..n] + tail;
      ChunkReads(data[..n], tail);
      ChunksRead(data[n..], rest);
    }
  }

  // A string of any length, or NULL, comes back and leaves what follows alone. A length in bytes is even, so
  // it is never taken for the NULL mark.
  lemma PlpRoundTrip(v: Option<seq<unit>>, rest: seq<byte>)
    ensures ReadPlp(EncodePlp(v) + rest) == Some((v, rest))
  {
    hide Chunks, ReadChunks, Units, UnitBytes;
    var s := EncodePlp(v) + rest;
    if v.None? {
      assert s[..8] == seq(8, _ => 0xFF) && s[8..] == rest;
    } else {
      var head := Le(2 * |v.value|, 8);
      assert s == head + (Chunks(UnitBytes(v.value)) + rest);
      assert s[..8] == head && s[8..] == Chunks(UnitBytes(v.value)) + rest;
      assert head[0] % 2 == 0;
      assert s[..8] != seq(8, _ => 0xFF) by { assert s[..8][0] == head[0]; }
      ChunksRead(UnitBytes(v.value), rest);
      UnitsRead(v.value);
    }
  }
}
