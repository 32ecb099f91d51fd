// The bytes themselves: packet headers, the order of a number's bytes, chunked strings (internal/wire/framing.go,
// result.go; sections 2.2.3.1 and 2.2.5.2.3 of MS-TDS).
module WireLaws {
  import opened Option
  import opened Arithmetic
  import opened Framing
  import opened WireValues

  // Type, status 1 for the last packet of a message, length of the whole packet with its high byte first,
  // channel 0, packet number, window 0.
  lemma HeaderBytes(p: Packet)
    requires 8 + |p.body| < 65536
    ensures Header(p) ==
      [p.typ, if p.eom then 1 else 0, (8 + |p.body|) / 256, (8 + |p.body|) % 256, 0, 0, p.id, 0]
  {
  }

  // ---------- A message, byte by byte ----------

  predicate At(s: seq<byte>, at: nat, part: seq<byte>) { at + |part| <= |s| && s[at..at + |part|] == part }

  // The i-th packet of a message stands at i packet sizes, with its part of the payload behind its header.
  lemma {:induction false} PacketStands(typ: byte, payload: seq<byte>, n: nat, id: byte, i: nat)
    requires 0 < n && (i == 0 || n * i < |payload|)
    ensures At(Stream(Split(typ, payload, n, id)), (8 + n) * i, Bytes(Part(typ, payload, n, id, i)))
    ensures |payload| <= n * (i + 1) ==>
      |Stream(Split(typ, payload, n, id))| == (8 + n) * i + 8 + |Part(typ, payload, n, id, i).body|
    decreases i
  {
    hide Header, Stream, Split, Part;
    var ps, rest := Split(typ, payload, n, id), payload[if |payload| < n then |payload| else n..];
    SplitUnfold(typ, payload, n, id);
    assert ps != [];
    StreamUnfold(ps);
    if i == 0 {
      assert n * 0 == 0 && n * 1 == n;
      Behind(Bytes(ps[0]), Stream(ps[1..]));
    } else {
      assert n * i == n + n * (i - 1) && n * (i - 1) >= 0 && n * (i + 1) == n * i + n;
      assert (8 + n) * i == 8 + n + (8 + n) * (i - 1);
      PacketStands(typ, rest, n, (id + 1) % 256, i - 1);
      PartOfRest(typ, payload, n, id, i);
      Further(Bytes(ps[0]), Stream(ps[1..]), (8 + n) * (i - 1), Bytes(Part(typ, payload, n, id, i)));
    }
  }

  // The i-th n bytes, fewer at the end.
  function Share(payload: seq<byte>, n: nat, i: nat): (b: seq<byte>)
    ensures |b| <= n
  {
    if n * i >= |payload| then [] else if |payload| - n * i <= n then payload[n * i..] else payload[n * i..n * i + n]
  }

  function Part(typ: byte, payload: seq<byte>, n: nat, id: byte, i: nat): Packet {
    Packet(typ, |payload| <= n * i + n, Share(payload, n, i), (id + i) % 256)
  }

  lemma SplitUnfold(typ: byte, payload: seq<byte>, n: nat, id: byte)
    requires 0 < n
    ensures var ps := Split(typ, payload, n, id);
      && ps != [] && ps[0] == Part(typ, payload, n, id, 0)
      && ps[1..] == if |payload| <= n then [] else Split(typ, payload[n..], n, (id + 1) % 256)
    ensures |payload| > n ==> |Bytes(Split(typ, payload, n, id)[0])| == 8 + n
    ensures |Bytes(Split(typ, payload, n, id)[0])| == 8 + |Part(typ, payload, n, id, 0).body|
  {
    hide Header;
    assert n * 0 == 0 && payload[0..] == payload;
  }

  lemma PartOfRest(typ: byte, payload: seq<byte>, n: nat, id: byte, i: nat)
    requires 0 < n && 0 < i && n * i < |payload| && n <= |payload| && n * i == n + n * (i - 1) && n * (i - 1) >= 0
    ensures Part(typ, payload[n..], n, (id + 1) % 256, i - 1) == Part(typ, payload, n, id, i)
  {
    var rest, at := payload[n..], n * (i - 1);
    assert ((id + 1) % 256 + (i - 1)) % 256 == (id + i) % 256;
    assert rest[at..] == payload[n + at..];
    if |payload| - n * i > n { assert rest[at..at + n] == payload[n + at..n + at + n]; }
  }

  lemma StreamUnfold(ps: seq<Packet>)
    requires ps != []
    ensures Stream(ps) == Bytes(ps[0]) + Stream(ps[1..]) && Stream([]) == []
  {
  }

  lemma Behind(a: seq<byte>, tail: seq<byte>)
    ensures At(a + tail, 0, a)
  {
  }

  lemma Further(a: seq<byte>, s: seq<byte>, at: nat, part: seq<byte>)
    requires At(s, at, part)
    ensures At(a + s, |a| + at, part)
  {
    assert (a + s)[|a| + at..|a| + at + |part|] == s[at..at + |part|];
  }

  // The i-th packet of a message stands at i packet sizes: a header of eight bytes and its part of the payload.
  lemma PacketBytes(m: Message, size: nat, i: nat)
    requires 8 < size < 65536 && (i == 0 || (size - 8) * i < |m.payload|)
    ensures var b := Share(m.payload, size - 8, i);
      var last := |m.payload| <= (size - 8) * i + (size - 8);
      && At(Written(m, size), size * i,
        [m.typ, if last then 1 else 0, (8 + |b|) / 256, (8 + |b|) % 256, 0, 0, (1 + i) % 256, 0] + b)
      && (last ==> |Written(m, size)| == size * i + 8 + |b|)
  {
    hide Header, Stream, Split, Share;
    var max: nat := size - 8;
    PacketStands(m.typ, m.payload, max, 1, i);
    HeaderBytes(Part(m.typ, m.payload, max, 1, i));
    assert max * (i + 1) == max * i + max;
  }

  // A packet size that leaves no room behind the header stands for 4096.
  lemma SmallSizeIsDefault(m: Message, size: int)
    requires size <= 8
    ensures Written(m, size) == Written(m, 4096)
  {
  }

  // ---------- Numbers and strings ----------

  // The low byte comes first.
  lemma LeBytes(v: nat)
    ensures Le(v, 1) == [v % 0x100]
    ensures Le(v, 2) == [v % 0x100, v / 0x100 % 0x100]
    ensures Le(v, 4) == [v % 0x100, v / 0x100 % 0x100, v / 0x1_0000 % 0x100, v / 0x100_0000 % 0x100]
  {
    assert Le(v / 0x100_0000, 0) == [];
    assert v / 0x100 / 0x100 == v / 0x1_0000 && v / 0x1_0000 / 0x100 == v / 0x100_0000;
  }

  // An integer in two's complement: of -2 the four bytes are FE FF FF FF.
  lemma IntBytes(v: int)
    requires -0x8000_0000 <= v < 0x8000_0000
    ensures EncodeIntN(Some(v), 4) == [4, v % 0x100, v / 0x100 % 0x100, v / 0x1_0000 % 0x100, v / 0x100_0000 % 0x100]
  {
    hide Le;
    LeBytes(Unsigned(v));
    SameBytes(v);
  }

  // Adding a multiple of the width changes no byte.
  lemma SameBytes(v: int)
    ensures var u := v + TWO64;
      && u % 0x100 == v % 0x100 && u / 0x100 % 0x100 == v / 0x100 % 0x100
      && u / 0x1_0000 % 0x100 == v / 0x1_0000 % 0x100 && u / 0x100_0000 % 0x100 == v / 0x100_0000 % 0x100
  {
    Shifted(v, 0x100, 0x100_0000_0000_0000);
    Shifted(v, 0x1_0000, 0x1_0000_0000_0000);
    Shifted(v, 0x100_0000, 0x100_0000_0000);
    Shifted(v / 0x100, 0x100, 0x1_0000_0000_0000);
    Shifted(v / 0x1_0000, 0x100, 0x100_0000_0000);
    Shifted(v / 0x100_0000, 0x100, 0x1_0000_0000);
  }

  lemma Shifted(v: int, d: nat, k: nat)
    requires d > 0
    ensures (v + d * k) % d == v % d && (v + d * k) / d == v / d + k
  {
    var q, r := v / d, v % d;
    assert v + d * k == d * (q + k) + r;
    Quotient(v + d * k, d, q + k, r);
  }

  // A UTF-16 unit's low byte comes first.
  lemma {:induction false} UnitOrder(u: seq<unit>, i: nat)
    requires i < |u|
    ensures UnitBytes(u)[2 * i] == u[i] % 256 && UnitBytes(u)[2 * i + 1] == u[i] / 256
  {
    if i > 0 { UnitOrder(u[1..], i - 1); }
  }

  // A length below 2^24 in four bytes.
  function Four(n: nat): seq<byte>
    requires n < 0x100_0000
  {
    [n % 0x100, n / 0x100 % 0x100, n / 0x1_0000, 0]
  }

  // A string that fits one chunk: its length in bytes in eight, the chunk's in four, the chunk, a chunk of length 0.
  lemma OneChunk(u: seq<unit>)
    requires 0 < 2 * |u| <= 0x10_0000
    ensures EncodePlp(Some(u)) ==
      Four(2 * |u|) + [0, 0, 0, 0] + (Four(2 * |u|) + UnitBytes(u) + [0, 0, 0, 0])
  {
    hide Le, UnitBytes, Four, Chunks;
    LeSmall(2 * |u|);
    LeBytes(0);
    ChunkAlone(UnitBytes(u));
  }

  lemma ChunkAlone(data: seq<byte>)
    requires 0 < |data| <= 0x10_0000
    ensures Chunks(data) == Le(|data|, 4) + data + Le(0, 4)
  {
    hide Le;
  }

  lemma LeSmall(v: nat)
    requires v < 0x100_0000
    ensures Le(v, 4) == Four(v)
    ensures Le(v, 8) == Le(v, 4) + [0, 0, 0, 0]
  {
    hide Le;
    LeBytes(v);
    LeBytes(0);
    Widths();
    LeFills(v, 4, 4);
  }

  lemma {:induction false} LeFills(v: nat, a: nat, b: nat)
    requires v < Pow256(a)
    ensures Le(v, a + b) == Le(v, a) + Le(0, b)
  {
    if a > 0 { LeFills(v / 256, a - 1, b); }
  }
}
