// Packets of the tabular data stream (internal/wire/framing.go; section 2.2.3 of MS-TDS).

module Framing {
  import opened Option

  type byte = b: int | 0 <= b < 256

  const HEADER := 8
  const DEFAULT_PACKET_SIZE := 4096

  datatype Message = Message(typ: byte, payload: seq<byte>)

  // One packet; eom is the end-of-message bit of its status.
  datatype Packet = Packet(typ: byte, eom: bool, body: seq<byte>, id: byte)

  // binary.BigEndian.PutUint16 keeps the low sixteen bits.
  function Big16(n: nat): seq<byte> { [n / 256 % 256, n % 256] }

  function FromBig16(b: seq<byte>): nat
    requires |b| == 2
  {
    var high: int := b[0];
    high * 256 + b[1]
  }

  function Header(p: Packet): (h: seq<byte>)
    ensures |h| == HEADER
  {
    [p.typ, if p.eom then 1 else 0] + Big16(HEADER + |p.body|) + [0, 0, p.id, 0]
  }

  function Bytes(p: Packet): seq<byte> { Header(p) + p.body }

  function Stream(ps: seq<Packet>): seq<byte> { if ps == [] then [] else Bytes(ps[0]) + Stream(ps[1..]) }

  // ---------- Writing ----------

  function PacketSize(size: int): int { if size <= HEADER then DEFAULT_PACKET_SIZE else size }

  function Split(typ: byte, payload: seq<byte>, maxBody: nat, id: byte): seq<Packet>
    requires maxBody > 0
    decreases |payload|
  {
    if |payload| > maxBody then
      [Packet(typ, false, payload[..maxBody], id)] + Split(typ, payload[maxBody..], maxBody, (id + 1) % 256)
    else [Packet(typ, true, payload, id)]
  }

  function Packets(m: Message, size: int): seq<Packet> { Split(m.typ, m.payload, PacketSize(size) - HEADER, 1) }

  function Written(m: Message, size: int): seq<byte> { Stream(Packets(m, size)) }

  class Writer {
    var out: seq<byte>

    constructor ()
      ensures out == []
    {
      out := [];
    }

    method Write(b: seq<byte>)
      modifies this
      ensures out == old(out) + b
    {
      out := out + b;
    }
  }

  method WriteMessage(w: Writer, m: Message, size: int)
    modifies w
    ensures w.out == old(w.out) + Written(m, size)
  {
    hide Stream, Header;
    var packetSize := if size <= HEADER then DEFAULT_PACKET_SIZE else size;
    var maxBody := packetSize - HEADER;
    var payload := m.payload;
    var id: byte := 1;
    while true
      invariant w.out + Stream(Split(m.typ, payload, maxBody, id)) == old(w.out) + Written(m, size)
      decreases |payload|
    {
      var chunk, last := payload, true;
      if |chunk| > maxBody {
        chunk, last := chunk[..maxBody], false;
      }
      ghost var before := w.out;
      var p := Packet(m.typ, last, chunk, id);
      w.Write(Header(p));
      w.Write(chunk);
      SplitTurn(m.typ, payload, maxBody, id, before);
      assert w.out == before + Bytes(p);
      if last { return; }
      payload := payload[maxBody..];
      id := (id + 1) % 256;
    }
  }

  lemma SplitTurn(typ: byte, payload: seq<byte>, maxBody: nat, id: byte, before: seq<byte>)
    requires maxBody > 0
    ensures |payload| <= maxBody ==>
      before + Stream(Split(typ, payload, maxBody, id)) == before + Bytes(Packet(typ, true, payload, id))
    ensures |payload| > maxBody ==>
      before + Stream(Split(typ, payload, maxBody, id)) ==
      (before + Bytes(Packet(typ, false, payload[..maxBody], id))) +
      Stream(Split(typ, payload[maxBody..], maxBody, (id + 1) % 256))
  {
    var ps := Split(typ, payload, maxBody, id);
    if |payload| <= maxBody {
      assert ps[1..] == [];
    } else {
      assert ps[1..] == Split(typ, payload[maxBody..], maxBody, (id + 1) % 256);
    }
  }

  // ---------- What is written ----------

  function Bodies(ps: seq<Packet>): seq<byte> { if ps == [] then [] else ps[0].body + Bodies(ps[1..]) }

  // The bodies are the payload cut into full packets and a rest; the last packet alone ends the message.
  lemma {:induction false} SplitShape(typ: byte, payload: seq<byte>, maxBody: nat, id: byte)
    requires maxBody > 0
    ensures var ps := Split(typ, payload, maxBody, id);
      && ps != [] && Bodies(ps) == payload
      && (forall i :: 0 <= i < |ps| ==> ps[i].typ == typ && ps[i].eom == (i == |ps| - 1) && |ps[i].body| <= maxBody)
      && (forall i :: 0 <= i < |ps| - 1 ==> |ps[i].body| == maxBody)
      && (forall i :: 0 <= i < |ps| ==> ps[i].id == (id + i) % 256)
    decreases |payload|
  {
    var ps := Split(typ, payload, maxBody, id);
    if |payload| > maxBody {
      var rest := Split(typ, payload[maxBody..], maxBody, (id + 1) % 256);
      SplitShape(typ, payload[maxBody..], maxBody, (id + 1) % 256);
      assert ps[1..] == rest;
      assert payload == payload[..maxBody] + payload[maxBody..];
      forall i | 0 <= i < |ps|
        ensures ps[i].typ == typ && ps[i].eom == (i == |ps| - 1) && |ps[i].body| <= maxBody &&
          ps[i].id == (id + i) % 256
      {
        if i > 0 { assert ps[i] == rest[i - 1]; }
      }
    } else {
      assert ps[1..] == [] && payload + [] == payload;
    }
  }

  // ---------- Reading ----------

  // The packets up to the first that ends the message, from a stream; None on a short stream or a bad length.
  function Read(s: seq<byte>): Option<(seq<byte>, seq<byte>)>
    decreases |s|
  {
    if |s| < HEADER then None
    else
      var length := FromBig16(s[2..4]);
      if length < HEADER || |s| < length then None
      else
        var body, rest := s[HEADER..length], s[length..];
        if s[1] % 2 == 1 then Some((body, rest))
        else
          match Read(rest)
          case None => None
          case Some(r) => Some((body + r.0, r.1))
  }

  // The type comes from the first packet.
  function ReadOne(s: seq<byte>): Option<(Message, seq<byte>)> {
    match Read(s)
    case None => None
    case Some(r) => Some((Message(s[0], r.0), r.1))
  }

  class Reader {
    var rest: seq<byte>

    constructor (s: seq<byte>)
      ensures rest == s
    {
      rest := s;
    }

    // io.ReadFull: all of n bytes, or an error.
    method ReadFull(n: nat) returns (b: Option<seq<byte>>)
      modifies this
      ensures b == if |old(rest)| < n then None else Some(old(rest)[..n])
      ensures rest == if |old(rest)| < n then [] else old(rest)[n..]
    {
      if |rest| < n {
        b, rest := None, [];
      } else {
        b, rest := Some(rest[..n]), rest[n..];
      }
    }
  }

  function Onto(payload: seq<byte>, r: Option<(seq<byte>, seq<byte>)>): Option<(seq<byte>, seq<byte>)> {
    if r.Some? then Some((payload + r.value.0, r.value.1)) else None
  }

  lemma ReadTurn(s: seq<byte>, payload: seq<byte>)
    ensures |s| < HEADER ==> Onto(payload, Read(s)) == None
    ensures |s| >= HEADER && (FromBig16(s[2..4]) < HEADER || |s| < FromBig16(s[2..4])) ==>
      Onto(payload, Read(s)) == None
    ensures |s| >= HEADER && HEADER <= FromBig16(s[2..4]) <= |s| ==>
      var n := FromBig16(s[2..4]);
      Onto(payload, Read(s)) ==
        if s[1] % 2 == 1 then Some((payload + s[HEADER..n], s[n..])) else Onto(payload + s[HEADER..n], Read(s[n..]))
  {
    if |s| >= HEADER && HEADER <= FromBig16(s[2..4]) <= |s| {
      var n := FromBig16(s[2..4]);
      var r := Read(s[n..]);
      if r.Some? { assert payload + (s[HEADER..n] + r.value.0) == (payload + s[HEADER..n]) + r.value.0; }
    }
  }

  method ReadMessage(r: Reader) returns (m: Option<Message>)
    modifies r
    ensures match ReadOne(old(r.rest))
      case None => m == None
      case Some(p) => m == Some(p.0) && r.rest == p.1
  {
    hide Read, FromBig16;
    ghost var s := r.rest;
    var typ: byte := 0;
    var payload: seq<byte> := [];
    var first := true;
    OntoNothing(s);
    while true
      invariant Read(s) == Onto(payload, Read(r.rest))
      invariant first ==> r.rest == s
      invariant !first ==> s != [] && typ == s[0]
      decreases |r.rest|
    {
      ghost var t := r.rest;
      ReadTurn(t, payload);
      var hdr := r.ReadFull(HEADER);
      if hdr.None? { return None; }
      assert hdr.value[2..4] == t[2..4];
      var length := FromBig16(hdr.value[2..4]);
      if length < HEADER { return None; }
      if first {
        typ, first := hdr.value[0], false;
      }
      var body := r.ReadFull(length - HEADER);
      if body.None? { return None; }
      assert body.value == t[HEADER..length] && r.rest == t[length..];
      payload := payload + body.value;
      if hdr.value[1] % 2 == 1 { return Some(Message(typ, payload)); }
    }
  }

  lemma OntoNothing(s: seq<byte>)
    ensures Read(s) == Onto([], Read(s))
  {
    if Read(s).Some? { assert [] + Read(s).value.0 == Read(s).value.0; }
  }

  // ---------- Round trip ----------

  lemma HeaderReads(p: Packet, rest: seq<byte>)
    requires HEADER + |p.body| < 65536
    ensures var s := Bytes(p) + rest;
      && |s| >= HEADER + |p.body| && s[0] == p.typ && s[1] == (if p.eom then 1 else 0)
      && FromBig16(s[2..4]) == HEADER + |p.body| && s[HEADER..HEADER + |p.body|] == p.body &&
        s[HEADER + |p.body|..] == rest
  {
    var s, h := Bytes(p) + rest, Header(p);
    assert s[..HEADER] == h && s[2] == h[2] && s[3] == h[3];
  }

  lemma {:induction false} StreamReads(ps: seq<Packet>, rest: seq<byte>)
    requires ps != []
    requires forall i :: 0 <= i < |ps| ==> ps[i].eom == (i == |ps| - 1) && HEADER + |ps[i].body| < 65536
    ensures Read(Stream(ps) + rest) == Some((Bodies(ps), rest))
    ensures |Stream(ps)| > 0 && Stream(ps)[0] == ps[0].typ
  {
    hide Read, Header, FromBig16;
    var tail := Stream(ps[1..]) + rest;
    assert Stream(ps) + rest == Bytes(ps[0]) + tail;
    HeaderReads(ps[0], tail);
    ReadTurn(Bytes(ps[0]) + tail, []);
    OntoNothing(Bytes(ps[0]) + tail);
    assert [] + ps[0].body == ps[0].body && Bytes(ps[0])[0] == (Bytes(ps[0]) + tail)[0];
    if |ps| == 1 {
      assert ps[1..] == [] && Bodies([]) == [] && ps[0].body + [] == ps[0].body && [] + rest == rest;
    } else {
      StreamReads(ps[1..], rest);
    }
  }

  lemma WrittenReads(m: Message, size: int, rest: seq<byte>)
    requires PacketSize(size) <= 65535
    ensures ReadOne(Written(m, size) + rest) == Some((m, rest))
  {
    hide Read, Header;
    var ps := Packets(m, size);
    SplitShape(m.typ, m.payload, PacketSize(size) - HEADER, 1);
    StreamReads(ps, rest);
    assert (Stream(ps) + rest)[0] == Stream(ps)[0];
  }

  // Every message comes back whole, and nothing of what follows is touched, exactly when a full packet's length
  // fits its sixteen-bit field.
  lemma RoundTripExactly(size: int)
    ensures (forall m: Message, rest: seq<byte> :: ReadOne(Written(m, size) + rest) == Some((m, rest))) <==>
      PacketSize(size) <= 65535
  {
    if PacketSize(size) <= 65535 {
      forall m: Message, rest: seq<byte> ensures ReadOne(Written(m, size) + rest) == Some((m, rest)) {
        WrittenReads(m, size, rest);
      }
    } else {
      var m := Message(1, seq(65528, _ => 0));
      LongPacketFails(m, size);
      assert Written(m, size) + [] == Written(m, size);
    }
  }

  // A packet of exactly 65536 bytes announces the length 0.
  lemma LongPacketFails(m: Message, size: int)
    requires PacketSize(size) > 65535 && |m.payload| == 65528
    ensures ReadOne(Written(m, size)) == None
  {
    var p := Packet(m.typ, true, m.payload, 1);
    assert Packets(m, size) == [p];
    StreamOne(p);
    var s := Written(m, size);
    assert s == Header(p) + p.body;
    assert s[2..4] == Header(p)[2..4] == [0, 0];
  }

  lemma StreamOne(p: Packet)
    ensures Stream([p]) == Bytes(p)
  {
    hide Header;
    assert [p][1..] == [] && Stream([]) == [];
    assert Bytes(p) + [] == Bytes(p);
  }

  function WrittenAll(ms: seq<Message>, size: int): seq<byte> {
    if ms == [] then [] else Written(ms[0], size) + WrittenAll(ms[1..], size)
  }

  function ReadAll(s: seq<byte>, n: nat): Option<(seq<Message>, seq<byte>)>
    decreases n
  {
    if n == 0 then Some(([], s))
    else
      match ReadOne(s)
      case None => None
      case Some(r) =>
        match ReadAll(r.1, n - 1)
        case None => None
        case Some(more) => Some(([r.0] + more.0, more.1))
  }

  // A stream of messages is read back message by message.
  lemma {:induction false} StreamRoundTrip(ms: seq<Message>, size: int, rest: seq<byte>)
    requires PacketSize(size) <= 65535
    ensures ReadAll(WrittenAll(ms, size) + rest, |ms|) == Some((ms, rest))
  {
    hide ReadOne, Written;
    if ms == [] {
      assert [] + rest == rest;
    } else {
      var tail := WrittenAll(ms[1..], size) + rest;
      assert WrittenAll(ms, size) + rest == Written(ms[0], size) + tail;
      WrittenReads(ms[0], size, tail);
      StreamRoundTrip(ms[1..], size, rest);
      assert [ms[0]] + ms[1..] == ms;
    }
  }
}
