/** MySQL packet framing and the decoders the session uses to find response boundaries. */
module MySqlWire {
  import opened Bytes
  import opened Net
  import opened Framing

  const MAX_PACKET: nat := 0x10_0000

  datatype Packet = Packet(seqId: Byte, body: seq<Byte>)

  predicate InBound(p: Packet) {
    0 < |p.body| <= MAX_PACKET
  }

  predicate AllInBound(ps: seq<Packet>) {
    forall i :: 0 <= i < |ps| ==> InBound(ps[i])
  }

  function Encode(p: Packet): seq<Byte> {
    ToLE(|p.body|, 3) + [p.seqId] + p.body
  }

  function ReadPacket(stream: seq<Byte>): (r: ReadOutcome<Packet>)
    ensures r.Read? ==> InBound(r.message) && |r.rest| < |stream|
  {
    if |stream| < 4 then Ended else
      var n := FromLE(stream[..3]);
      if n == 0 || n > MAX_PACKET then Malformed
      else if |stream| - 4 < n then Ended
      else Read(Packet(stream[3], stream[4..4 + n]), stream[4 + n..])
  }

  method WritePacket(p: Packet, writes: seq<WriteStep>) returns (sent: seq<Byte>, ok: bool)
    ensures ok <==> InBound(p) && Completes(|Encode(p)|, writes)
    ensures sent == if InBound(p) then Encode(p)[..Accepted(|Encode(p)|, writes)] else []
  {
    if |p.body| == 0 || |p.body| > MAX_PACKET {
      return [], false;
    }
    sent, ok := WriteAll(Encode(p), writes);
  }

  lemma ReadEncoded(p: Packet, rest: seq<Byte>)
    requires InBound(p)
    ensures ReadPacket(Encode(p) + rest) == Read(p, rest)
  {
    var s := Encode(p) + rest;
    assert Pow256(3) == 0x100_0000;
    LittleEndianInverse(|p.body|, 3);
    assert s[..3] == ToLE(|p.body|, 3);
    assert s[4..4 + |p.body|] == p.body;
    assert s[4 + |p.body|..] == rest;
  }

  lemma TornIsEnded(p: Packet, torn: seq<Byte>)
    requires InBound(p) && torn <= Encode(p) && torn != Encode(p)
    ensures ReadPacket(torn) == Ended
  {
    if |torn| >= 4 {
      assert Pow256(3) == 0x100_0000;
      LittleEndianInverse(|p.body|, 3);
      assert torn[..3] == ToLE(|p.body|, 3);
    }
  }

  /** A header is refused exactly if it announces no body or more than 1 MiB. */
  lemma {:induction false} RefusedLength(n: nat, seqId: Byte, rest: seq<Byte>)
    requires n < 0x100_0000
    ensures ReadPacket(ToLE(n, 3) + [seqId] + rest).Malformed? <==> n == 0 || n > 1_048_576
  {
    var stream := ToLE(n, 3) + [seqId] + rest;
    PowersOf256();
    LittleEndianInverse(n, 3);
    assert stream[..3] == ToLE(n, 3);
  }

  /** Packets cross any connection with their boundaries intact. */
  lemma PacketStream(ps: seq<Packet>, schedules: seq<seq<WriteStep>>)
    requires AllInBound(ps) && |schedules| == |ps|
    ensures ReadAll(ReadPacket, Delivered(Encode, ps, schedules)) == ps[..Whole(Encode, ps, schedules)]
  {
    forall i | 0 <= i < |ps|
      ensures Faithful(Encode, ReadPacket, ps[i])
    {
      forall rest ensures ReadPacket(Encode(ps[i]) + rest) == Read(ps[i], rest) { ReadEncoded(ps[i], rest); }
      forall torn | torn <= Encode(ps[i]) && torn != Encode(ps[i])
        ensures ReadPacket(torn) == Ended
      {
        TornIsEnded(ps[i], torn);
      }
    }
    ShortWritesKeepBoundaries(Encode, ReadPacket, ps, schedules);
  }

  /**
   * A length-encoded integer at the start of `b`: its value and its width, unless the marker byte or the length forbids
   * one.
   */
  datatype LenEncInt = LenEncInt(value: nat, width: nat)

  function LenEnc(b: seq<Byte>): (r: Option<LenEncInt>)
    ensures r.Some? ==> 0 < r.value.width <= |b|
  {
    if |b| == 0 || b[0] == 0xfb || b[0] == 0xff then None
    else if b[0] < 0xfb then Some(LenEncInt(b[0], 1)) else
      var n := if b[0] == 0xfc then 3 else if b[0] == 0xfd then 4 else 9;
      if |b| < n then None else Some(LenEncInt(FromLE(b[1..n]), n))
  }

  /** The shortest encoding of `v`, as section "Protocol::LengthEncodedInteger" of the MySQL protocol prescribes. */
  function ToLenEnc(v: nat): (b: seq<Byte>)
    requires v < 0x1_0000_0000_0000_0000
    ensures |b| > 0
  {
    if v < 0xfb then [v]
    else if v < 0x1_0000 then [0xfc] + ToLE(v, 2)
    else if v < 0x100_0000 then [0xfd] + ToLE(v, 3)
    else [0xfe] + ToLE(v, 8)
  }

  lemma LenEncInverse(v: nat, rest: seq<Byte>)
    requires v < 0x1_0000_0000_0000_0000
    ensures LenEnc(ToLenEnc(v) + rest) == Some(LenEncInt(v, |ToLenEnc(v)|))
  {
    if v >= 0xfb {
      var n := if v < 0x1_0000 then 2 else if v < 0x100_0000 then 3 else 8;
      PowersOf256();
      LittleEndianInverse(v, n);
      assert (ToLenEnc(v) + rest)[1..n + 1] == ToLE(v, n);
    }
  }

  /** There is no integer exactly if the marker byte forbids one or the bytes it announces are missing. */
  lemma {:induction false} NoLenEnc(b: seq<Byte>)
    ensures LenEnc(b).None? <==>
            b == [] || b[0] == 0xfb || b[0] == 0xff || (b[0] == 0xfc && |b| < 3) || (b[0] == 0xfd && |b| < 4)
            || (b[0] == 0xfe && |b| < 9)
  {
  }

  lemma PowersOf256()
    ensures Pow256(2) == 0x1_0000 && Pow256(3) == 0x100_0000 && Pow256(8) == 0x1_0000_0000_0000_0000
  {
    assert Pow256(2) == 0x1_0000;
    assert Pow256(4) == 0x1_0000_0000;
    assert Pow256(6) == 0x1_0000_0000_0000;
  }

  function OkStatus(b: seq<Byte>): (r: Option<nat>)
    ensures r.Some? ==> r.value < 0x1_0000
  {
    if |b| < 7 || (b[0] != 0 && b[0] != 0xfe) then None else
      var n := LenEnc(b[1..]);
      if n.None? then None else
        var m := LenEnc(b[1 + n.value.width..]);
        if m.None? || |b| < 1 + n.value.width + m.value.width + 4 then None else
          var at := 1 + n.value.width + m.value.width;
          assert Pow256(2) == 0x1_0000;
          Some(FromLE(b[at..at + 2]))
  }

  function EofStatus(b: seq<Byte>, modern: bool): (r: Option<nat>)
    ensures r.Some? ==> b != [] && b[0] == 0xfe
  {
    if |b| == 0 || b[0] != 0xfe then None
    else if modern then OkStatus(b)
    else if |b| != 5 then None
    else Some(FromLE(b[3..5]))
  }

  /** An OK packet body; header 0xfe marks the one that closes a result set when EOF packets are deprecated. */
  function OkBody(header: Byte, affected: nat, insertId: nat, status: nat, warnings: nat,
                  info: seq<Byte>): (b: seq<Byte>)
    requires affected < 0x1_0000_0000_0000_0000 && insertId < 0x1_0000_0000_0000_0000
  {
    [header] + ToLenEnc(affected) + ToLenEnc(insertId) + ToLE(status, 2) + ToLE(warnings, 2) + info
  }

  function EofBody(status: nat, warnings: nat): (b: seq<Byte>) {
    [0xfe] + ToLE(warnings, 2) + ToLE(status, 2)
  }

  /** Two length-encoded integers and a status word, read back one after the other. */
  lemma OkStatusAt(b: seq<Byte>, header: Byte, a: seq<Byte>, i: seq<Byte>, tail: seq<Byte>)
    requires (header == 0 || header == 0xfe) && b == [header] + a + i + tail
    requires |a| > 0 && |i| > 0 && |tail| >= 4
    requires LenEnc(a + (i + tail)).Some? && LenEnc(a + (i + tail)).value.width == |a|
    requires LenEnc(i + tail).Some? && LenEnc(i + tail).value.width == |i|
    ensures OkStatus(b) == Some(FromLE(tail[..2]))
  {
    assert b[1..] == a + (i + tail);
    assert b[1 + |a|..] == i + tail;
    assert b[1 + |a| + |i|..1 + |a| + |i| + 2] == tail[..2];
  }

  lemma OkStatusInverse(header: Byte, affected: nat, insertId: nat, status: nat, warnings: nat, info: seq<Byte>)
    requires header == 0 || header == 0xfe
    requires affected < 0x1_0000_0000_0000_0000 && insertId < 0x1_0000_0000_0000_0000
    requires status < 0x1_0000
    ensures OkStatus(OkBody(header, affected, insertId, status, warnings, info)) == Some(status)
  {
    var tail := ToLE(status, 2) + ToLE(warnings, 2) + info;
    var a, i := ToLenEnc(affected), ToLenEnc(insertId);
    assert OkBody(header, affected, insertId, status, warnings, info) == [header] + a + i + tail;
    LenEncInverse(affected, i + tail);
    LenEncInverse(insertId, tail);
    OkStatusAt([header] + a + i + tail, header, a, i, tail);
    assert tail[..2] == ToLE(status, 2);
    PowersOf256();
    LittleEndianInverse(status, 2);
  }

  lemma EofStatusInverse(status: nat, warnings: nat)
    requires status < 0x1_0000
    ensures EofStatus(EofBody(status, warnings), false) == Some(status)
  {
    assert EofBody(status, warnings)[3..5] == ToLE(status, 2);
    PowersOf256();
    LittleEndianInverse(status, 2);
  }
}
