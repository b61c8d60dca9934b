/** PostgreSQL frames and the startup message. */
module PgWire {
  import opened Bytes
  import opened Net
  import opened Framing

  const MAX_FRAME: nat := 0x10_0000
  const PROTOCOL_3_0: nat := 196608

  datatype Frame = Frame(kind: Byte, body: seq<Byte>)

  predicate InBound(f: Frame) {
    |f.body| + 4 <= MAX_FRAME
  }

  function Encode(f: Frame): seq<Byte> {
    [f.kind] + ToBE(|f.body| + 4, 4) + f.body
  }

  /** A length-prefixed packet; the length counts itself. */
  function ReadPacket(stream: seq<Byte>, limit: nat): (r: ReadOutcome<seq<Byte>>)
    ensures r.Read? ==> |r.rest| < |stream|
  {
    if |stream| < 4 then Ended else
      var n := FromBE(stream[..4]);
      if n < 4 || n > limit then Malformed
      else if |stream| < n then Ended
      else Read(stream[4..n], stream[n..])
  }

  function ReadFrame(stream: seq<Byte>): (r: ReadOutcome<Frame>)
    ensures r.Read? ==> |r.rest| < |stream|
  {
    if stream == [] then Ended else
      match ReadPacket(stream[1..], MAX_FRAME)
      case Read(body, rest) => Read(Frame(stream[0], body), rest)
      case Malformed => Malformed
      case Ended => Ended
  }

  method WriteFrame(f: Frame, writes: seq<WriteStep>) returns (sent: seq<Byte>, ok: bool)
    ensures ok <==> Completes(|Encode(f)|, writes)
    ensures sent == Encode(f)[..Accepted(|Encode(f)|, writes)]
  {
    sent, ok := WriteAll(Encode(f), writes);
  }

  lemma LengthInverse(n: nat)
    requires n <= MAX_FRAME
    ensures FromBE(ToBE(n, 4)) == n
  {
    assert Pow256(4) == 0x1_0000_0000;
    BigEndianInverse(n, 4);
  }

  lemma ReadEncoded(f: Frame, rest: seq<Byte>)
    requires InBound(f)
    ensures ReadFrame(Encode(f) + rest) == Read(f, rest)
  {
    var n := |f.body| + 4;
    LengthInverse(n);
    var s := (Encode(f) + rest)[1..];
    assert s == ToBE(n, 4) + f.body + rest;
    assert s[..4] == ToBE(n, 4);
    assert s[4..n] == f.body;
    assert s[n..] == rest;
  }

  lemma TornIsEnded(f: Frame, torn: seq<Byte>)
    requires InBound(f) && torn <= Encode(f) && torn != Encode(f)
    ensures ReadFrame(torn) == Ended
  {
    if |torn| >= 5 {
      LengthInverse(|f.body| + 4);
      assert torn[1..][..4] == ToBE(|f.body| + 4, 4);
    }
  }

  /** A length is refused exactly if it does not cover itself or exceeds 1 MiB. */
  lemma {:induction false} RefusedLength(kind: Byte, n: nat, rest: seq<Byte>)
    requires n < 0x1_0000_0000
    ensures ReadFrame([kind] + ToBE(n, 4) + rest).Malformed? <==> n < 4 || n > 1_048_576
  {
    var stream := ([kind] + ToBE(n, 4) + rest)[1..];
    assert Pow256(4) == 0x1_0000_0000;
    BigEndianInverse(n, 4);
    assert stream[..4] == ToBE(n, 4);
  }

  /** Frames cross any connection with their boundaries intact. */
  lemma FrameStream(fs: seq<Frame>, schedules: seq<seq<WriteStep>>)
    requires (forall i :: 0 <= i < |fs| ==> InBound(fs[i])) && |schedules| == |fs|
    ensures ReadAll(ReadFrame, Delivered(Encode, fs, schedules)) == fs[..Whole(Encode, fs, schedules)]
  {
    forall i | 0 <= i < |fs|
      ensures Faithful(Encode, ReadFrame, fs[i])
    {
      forall rest ensures ReadFrame(Encode(fs[i]) + rest) == Read(fs[i], rest) { ReadEncoded(fs[i], rest); }
      forall torn | torn <= Encode(fs[i])
          && torn != Encode(fs[i]) ensures ReadFrame(torn) == Ended { TornIsEnded(fs[i], torn); }
    }
    ShortWritesKeepBoundaries(Encode, ReadFrame, fs, schedules);
  }

  /** The pieces of `b` between zero bytes; there is always one more piece than zero bytes. */
  function Split(b: seq<Byte>): (fields: seq<seq<Byte>>)
    ensures |fields| > 0
  {
    if b == [] then [[]]
    else if b[0] == 0 then [[]] + Split(b[1..])
    else
      var rest := Split(b[1..]);
      [[b[0]] + rest[0]] + rest[1..]
  }

  function Join(fields: seq<seq<Byte>>): seq<Byte>
    requires fields != []
  {
    if |fields| == 1 then fields[0] else fields[0] + [0] + Join(fields[1..])
  }

  predicate ZeroFree(fields: seq<seq<Byte>>) {
    forall i :: 0 <= i < |fields| ==> 0 !in fields[i]
  }

  lemma {:induction false} JoinSplit(b: seq<Byte>)
    ensures Join(Split(b)) == b && ZeroFree(Split(b))
  {
    if b == [] {
    } else {
      JoinSplit(b[1..]);
      var rest := Split(b[1..]);
      if b[0] == 0 {
        assert Split(b)[1..] == rest;
      } else {
        assert |rest| > 1 ==> Split(b)[1..] == rest[1..];
      }
    }
  }

  lemma {:induction false} SplitJoin(fields: seq<seq<Byte>>)
    requires fields != [] && ZeroFree(fields)
    ensures Split(Join(fields)) == fields
    decreases |fields|, |fields[0]|
  {
    var b := Join(fields);
    if fields[0] == [] {
      if |fields| > 1 {
        SplitJoin(fields[1..]);
        assert b == [0] + Join(fields[1..]);
      }
    } else {
      var shorter := fields[0 := fields[0][1..]];
      assert fields[0][0] in fields[0];
      assert ZeroFree(shorter);
      SplitJoin(shorter);
      assert shorter[1..] == fields[1..];
      assert b == [fields[0][0]] + Join(shorter);
      assert [fields[0][0]] + shorter[0] == fields[0];
      assert Split(b) == [fields[0]] + fields[1..];
    }
  }

  /** A startup parameter: key and value are C strings. */
  datatype Param = Param(key: seq<Byte>, value: seq<Byte>)

  predicate AllowedKey(key: seq<Byte>) {
    key != [] && key != Ascii("replication")
  }

  predicate AllowedParam(p: Param) {
    0 !in p.key && 0 !in p.value && AllowedKey(p.key)
  }

  predicate AllowedParams(ps: seq<Param>) {
    forall i :: 0 <= i < |ps| ==> AllowedParam(ps[i])
  }

  function Print(ps: seq<Param>): seq<Byte> {
    if ps == [] then [] else ps[0].key + [0] + ps[0].value + [0] + Print(ps[1..])
  }

  /** A protocol 3.0 startup message as a client prints it (section "Message Formats" of the PostgreSQL protocol). */
  function StartupMessage(ps: seq<Param>): seq<Byte> {
    ToBE(PROTOCOL_3_0, 4) + Print(ps) + [0]
  }

  /** The fields a printed parameter list splits into. */
  function Fields(ps: seq<Param>): (f: seq<seq<Byte>>)
    ensures |f| == 2 * |ps| + 1
  {
    if ps == [] then [[]] else [ps[0].key, ps[0].value] + Fields(ps[1..])
  }

  lemma {:induction false} PrintIsJoin(ps: seq<Param>)
    ensures Print(ps) == Join(Fields(ps))
  {
    if ps == [] {
    } else {
      PrintIsJoin(ps[1..]);
      var f := Fields(ps);
      assert f[1..][1..] == Fields(ps[1..]);
      assert Join(f) == f[0] + [0] + (f[1] + [0] + Join(Fields(ps[1..])));
    }
  }

  /** Keys and values in turn, every key allowed, and one empty field at the end. */
  predicate GoodFields(fields: seq<seq<Byte>>) {
    if |fields| <= 2 then fields == [[]] else AllowedKey(fields[0]) && GoodFields(fields[2..])
  }

  lemma {:induction false} GoodShape(fields: seq<seq<Byte>>)
    requires GoodFields(fields)
    ensures |fields| % 2 == 1 && fields[|fields| - 1] == []
  {
    if |fields| <= 2 {
    } else {
      GoodShape(fields[2..]);
    }
  }

  lemma {:induction false} PrintedFieldsAreGood(ps: seq<Param>)
    requires AllowedParams(ps)
    ensures ZeroFree(Fields(ps)) && GoodFields(Fields(ps))
  {
    if ps == [] {
    } else {
      assert AllowedParam(ps[0]);
      PrintedFieldsAreGood(ps[1..]);
      assert Fields(ps)[2..] == Fields(ps[1..]);
    }
  }

  lemma {:induction false} GoodFieldsArePrinted(fields: seq<seq<Byte>>) returns (ps: seq<Param>)
    requires ZeroFree(fields) && GoodFields(fields)
    ensures AllowedParams(ps) && Fields(ps) == fields
  {
    if |fields| <= 2 {
      ps := [];
    } else {
      var rest := GoodFieldsArePrinted(fields[2..]);
      ps := [Param(fields[0], fields[1])] + rest;
      assert ps[1..] == rest;
    }
  }

  ghost predicate IsStartup(b: seq<Byte>) {
    exists ps :: AllowedParams(ps) && b == StartupMessage(ps)
  }

  predicate StartupFrame(b: seq<Byte>) {
    |b| >= 5 && FromBE(b[..4]) == PROTOCOL_3_0 && b[|b| - 1] == 0
  }

  lemma MessageParts(b: seq<Byte>, ps: seq<Param>)
    requires b == StartupMessage(ps)
    ensures StartupFrame(b) && b[4..|b| - 1] == Print(ps)
  {
    assert Pow256(4) == 0x1_0000_0000;
    BigEndianInverse(PROTOCOL_3_0, 4);
    assert b[..4] == ToBE(PROTOCOL_3_0, 4);
  }

  lemma MessageHasGoodFields(ps: seq<Param>)
    requires AllowedParams(ps)
    ensures GoodFields(Split(Print(ps)))
  {
    PrintedFieldsAreGood(ps);
    PrintIsJoin(ps);
    SplitJoin(Fields(ps));
  }

  lemma GoodFieldsArePrintedParams(middle: seq<Byte>) returns (ps: seq<Param>)
    requires GoodFields(Split(middle))
    ensures AllowedParams(ps) && Print(ps) == middle
  {
    JoinSplit(middle);
    ps := GoodFieldsArePrinted(Split(middle));
    PrintIsJoin(ps);
  }

  lemma GoodFieldsMakeMessage(b: seq<Byte>)
    requires StartupFrame(b) && GoodFields(Split(b[4..|b| - 1]))
    ensures IsStartup(b)
  {
    var middle := b[4..|b| - 1];
    var ps := GoodFieldsArePrintedParams(middle);
    BigEndianUnique(b[..4]);
    assert b == b[..4] + middle + [0];
    assert b == StartupMessage(ps);
  }

  lemma StartupByFields(b: seq<Byte>)
    ensures IsStartup(b) <==> StartupFrame(b) && GoodFields(Split(b[4..|b| - 1]))
  {
    if IsStartup(b) {
      var ps :| AllowedParams(ps) && b == StartupMessage(ps);
      MessageParts(b, ps);
      MessageHasGoodFields(ps);
    }
    if StartupFrame(b) && GoodFields(Split(b[4..|b| - 1])) {
      GoodFieldsMakeMessage(b);
    }
  }

  lemma {:induction false} FieldsOf(ps: seq<Param>)
    requires forall i :: 0 <= i < |ps| ==> 0 !in ps[i].key && 0 !in ps[i].value
    ensures ZeroFree(Fields(ps))
    ensures GoodFields(Fields(ps)) <==>
            forall i :: 0 <= i < |ps| ==> ps[i].key != [] && ps[i].key != Ascii("replication")
  {
    if ps == [] {
    } else {
      FieldsOf(ps[1..]);
      assert Fields(ps)[2..] == Fields(ps[1..]);
      assert forall i :: 0 < i < |ps| ==> ps[i] == ps[1..][i - 1];
      assert forall i :: 0 <= i < |ps| - 1 ==> ps[1..][i] == ps[i + 1];
    }
  }

  /** A printed parameter list is a startup message exactly if no key is empty and none asks for replication. */
  lemma {:induction false} ForbiddenKeys(ps: seq<Param>)
    requires forall i :: 0 <= i < |ps| ==> 0 !in ps[i].key && 0 !in ps[i].value
    ensures IsStartup(ToBE(196608, 4) + Print(ps) + [0]) <==>
            forall i :: 0 <= i < |ps| ==> ps[i].key != [] && ps[i].key != Ascii("replication")
  {
    var b := StartupMessage(ps);
    MessageParts(b, ps);
    StartupByFields(b);
    FieldsOf(ps);
    PrintIsJoin(ps);
    SplitJoin(Fields(ps));
  }

  /** Accepts exactly the printed parameter lists with nonempty keys other than "replication". */
  method ValidStartup(b: seq<Byte>) returns (valid: bool)
    ensures valid <==> IsStartup(b)
  {
    StartupByFields(b);
    if |b| < 5 || FromBE(b[..4]) != PROTOCOL_3_0 || b[|b| - 1] != 0 {
      return false;
    }
    var fields := Split(b[4..|b| - 1]);
    if GoodFields(fields) {
      GoodShape(fields);
    }
    if |fields| % 2 != 1 || |fields[|fields| - 1]| != 0 {
      return false;
    }
    var i := 0;
    while i < |fields| - 1
      invariant 0 <= i <= |fields| - 1 && i % 2 == 0
      invariant GoodFields(fields) <==> GoodFields(fields[i..])
    {
      assert fields[i..][2..] == fields[i + 2..];
      if |fields[i]| == 0 || fields[i] == Ascii("replication") {
        return false;
      }
      i := i + 2;
    }
    return true;
  }
}
