/**
 * Streams of framed messages: `encode` puts one message on the wire, `decode` takes one off it.
 * Both database protocols instantiate this module.
 */
module Framing {
  import opened Bytes
  import opened Net

  /** Ended: the connection ran out inside a message.  Malformed: a length the adapter refuses. */
  datatype ReadOutcome<+T> = Read(message: T, rest: seq<Byte>) | Malformed | Ended

  /** The messages a reader hands on before its first failed read. */
  function ReadAll<T>(decode: seq<Byte> -> ReadOutcome<T>, stream: seq<Byte>): (ms: seq<T>)
    decreases |stream|
  {
    match decode(stream)
    case Read(m, rest) => [m] + if |rest| < |stream| then ReadAll(decode, rest) else []
    case _ => []
  }

  /**
   * The bytes on the wire when messages are written in order, each under its own schedule, up to the first failed
   * write.
   */
  function Delivered<T>(encode: T -> seq<Byte>, ms: seq<T>, schedules: seq<seq<WriteStep>>): seq<Byte>
    requires |schedules| == |ms|
  {
    if ms == [] then [] else
      var bytes := encode(ms[0]);
      bytes[..Accepted(|bytes|, schedules[0])]
      + if Completes(|bytes|, schedules[0]) then Delivered(encode, ms[1..], schedules[1..]) else []
  }

  /** How many of those messages arrived whole; a write may take its last byte and still report an error. */
  function Whole<T>(encode: T -> seq<Byte>, ms: seq<T>, schedules: seq<seq<WriteStep>>): (n: nat)
    requires |schedules| == |ms|
    ensures n <= |ms|
  {
    if ms == [] then 0 else
      var size := |encode(ms[0])|;
      if Completes(size, schedules[0]) then 1 + Whole(encode, ms[1..], schedules[1..])
      else if Accepted(size, schedules[0]) == size then 1
      else 0
  }

  /**
   * What a codec must promise about one message: it decodes in front of anything, and a torn copy of it does not
   * decode.
   */
  ghost predicate Faithful<T>(encode: T -> seq<Byte>, decode: seq<Byte> -> ReadOutcome<T>, m: T) {
    && encode(m) != []
    && (forall rest :: decode(encode(m) + rest) == Read(m, rest))
    && (forall torn :: torn <= encode(m) && torn != encode(m) ==> decode(torn) == Ended)
  }

  /**
   * No schedule of short or failing writes moves a message boundary: a reader sees exactly the messages that arrived
   * whole.
   */
  lemma {:induction false} ShortWritesKeepBoundaries<T>(
    encode: T -> seq<Byte>, decode: seq<Byte> -> ReadOutcome<T>, ms: seq<T>, schedules: seq<seq<WriteStep>>)
    requires |schedules| == |ms| && decode([]) == Ended
    requires forall i :: 0 <= i < |ms| ==> Faithful(encode, decode, ms[i])
    ensures ReadAll(decode, Delivered(encode, ms, schedules)) == ms[..Whole(encode, ms, schedules)]
  {
    if ms == [] {
    } else {
      var bytes := encode(ms[0]);
      var k := Accepted(|bytes|, schedules[0]);
      assert Faithful(encode, decode, ms[0]);
      if Completes(|bytes|, schedules[0]) {
        CompletesAcceptsAll(|bytes|, schedules[0]);
        assert bytes[..k] == bytes;
        ShortWritesKeepBoundaries(encode, decode, ms[1..], schedules[1..]);
        var rest := Delivered(encode, ms[1..], schedules[1..]);
        assert decode(bytes + rest) == Read(ms[0], rest);
      } else {
        assert Delivered(encode, ms, schedules) == bytes[..k];
        if k == |bytes| {
          assert bytes[..k] == bytes + [];
          assert decode(bytes + []) == Read(ms[0], []);
        } else {
          assert decode(bytes[..k]) == Ended;
        }
      }
    }
  }
}
