/** Finding the end of one MySQL response, and forwarding it packet by packet. */
module MySqlReply {
  import opened Bytes
  import opened Net
  import opened MySqlWire

  const MAX_DEFINITIONS: nat := 4096

  /** Packet `at` of a response is present and carries the next sequence number; numbers wrap at 256. */
  predicate Readable(input: seq<Packet>, at: nat) {
    at < |input| && input[at].seqId == (at + 1) % 256
  }

  /** `passed` packets of the response go to the client; `ok` unless the response is broken off or malformed. */
  datatype Scan = Scan(passed: nat, ok: bool)

  function ScanColumns(input: seq<Packet>, at: nat, left: nat, eof: bool): (s: Scan)
    requires AllInBound(input) && at <= |input|
    ensures at <= s.passed <= |input|
    decreases left
  {
    if left > 0 then
      if !Readable(input, at) || input[at].body[0] == 0xff then Scan(at, false)
      else ScanColumns(input, at + 1, left - 1, eof)
    else if !eof then Scan(at, true)
    else if !Readable(input, at) || EofStatus(input[at].body, false).None? then Scan(at, false)
    else Scan(at + 1, true)
  }

  function ScanDefinitions(input: seq<Packet>, at: nat, n: nat, modern: bool): (s: Scan)
    requires AllInBound(input) && at <= |input|
    ensures at <= s.passed <= |input|
  {
    if n > MAX_DEFINITIONS then Scan(at, false) else ScanColumns(input, at, n, n > 0 && !modern)
  }

  /** As `Scan`, with the server status of the terminator; a response ended by an error packet has none. */
  datatype RowScan = RowScan(passed: nat, ok: bool, status: Option<nat>)

  function ScanRows(input: seq<Packet>, at: nat, modern: bool): (s: RowScan)
    requires AllInBound(input) && at <= |input|
    ensures at <= s.passed <= |input|
    decreases |input| - at
  {
    if !Readable(input, at) then RowScan(at, false, None)
    else if input[at].body[0] == 0xff then RowScan(at + 1, true, None)
    else match EofStatus(input[at].body, modern)
      case Some(flags) => if Bit(flags, 3) then RowScan(at, false, None) else RowScan(at + 1, true, Some(flags))
      case None => ScanRows(input, at + 1, modern)
  }

  function ScanResult(input: seq<Packet>, modern: bool): (s: RowScan)
    requires AllInBound(input) && input != []
    ensures s.passed <= |input|
  {
    var n := LenEnc(input[0].body);
    if n.None? || n.value.value == 0 || n.value.value > MAX_DEFINITIONS then RowScan(0, false, None) else
      var d := ScanDefinitions(input, 1, n.value.value, modern);
      if !d.ok then RowScan(d.passed, false, None) else ScanRows(input, d.passed, modern)
  }

  /**
   * One command cycle: the upstream's packets from the response on, and the client connection, which fails after
   * `capacity` packets.
   */
  class Cycle {
    const input: seq<Packet>
    const modern: bool
    const before: seq<Packet>  // what earlier cycles sent to the client
    const capacity: nat
    var at: nat
    var seqId: Byte
    var client: seq<Packet>
    ghost var sent: nat

    /** The client has, after the earlier cycles, the first `sent` packets of this response. */
    ghost predicate Transparent()
      reads this
    {
      && AllInBound(input)
      && sent <= |input|
      && |before| + sent <= capacity
      && client == before + input[..sent]
    }

    ghost predicate Valid()
      reads this
    {
      && Transparent()
      && sent <= at <= |input|
      && seqId == (at + 1) % 256
    }

    /** How many of `passed` packets a client with this capacity still takes. */
    ghost function Room(passed: nat): nat
      requires |before| <= capacity
    {
      Min(passed, capacity - |before|)
    }

    constructor (input: seq<Packet>, modern: bool, before: seq<Packet>, capacity: nat)
      requires AllInBound(input) && |before| <= capacity
      ensures Valid() && at == sent == 0
      ensures this.input == input && this.modern == modern && this.before == before && this.capacity == capacity
    {
      this.input, this.modern, this.before, this.capacity := input, modern, before, capacity;
      client, at, seqId, sent := before, 0, 1, 0;
    }

    method Read() returns (p: Option<Packet>)
      requires Valid()
      modifies `at, `seqId
      ensures p.Some? <==> Readable(input, old(at))
      ensures p.Some? ==> Valid() && at == old(at) + 1 && p.value == input[old(at)]
    {
      if at == |input| {
        return None;
      }
      var next := input[at];
      at := at + 1;
      if next.seqId != seqId {
        return None;
      }
      seqId := (seqId + 1) % 256;
      return Some(next);
    }

    method Forward(p: Packet) returns (ok: bool)
      requires Valid() && at == sent + 1 && p == input[sent]
      modifies `client, `sent
      ensures Valid()
      ensures ok <==> |before| + old(sent) < capacity
      ensures sent == if ok then old(sent) + 1 else old(sent)
    {
      ok := |client| < capacity;
      if ok {
        client, sent := client + [p], sent + 1;
      }
    }

    method Definitions(n: nat) returns (ok: bool)
      requires Valid() && sent == at
      modifies `at, `seqId, `client, `sent
      ensures Transparent()
      ensures var s := ScanDefinitions(input, old(at), n, modern);
              && ok == (s.ok && |before| + s.passed <= capacity)
              && sent == Room(s.passed)
              && (ok ==> Valid() && at == sent)
    {
      if n > MAX_DEFINITIONS {
        return false;
      }
      ghost var s := ScanDefinitions(input, at, n, modern);
      var i := 0;
      while i < n
        invariant 0 <= i <= n && Valid() && sent == at
        invariant s == ScanColumns(input, at, n - i, n > 0 && !modern)
      {
        var p := Read();
        if p.None? || p.value.body[0] == 0xff {
          return false;
        }
        ok := Forward(p.value);
        if !ok {
          return false;
        }
        i := i + 1;
      }
      if n > 0 && !modern {
        var p := Read();
        if p.None? || EofStatus(p.value.body, false).None? {
          return false;
        }
        ok := Forward(p.value);
        return ok;
      }
      return true;
    }

    /** Forwards rows up to and with the packet that ends them. */
    method ForwardRows() returns (status: Option<nat>, ok: bool)
      requires Valid() && sent == at
      modifies `at, `seqId, `client, `sent
      ensures Transparent()
      ensures var s := ScanRows(input, old(at), modern);
              && ok == (s.ok && |before| + s.passed <= capacity)
              && sent == Room(s.passed)
              && (ok ==> Valid() && at == sent && status == s.status)
    {
      ghost var s := ScanRows(input, at, modern);
      while true
        invariant Valid() && sent == at
        invariant s == ScanRows(input, at, modern)
        decreases |input| - at
      {
        var p := Read();
        if p.None? {
          return None, false;
        }
        if p.value.body[0] == 0xff {
          ok := Forward(p.value);
          return None, ok;
        }
        var flags := EofStatus(p.value.body, modern);
        if flags.Some? {
          if Bit(flags.value, 3) {
            return None, false;
          }
          ok := Forward(p.value);
          return flags, ok;
        }
        ok := Forward(p.value);
        if !ok {
          return None, false;
        }
      }
    }

    /** Forwards a result set whose first packet was just read. */
    method Result(first: Packet) returns (status: Option<nat>, ok: bool)
      requires Valid() && at == 1 && sent == 0 && first == input[0]
      modifies `at, `seqId, `client, `sent
      ensures Transparent()
      ensures var s := ScanResult(input, modern);
              && ok == (s.ok && |before| + s.passed <= capacity)
              && sent == Room(s.passed)
              && (ok ==> Valid() && at == sent && status == s.status)
    {
      var n := LenEnc(first.body);
      if n.None? || n.value.value == 0 || n.value.value > MAX_DEFINITIONS {
        return None, false;
      }
      ok := Forward(first);
      if !ok {
        return None, false;
      }
      ok := Definitions(n.value.value);
      if !ok {
        return None, false;
      }
      status, ok := ForwardRows();
    }
  }
}
