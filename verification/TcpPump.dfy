/** The TCP pump: one direction of a proxied connection, with a fault that may trigger at an exact byte offset. */
module TcpPump {
  import opened Bytes
  import opened Net

  const BUFFER: nat := 4096
  const PREFETCH: nat := 16384

  datatype Direction = ClientToUpstream | UpstreamToClient

  datatype Action = CloseConnection | Hold | Throttle

  datatype TcpFault = TcpFault(action: Action, direction: Direction, afterBytes: Option<nat>,
                               triggerDirection: Direction)

  /** How a read ends: with more to come, with an expired deadline, or with an error or end of stream. */
  datatype ReadEnd = More | Timeout | Failed

  datatype ReadStep = ReadStep(take: nat, end: ReadEnd)

  /**
   * The world of one pump, step by step: reads of the source, writes to the destination, whether the context has ended
   * after a read, whether pacing survives, and when somebody else has activated the fault.
   */
  datatype Peer = Peer(source: seq<Byte>, intake: seq<ReadStep>, writes: nat -> WriteStep,
                       stopped: nat -> bool, paced: nat -> bool, others: nat -> bool)

  /** This pump alone decides when the fault triggers: the trigger counts bytes of its own direction. */
  predicate Triggers(f: TcpFault, d: Direction) {
    f.afterBytes.Some? && f.afterBytes.value > 0 && f.triggerDirection == d
  }

  /** Once triggered, the fault stops this direction. */
  predicate Cuts(f: TcpFault, d: Direction) {
    f.action.CloseConnection? || (f.action.Hold? && f.direction == d)
  }

  /** How many bytes the source yields before it ends. */
  function Available(n: nat, intake: seq<ReadStep>): (k: nat)
    ensures k <= n
  {
    if intake == [] then 0 else
      var k := Min(Min(intake[0].take, BUFFER), n);
      if intake[0].end.More? then k + Available(n - k, intake[1..]) else k
  }

  /** What the reads offer together, a buffer each, up to and with the first that does not promise more. */
  function Offered(intake: seq<ReadStep>): nat {
    if intake == [] then 0 else
      Min(intake[0].take, 4096) + if intake[0].end.More? then Offered(intake[1..]) else 0
  }

  /** The source yields what its reads offer, as far as it goes. */
  lemma {:induction false} YieldsOffered(n: nat, intake: seq<ReadStep>)
    ensures Available(n, intake) == Min(n, Offered(intake))
  {
    if intake == [] {
    } else {
      YieldsOffered(n - Min(Min(intake[0].take, BUFFER), n), intake[1..]);
    }
  }

  /** A destination that takes every write, in pieces of any size, and a context that never ends. */
  ghost predicate Willing(p: Peer) {
    && (forall k: nat :: p.writes(k).taken > 0 && !p.writes(k).failed)
    && (forall k: nat :: !p.stopped(k) && p.paced(k))
  }

  /**
   * What a pump leaves behind: `forwarded` went to the destination; the fault was activated by this pump after
   * `activated` bytes.
   */
  datatype Flowed = Flowed(forwarded: seq<Byte>, activated: Option<nat>)

  /** The size of the next write: never across a pending byte trigger, and in small pieces under throttling. */
  function Chunk(f: Option<TcpFault>, d: Direction, active: bool, count: nat, pending: nat): (n: nat)
    requires pending > 0
    ensures 0 < n <= pending
    ensures f.Some? && f.value.action.Throttle? ==> n <= 1024
    ensures n < pending ==>
              f.Some? && ((f.value.action.Throttle? && n == 1024)
                          || (f.value.afterBytes.Some? && f.value.triggerDirection == d && !active
                              && count + n == f.value.afterBytes.value))
    ensures f.Some? && Triggers(f.value, d) && !active && count < f.value.afterBytes.value ==>
            count + n <= f.value.afterBytes.value
  {
    var cut := if f.Some? && f.value.afterBytes.Some? && f.value.triggerDirection == d && !active
                  && count < f.value.afterBytes.value && f.value.afterBytes.value - count < pending
               then f.value.afterBytes.value - count else pending;
    if f.Some? && f.value.action.Throttle? && cut > 1024 then 1024 else cut
  }

  predicate Blocked(f: Option<TcpFault>, d: Direction, active: bool) {
    active && f.Some? && f.value.action.Hold? && f.value.direction == d
  }

  /** The trigger has fired exactly when its byte was forwarded, and a cutting fault lets nothing past it. */
  ghost predicate ExactCut(f: Option<TcpFault>, d: Direction, count: nat, activated: Option<nat>) {
    f.Some? && Triggers(f.value, d) ==>
      var n := f.value.afterBytes.value;
      && activated == (if count >= n then Some(n) else None)
      && (Cuts(f.value, d) ==> count <= n)
  }

  /** Forwards one buffer; `going` unless the pump must return. */
  method ForwardBuffer(p: Peer, f: Option<TcpFault>, d: Direction, payload: seq<Byte>, flowed: Flowed, tick: nat)
    returns (flowed': Flowed, tick': nat, going: bool, k: nat)
    requires f.Some? && Triggers(f.value, d) ==> forall i: nat :: !p.others(i)
    requires ExactCut(f, d, |flowed.forwarded|, flowed.activated)
    requires payload != [] && !Blocked(f, d, flowed.activated.Some? || p.others(tick))
    ensures k <= |payload| && flowed'.forwarded == flowed.forwarded + payload[..k] && tick' >= tick
    ensures ExactCut(f, d, |flowed'.forwarded|, flowed'.activated)
    ensures flowed.activated.Some? ==> flowed'.activated == flowed.activated
    ensures going && k < |payload| ==> Blocked(f, d, flowed'.activated.Some? || p.others(tick'))
    ensures Willing(p) && f.None? ==> going
    ensures Shut(p, f, d) ==> k == 0
    ensures Willing(p) && !going ==>
              f.Some? && f.value.action.CloseConnection?
                  && (flowed'.activated.Some? || exists i: nat :: i < tick' && p.others(i))
  {
    flowed', tick', k := flowed, tick, 0;
    while k < |payload|
      invariant k <= |payload| && flowed'.forwarded == flowed.forwarded + payload[..k] && tick' >= tick
      invariant ExactCut(f, d, |flowed'.forwarded|, flowed'.activated)
      invariant flowed.activated.Some? ==> flowed'.activated == flowed.activated
      invariant !Blocked(f, d, flowed'.activated.Some? || p.others(tick'))
      invariant Shut(p, f, d) ==> k == 0
      decreases |payload| - k
    {
      var active := flowed'.activated.Some? || p.others(tick');
      var count := |flowed'.forwarded|;
      var n := Chunk(f, d, active, count, |payload| - k);
      if f.Some? && f.value.action.Throttle? && f.value.direction == d && active && !p.paced(tick') {
        return flowed', tick', false, k;
      }
      var step := p.writes(tick');
      if f.Some? && f.value.action.CloseConnection? && active {
        step := WriteStep(0, true);  // the fault closed both connections
      }
      tick' := tick' + 1;
      var written := Min(step.taken, n);
      if written > 0 {
        assert payload[..k] + payload[k..k + written] == payload[..k + written];
        flowed' := flowed'.(forwarded := flowed'.forwarded + payload[k..k + written]);
        if flowed'.activated.None? && f.Some? && f.value.afterBytes.Some? && f.value.triggerDirection == d
           && count + written >= f.value.afterBytes.value && !active {
          flowed' := flowed'.(activated := Some(count + written));
        }
        k := k + written;
      }
      if step.failed || written == 0 {
        return flowed', tick', false, k;
      }
      if Blocked(f, d, flowed'.activated.Some? || p.others(tick')) {
        return flowed', tick', true, k;
      }
    }
    going := true;
  }

  /** The bytes read so far are forwarded, except what a hold kept back. */
  ghost predicate InStep(p: Peer, f: Option<TcpFault>, d: Direction, flowed: Flowed, at: nat, tick: nat) {
    && at <= |p.source| && |flowed.forwarded| <= at
    && flowed.forwarded == p.source[..|flowed.forwarded|]
    && ExactCut(f, d, |flowed.forwarded|, flowed.activated)
    && (|flowed.forwarded| < at ==> Blocked(f, d, flowed.activated.Some? || p.others(tick)))
    && (Shut(p, f, d) ==> flowed.forwarded == [])
  }

  /**
   * What a pump achieves.  Whatever the chunking, the destination gets a prefix of the source; a byte trigger fires
   * after exactly its byte; a willing destination gets everything the source yields, up to the cut.  Only a fault that
   * cuts this direction and was activated keeps anything from a willing destination: throttling, a hold of the other
   * direction and a fault nobody activates do not.  One that cuts it from the start keeps everything.
   */
  ghost predicate Done(p: Peer, f: Option<TcpFault>, d: Direction, flowed: Flowed) {
    var all := Available(|p.source|, p.intake);
    && flowed.forwarded <= p.source
    && ExactCut(f, d, |flowed.forwarded|, flowed.activated)
    && |flowed.forwarded| <= all
    && (Willing(p) && f.None? ==> |flowed.forwarded| == all)
    && (Willing(p) && f.Some? && Triggers(f.value, d) ==>
          |flowed.forwarded| == if Cuts(f.value, d) then Min(f.value.afterBytes.value, all) else all)
    && (Willing(p) && |flowed.forwarded| < all ==>
          f.Some? && Cuts(f.value, d) && (flowed.activated.Some? || exists i: nat :: p.others(i)))
    && (Shut(p, f, d) ==> flowed.forwarded == [])
  }

  /** A fault that cuts this direction is active from the start. */
  ghost predicate Shut(p: Peer, f: Option<TcpFault>, d: Direction) {
    f.Some? && Cuts(f.value, d) && forall i: nat :: p.others(i)
  }

  /** The pump may return between buffers: nothing more to read, a hold, or an unwilling world. */
  lemma DoneBetween(p: Peer, f: Option<TcpFault>, d: Direction, flowed: Flowed, at: nat, tick: nat)
    requires InStep(p, f, d, flowed, at, tick) && at <= Available(|p.source|, p.intake)
    requires f.Some? && Triggers(f.value, d) ==> forall i: nat :: !p.others(i)
    requires at == Available(|p.source|, p.intake) || Blocked(f, d, flowed.activated.Some? || p.others(tick))
             || !Willing(p)
    ensures Done(p, f, d, flowed)
  {
  }

  /** The pump may return inside a buffer: a fault closed the connection, or an unwilling world. */
  lemma DoneWithin(p: Peer, f: Option<TcpFault>, d: Direction, flowed: Flowed)
    requires flowed.forwarded <= p.source && ExactCut(f, d, |flowed.forwarded|, flowed.activated)
    requires |flowed.forwarded| <= Available(|p.source|, p.intake) && (Shut(p, f, d) ==> flowed.forwarded == [])
    requires f.Some? && Triggers(f.value, d) ==> forall i: nat :: !p.others(i)
    requires Willing(p) ==>
             f.Some? && f.value.action.CloseConnection? && (flowed.activated.Some? || exists i: nat :: p.others(i))
    ensures Done(p, f, d, flowed)
  {
  }

  /** One buffer read at `at`. */
  method PumpBuffer(p: Peer, f: Option<TcpFault>, d: Direction, flowed: Flowed, at: nat, n: nat, tick: nat)
    returns (flowed': Flowed, tick': nat, going: bool)
    requires f.Some? && Triggers(f.value, d) ==> forall i: nat :: !p.others(i)
    requires InStep(p, f, d, flowed, at, tick) && !Blocked(f, d, flowed.activated.Some? || p.others(tick))
    requires 0 < n && at + n <= |p.source|
    ensures going ==> InStep(p, f, d, flowed', at + n, tick')
    ensures Shut(p, f, d) ==> flowed'.forwarded == []
    ensures flowed'.forwarded <= p.source && |flowed'.forwarded| <= at + n
    ensures ExactCut(f, d, |flowed'.forwarded|, flowed'.activated)
    ensures Willing(p) && !going ==>
              f.Some? && f.value.action.CloseConnection? && (flowed'.activated.Some? || exists i: nat :: p.others(i))
  {
    var k;
    flowed', tick', going, k := ForwardBuffer(p, f, d, p.source[at..at + n], flowed, tick);
    assert p.source[..at] + p.source[at..at + n][..k] == p.source[..at + k];
  }

  method Pump(p: Peer, f: Option<TcpFault>, d: Direction) returns (flowed: Flowed)
    requires f.Some? && Triggers(f.value, d) ==> forall i: nat :: !p.others(i)
    ensures Done(p, f, d, flowed)
  {
    flowed := Flowed([], None);
    var at: nat, tick: nat, i: nat := 0, 0, 0;
    ghost var all := Available(|p.source|, p.intake);
    while i < |p.intake|
      invariant i <= |p.intake| && InStep(p, f, d, flowed, at, tick)
      invariant all == at + Available(|p.source| - at, p.intake[i..])
    {
      if Blocked(f, d, flowed.activated.Some? || p.others(tick)) {
        DoneBetween(p, f, d, flowed, at, tick);
        return;
      }
      assert p.intake[i..][1..] == p.intake[i + 1..];
      var step := p.intake[i];
      var n := Min(Min(step.take, BUFFER), |p.source| - at);
      i, tick := i + 1, tick + 1;
      if n > 0 && !Blocked(f, d, flowed.activated.Some? || p.others(tick)) {
        var going;
        flowed, tick, going := PumpBuffer(p, f, d, flowed, at, n, tick);
        if !going {
          DoneWithin(p, f, d, flowed);
          return;
        }
      }
      at := at + n;
      if !step.end.More? || p.stopped(i) {
        DoneBetween(p, f, d, flowed, at, tick);
        return;
      }
    }
    DoneBetween(p, f, d, flowed, at, tick);
  }

  /** How many bytes are buffered before dialing, and whether the delay ran out rather than the client. */
  function Buffered(n: nat, room: nat, intake: seq<ReadStep>, alive: bool): (r: (nat, bool))
    ensures r.0 <= n && r.0 <= room
    decreases |intake|
  {
    if room == 0 then (0, alive)
    else if intake == [] then (0, false)
    else
      var k := Min(Min(intake[0].take, Min(BUFFER, room)), n);
      if intake[0].end.More? then
        var rest := Buffered(n - k, room - k, intake[1..], alive);
        (k + rest.0, rest.1)
      else (k, intake[0].end.Timeout? && alive)
  }

  /** As `Offered`, without the read that ends. */
  function OfferedBefore(intake: seq<ReadStep>): nat {
    if intake == [] || !intake[0].end.More? then 0 else Min(intake[0].take, 4096) + OfferedBefore(intake[1..])
  }

  /** The first read that does not promise more ran into the deadline. */
  predicate RunsOut(intake: seq<ReadStep>) {
    intake != [] && if intake[0].end.More? then RunsOut(intake[1..]) else intake[0].end.Timeout?
  }

  /** What is held back: as much as the reads offer and the buffer takes. */
  lemma {:induction false} HeldBack(n: nat, room: nat, intake: seq<ReadStep>, alive: bool)
    ensures Buffered(n, room, intake, alive).0 == Min(n, Min(room, Offered(intake)))
    decreases |intake|
  {
    if intake == [] {
    } else {
      var k := Min(Min(intake[0].take, Min(BUFFER, room)), n);
      HeldBack(n - k, room - k, intake[1..], alive);
    }
  }

  /**
   * A held-back connection goes on exactly if the context lives and the buffer filled up before any read ended, or the
   * first read to end ran into the deadline.
   */
  lemma {:induction false} GoesOn(n: nat, room: nat, intake: seq<ReadStep>, alive: bool)
    ensures Buffered(n, room, intake, alive).1 <==>
            alive && (room <= Min(n, OfferedBefore(intake)) || RunsOut(intake))
    decreases |intake|
  {
    if intake == [] {
    } else {
      var k := Min(Min(intake[0].take, Min(BUFFER, room)), n);
      GoesOn(n - k, room - k, intake[1..], alive);
    }
  }

  /** Holds the client back for the delay, buffering what it sends; `alive`: the context outlives the delay. */
  method WaitBeforeDial(client: seq<Byte>, intake: seq<ReadStep>, alive: bool) returns (prefetched: Option<seq<Byte>>)
    ensures prefetched.Some? <==> Buffered(|client|, 16384, intake, alive).1
    ensures prefetched.Some? ==> prefetched.value == client[..Buffered(|client|, 16384, intake, alive).0]
  {
    var at: nat, i: nat := 0, 0;
    ghost var r := Buffered(|client|, PREFETCH, intake, alive);
    while at < PREFETCH
      invariant i <= |intake| && at <= PREFETCH && at <= |client|
      invariant r == (at + Buffered(|client| - at, PREFETCH - at, intake[i..], alive).0,
                      Buffered(|client| - at, PREFETCH - at, intake[i..], alive).1)
      decreases |intake| - i
    {
      if i == |intake| {
        return None;
      }
      assert intake[i..][1..] == intake[i + 1..];
      var step := intake[i];
      at := at + Min(Min(step.take, Min(BUFFER, PREFETCH - at)), |client| - at);
      i := i + 1;
      if !step.end.More? {
        return if step.end.Timeout? && alive then Some(client[..at]) else None;
      }
    }
    return if alive then Some(client[..at]) else None;
  }

  /**
   * A delayed connection: what was buffered is pumped first, then the rest of the client's stream.  The upstream still
   * gets a prefix of exactly what the client sent, all of it if it is willing.
   */
  method PumpDelayed(client: seq<Byte>, intake: seq<ReadStep>, alive: bool, p: Peer) returns (flowed: Option<Flowed>)
    requires p.source == client[Buffered(|client|, PREFETCH, intake, alive).0..]
    ensures flowed.Some? <==> Buffered(|client|, PREFETCH, intake, alive).1
    ensures flowed.Some? ==> flowed.value.forwarded <= client
    ensures flowed.Some? && Willing(p) ==> |flowed.value.forwarded| == Available(|client|, p.intake)
  {
    var prefetched := WaitBeforeDial(client, intake, alive);
    if prefetched.None? {
      return None;
    }
    assert prefetched.value + p.source == client;
    var all := Pump(p.(source := prefetched.value + p.source), None, ClientToUpstream);
    return Some(all);
  }
}
