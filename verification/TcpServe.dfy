/** A TCP connection from its decision to its end, with or without a fault controller. */
module TcpServe {
  import opened Bytes
  import opened Flow
  import opened TcpPump
  import opened TcpActivation

  /**
   * The decision taken for a connection and whether its fault is a delayed connect; what the client sends meanwhile,
   * and whether the context outlives the delay; whether the dial succeeds.
   */
  datatype Connection = Connection(eligible: bool, selected: bool, delays: bool,
                                   client: seq<Byte>, intake: seq<ReadStep>, alive: bool, dialed: bool)

  /** A selected fault other than a delayed connect gets a controller once the upstream is dialed. */
  predicate Controlled(c: Connection) {
    c.dialed && c.selected && !c.delays
  }

  function Held(c: Connection): (nat, bool) {
    Buffered(|c.client|, PREFETCH, c.intake, c.alive)
  }

  /** The delay was served to its end. */
  predicate Delayed(c: Connection) {
    c.selected && c.delays && Held(c).1
  }

  function PlainOutcome(c: Connection): Outcome {
    if c.selected && c.delays && !Delayed(c) then ClientClosed else if !c.dialed then DialError else Forwarded
  }

  /** What a connection without a controller records. */
  function PlainEvents(c: Connection): seq<Event> {
    [Started] + [Decided(c.eligible, c.selected)] + (if Delayed(c) then [Applied] else [])
    + [Finished(Delayed(c), PlainOutcome(c))]
  }

  /** Records the flow; `controlled` tells that a controller must be started, with the flow still open. */
  method Serve(c: Connection, ghost trigger: Trigger)
      returns (events: seq<Event>, prefetched: seq<Byte>, controlled: bool)
    ensures controlled <==> Controlled(c)
    ensures events == if controlled then Init(trigger, c.eligible).events else PlainEvents(c)
    ensures prefetched == if Delayed(c) then c.client[..Held(c).0] else []
    ensures !controlled ==> events != [] && events[|events| - 1].Finished?
    ensures !controlled && c.selected && c.delays && !Held(c).1 ==>
              events == [Started, Decided(c.eligible, true), Finished(false, ClientClosed)]
    ensures !controlled && c.selected && c.delays && Held(c).1 ==>
              events == [Started, Decided(c.eligible, true), Applied,
                         Finished(true, if c.dialed then Forwarded else DialError)]
    ensures !controlled && !(c.selected && c.delays) ==>
              events == [Started, Decided(c.eligible, c.selected),
                         Finished(false, if c.dialed then Forwarded else DialError)]
  {
    events, prefetched := [Started], [];
    events := events + [Decided(c.eligible, c.selected)];
    var applied, outcome := false, Forwarded;
    if c.selected && c.delays {
      var buffer := WaitBeforeDial(c.client, c.intake, c.alive);
      if buffer.None? {
        outcome := ClientClosed;
        return events + [Finished(applied, outcome)], [], false;
      }
      prefetched := buffer.value;
      applied := true;
      events := events + [Applied];
    }
    if !c.dialed {
      outcome := DialError;
      return events + [Finished(applied, outcome)], prefetched, false;
    }
    if !c.selected || c.delays {
      return events + [Finished(applied, outcome)], prefetched, false;
    }
    controlled := true;
  }

  /** A connection without a controller records one complete flow. */
  lemma {:induction false} PlainIsFlow(c: Connection)
    ensures PhaseAfter(Closed, PlainEvents(c)) == Closed
  {
    FlowShape(Decided(c.eligible, c.selected), Delayed(c), Finished(Delayed(c), PlainOutcome(c)));
  }

  /**
   * A byte-triggered fault, pump and controller together: the flow reports it as applied exactly if at least N bytes of
   * the trigger's direction were forwarded; when the fault cuts that direction, exactly if N were.
   */
  lemma {:induction false} AppliedByBytes(p: Peer, f: TcpFault, d: Direction, flowed: Flowed, eligible: bool,
                                          steps: seq<Step>)
    requires Triggers(f, d) && Done(p, Some(f), d, flowed)
    requires CanRun(Init(OnBytes, eligible), steps) && After(Init(OnBytes, eligible), steps).serve.Ended?
    requires flowed.activated.Some? <==> Activate(Counter) in steps
    ensures var events := After(Init(OnBytes, eligible), steps).events;
            && events != [] && events[|events| - 1].Finished?
            && (events[|events| - 1].applied <==> |flowed.forwarded| >= f.afterBytes.value)
            && (Cuts(f, d) ==> (events[|events| - 1].applied <==> |flowed.forwarded| == f.afterBytes.value))
  {
    CounterApplies(eligible, steps);
  }
}
