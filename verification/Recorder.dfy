/**
 * The event recorder: counters under a lock, a bounded queue, and one writer that takes events off it without the lock.
 */
module Recorder {
  import opened Bytes
  import opened Flow

  const MAX_OUTCOMES: nat := 32

  /** The run counters; `int` so that an unsigned counter running below zero would show. */
  datatype Counters = Counters(total: int, eligible: int, selected: int, applied: int, active: int, activeFaults: int,
                               dropped: int, writeErrors: int, written: int, pending: int)

  const ZERO := Counters(0, 0, 0, 0, 0, 0, 0, 0, 0, 0)

  /** What an event does to the counters whether or not it fits in the queue. */
  function Tally(c: Counters, e: Event): Counters {
    match e
    case Started => c.(total := c.total + 1, active := c.active + 1)
    case Decided(eligible, selected) =>
      c.(eligible := c.eligible + (if eligible then 1 else 0), selected := c.selected + (if selected then 1 else 0))
    case Applied => c.(applied := c.applied + 1, activeFaults := c.activeFaults + 1)
    case Finished(applied, _) => c.(active := c.active - 1, activeFaults := c.activeFaults - (if applied then 1 else 0))
    case Control => c
  }

  function TallyOutcome(outcomes: map<Outcome, nat>, e: Event): (m: map<Outcome, nat>)
    ensures |outcomes| <= MAX_OUTCOMES ==> |m| <= MAX_OUTCOMES
  {
    if e.Finished? && (e.outcome in outcomes || |outcomes| < MAX_OUTCOMES)
    then
      assert outcomes[e.outcome := 1].Keys == outcomes.Keys + {e.outcome};
      outcomes[e.outcome := 1 + if e.outcome in outcomes then outcomes[e.outcome] else 0]
    else outcomes
  }

  /** Where the holder of the lock is inside `Record`; the queue send and the pending count are separate steps. */
  datatype Producer = Outside | Entered(event: Event) | Sent

  /** Where the writer is: it dequeues, looks at the abort signal, encodes, and takes the lock to count. */
  datatype Writer = Waiting | Holding(event: Event, checked: bool) | Encoded(event: Event,
        failed: bool) | Stopped(left: seq<Event>)

  /**
   * `accepted` and `handled` are the events ever put on the queue and ever counted by the writer; `calls` counts
   * finished `Record` calls.
   */
  datatype State = State(capacity: nat, queue: seq<Event>, counts: Counters, outcomes: map<Outcome, nat>, closed: bool,
                         aborted: bool,
                         producer: Producer, writer: Writer, accepted: seq<Event>, handled: seq<Event>, calls: nat)

  function Init(capacity: nat): State {
    State(capacity, [], ZERO, map[], false, false, Outside, Waiting, [], [], 0)
  }

  datatype Step =
    | Enter(event: Event)      // Record takes the lock and updates the run counters
    | Send(handoff: bool)      // it tries the queue; a waiting writer may take the event directly
    | Count                    // it counts the sent event as pending and releases the lock
    | Dequeue                  // the writer takes an event
    | Check                    // the writer looks at the abort signal
    | Encode(failed: bool)     // the writer encodes
    | Uncount                  // the writer takes the lock, counts the event and releases it
    | Drain                    // the writer finds the closed queue empty and stops
    | CloseQueue               // Close takes the lock, closes the queue and releases it
    | Abort                    // Close gives up waiting

  predicate Enabled(s: State, step: Step) {
    match step
    case Enter(_) => s.producer.Outside?
    case Send(handoff) => s.producer.Entered? && (handoff ==> !s.closed && s.writer.Waiting? && s.queue == [])
    case Count => s.producer.Sent?
    case Dequeue => s.writer.Waiting? && s.queue != []
    case Check => s.writer.Holding? && !s.writer.checked
    case Encode(_) => s.writer.Holding? && s.writer.checked
    case Uncount => s.writer.Encoded? && s.producer.Outside?
    case Drain => s.writer.Waiting? && s.queue == [] && s.closed
    case CloseQueue => s.producer.Outside?
    case Abort => s.closed
  }

  function Do(s: State, step: Step): State
    requires Enabled(s, step)
  {
    match step
    case Enter(e) => s.(producer := Entered(e), counts := Tally(s.counts, e), outcomes := TallyOutcome(s.outcomes, e))
    case Send(handoff) =>
      var e := s.producer.event;
      if handoff then s.(writer := Holding(e, false), accepted := s.accepted + [e], producer := Sent)
      else if !s.closed
          && |s.queue| < s.capacity then s.(queue := s.queue + [e], accepted := s.accepted + [e], producer := Sent)
      else s.(counts := s.counts.(dropped := s.counts.dropped + 1), producer := Outside, calls := s.calls + 1)
    case Count => s.(counts := s.counts.(pending := s.counts.pending + 1), producer := Outside, calls := s.calls + 1)
    case Dequeue => s.(writer := Holding(s.queue[0], false), queue := s.queue[1..])
    case Check => if s.aborted then s.(writer := Stopped([s.writer.event]))
        else s.(writer := s.writer.(checked := true))
    case Encode(failed) => s.(writer := Encoded(s.writer.event, failed))
    case Uncount =>
        s.(counts := Settle(s.counts, s.writer.failed), handled := s.handled + [s.writer.event], writer := Waiting)
    case Drain => s.(writer := Stopped([]))
    case CloseQueue => s.(closed := true)
    case Abort => s.(aborted := true)
  }

  function Settle(c: Counters, failed: bool): Counters {
    if failed then c.(pending := c.pending - 1, dropped := c.dropped + 1, writeErrors := c.writeErrors + 1)
    else c.(pending := c.pending - 1, written := c.written + 1)
  }

  function Held(w: Writer): seq<Event> {
    match w
    case Waiting => []
    case Holding(e, _) => [e]
    case Encoded(e, _) => [e]
    case Stopped(left) => left
  }

  ghost predicate Inv(s: State) {
    && s.accepted == s.handled + Held(s.writer) + s.queue
    && |s.queue| <= s.capacity
    && |s.outcomes| <= MAX_OUTCOMES
    && s.counts.pending == |Held(s.writer)| + |s.queue| - (if s.producer.Sent? then 1 else 0)
    && s.calls == s.counts.written + s.counts.dropped + s.counts.pending
    && 0 <= s.counts.writeErrors <= s.counts.dropped && 0 <= s.counts.written
    && |s.handled| == s.counts.written + s.counts.writeErrors
    && (s.producer.Sent? ==> !s.closed)
    && (s.aborted ==> s.closed)
    && (s.writer.Stopped? ==>
        s.closed && |s.writer.left| <= 1 && if s.aborted then true else s.writer.left == [] && s.queue == [])
    && (s.writer.Stopped? && s.writer.left == [] ==> s.queue == [])
    // a sent event is still ahead of the lock the writer needs to count it
    && (s.producer.Sent? ==> Held(s.writer) + s.queue != [])
  }

  lemma DequeueKeeps(s: State)
    requires Inv(s) && Enabled(s, Dequeue)
    ensures Inv(Do(s, Dequeue))
  {
    assert s.queue == [s.queue[0]] + s.queue[1..];
    assert s.handled + [] + s.queue == s.handled + [s.queue[0]] + s.queue[1..];
  }

  lemma UncountKeeps(s: State)
    requires Inv(s) && Enabled(s, Uncount)
    ensures Inv(Do(s, Uncount))
  {
    assert s.handled + [s.writer.event] + s.queue == (s.handled + [s.writer.event]) + [] + s.queue;
  }

  lemma StepKeeps(s: State, step: Step)
    requires Inv(s) && Enabled(s, step)
    ensures Inv(Do(s, step))
  {
    match step {
      case Dequeue => DequeueKeeps(s);
      case Uncount => UncountKeeps(s);
      case Send(handoff) =>
        var e := s.producer.event;
        assert handoff ==> s.accepted + [e] == s.handled + [e] + [];
        assert s.accepted + [e] == s.handled + Held(s.writer) + (s.queue + [e]);
      case _ =>
    }
  }

  // Runs: any interleaving of the steps of all producers, the writer and Close.

  ghost predicate CanRun(s: State, steps: seq<Step>)
    decreases |steps|
  {
    steps == [] || (Enabled(s, steps[0]) && CanRun(Do(s, steps[0]), steps[1..]))
  }

  ghost function After(s: State, steps: seq<Step>): State
    requires CanRun(s, steps)
    decreases |steps|
  {
    if steps == [] then s else After(Do(s, steps[0]), steps[1..])
  }

  lemma {:induction false} RunKeeps(s: State, steps: seq<Step>)
    requires Inv(s) && CanRun(s, steps)
    ensures Inv(After(s, steps))
    decreases |steps|
  {
    if steps == [] {
    } else {
      StepKeeps(s, steps[0]);
      RunKeeps(Do(s, steps[0]), steps[1..]);
    }
  }

  /**
   * Conservation over every run: each finished `Record` call is written, dropped or pending; the pending count is
   * what the queue and the writer hold, stays between zero and capacity + 1, and is positive whenever the writer is
   * about to lower it; events leave in the order they were accepted.
   */
  lemma Conservation(capacity: nat, steps: seq<Step>)
    requires CanRun(Init(capacity), steps)
    ensures var s := After(Init(capacity), steps);
            && s.calls == s.counts.written + s.counts.dropped + s.counts.pending
            && 0 <= s.counts.pending <= capacity + 1
            && (Enabled(s, Uncount) ==> s.counts.pending >= 1)
            && s.handled <= s.accepted
            && |s.outcomes| <= MAX_OUTCOMES
  {
    assert Inv(Init(capacity));
    RunKeeps(Init(capacity), steps);
    CapacityFixed(Init(capacity), steps);
  }

  lemma {:induction false} CapacityFixed(s: State, steps: seq<Step>)
    requires CanRun(s, steps)
    ensures After(s, steps).capacity == s.capacity
    decreases |steps|
  {
    if steps == [] {
    } else {
      CapacityFixed(Do(s, steps[0]), steps[1..]);
    }
  }

  /** Once closed, no run puts anything on the queue. */
  lemma {:induction false} NothingSentAfterClose(s: State, steps: seq<Step>)
    requires Inv(s) && s.closed && CanRun(s, steps)
    ensures After(s, steps).closed && After(s, steps).accepted == s.accepted
    decreases |steps|
  {
    if steps == [] {
    } else {
      StepKeeps(s, steps[0]);
      NothingSentAfterClose(Do(s, steps[0]), steps[1..]);
    }
  }

  /** `Close` returns nil when the writer stopped and the count it then reads under the lock is zero. */
  predicate CloseReturnsNil(s: State) {
    s.writer.Stopped? && s.producer.Outside? && s.counts.pending == 0
  }

  predicate Flushed(s: State) {
    s.writer.Stopped? && !s.producer.Sent? && s.counts.pending == 0
  }

  lemma {:induction false} FlushedForGood(s: State, steps: seq<Step>)
    requires Inv(s) && Flushed(s) && CanRun(s, steps)
    ensures var t := After(s, steps);
            Flushed(t) && t.handled == t.accepted == s.accepted && t.counts.written == s.counts.written
    decreases |steps|
  {
    if steps == [] {
    } else {
      StepKeeps(s, steps[0]);
      FlushedForGood(Do(s, steps[0]), steps[1..]);
    }
  }

  /** A nil `Close` is final: everything accepted was handled, and nothing is pending in any later state. */
  lemma CloseNilIsFinal(capacity: nat, before: seq<Step>, after: seq<Step>)
    requires CanRun(Init(capacity), before) && CloseReturnsNil(After(Init(capacity), before))
    requires CanRun(After(Init(capacity), before), after)
    ensures var s := After(Init(capacity), before);
            var t := After(s, after);
            t.counts.pending == 0 && t.handled == t.accepted == s.accepted && t.counts.written == s.counts.written
  {
    assert Inv(Init(capacity));
    RunKeeps(Init(capacity), before);
    FlushedForGood(After(Init(capacity), before), after);
  }

  /** A stopped writer leaves something pending only after an abort. */
  lemma UnflushedOnlyByAbort(s: State)
    requires Inv(s) && s.writer.Stopped? && s.producer.Outside? && !CloseReturnsNil(s)
    ensures s.aborted && s.counts.pending == |s.accepted| - |s.handled| > 0
  {
  }

  /** A whole `Record` call when no other step comes in between. */
  ghost function Recorded(s: State, e: Event): State
    requires s.producer.Outside?
  {
    var sent := Do(Do(s, Enter(e)), Send(false));
    if sent.producer.Sent? then Do(sent, Count) else sent
  }

  /** A whole turn of the writer's loop when no other step comes in between. */
  ghost function Wrote(s: State, failed: bool): State
    requires s.producer.Outside? && s.writer.Waiting? && s.queue != []
  {
    var checked := Do(Do(s, Dequeue), Check);
    if checked.writer.Stopped? then checked else Do(Do(checked, Encode(failed)), Uncount)
  }

  /** The recorder object, used by one goroutine at a time. */
  class Log {
    const capacity: nat
    var queue: seq<Event>
    var counts: Counters
    var outcomes: map<Outcome, nat>
    var closed: bool
    var aborted: bool
    var stopped: bool
    ghost var accepted: seq<Event>
    ghost var handled: seq<Event>
    ghost var left: seq<Event>
    ghost var calls: nat

    /** The abstract state between calls. */
    ghost function View(): State
      reads this
    {
      State(capacity, queue, counts, outcomes, closed, aborted, Outside,
            if stopped then Stopped(left) else Waiting, accepted, handled, calls)
    }

    constructor (capacity: nat)
      ensures View() == Init(capacity) && Inv(View())
    {
      this.capacity := capacity;
      queue, counts, outcomes, closed, aborted, stopped := [], ZERO, map[], false, false, false;
      accepted, handled, left, calls := [], [], [], 0;
    }

    /** The switch on the event type. */
    method Note(e: Event)
      modifies `counts, `outcomes
      ensures counts == Tally(old(counts), e) && outcomes == TallyOutcome(old(outcomes), e)
    {
      match e {
        case Started =>
          counts := counts.(total := counts.total + 1, active := counts.active + 1);
        case Decided(eligible, selected) =>
          if eligible {
            counts := counts.(eligible := counts.eligible + 1);
          }
          if selected {
            counts := counts.(selected := counts.selected + 1);
          }
        case Applied =>
          counts := counts.(applied := counts.applied + 1, activeFaults := counts.activeFaults + 1);
        case Finished(applied, outcome) =>
          if outcome in outcomes {
            outcomes := outcomes[outcome := outcomes[outcome] + 1];
          } else if |outcomes| < MAX_OUTCOMES {
            outcomes := outcomes[outcome := 1];
          }
          counts := counts.(active := counts.active - 1);
          if applied {
            counts := counts.(activeFaults := counts.activeFaults - 1);
          }
        case Control =>
      }
    }

    method Record(e: Event)
      requires Inv(View())
      modifies this
      ensures View() == Recorded(old(View()), e) && Inv(View())
      ensures counts.written + counts.dropped + counts.pending == old(counts.written + counts.dropped + counts.pending)
              + 1
    {
      RecordKeeps(View(), e);
      RecordShape(View(), e);
      RecordCounts(View(), e);
      Note(e);
      calls := calls + 1;
      if !closed && |queue| < capacity {
        queue, accepted := queue + [e], accepted + [e];
        counts := counts.(pending := counts.pending + 1);
        return;
      }
      counts := counts.(dropped := counts.dropped + 1);
    }

    /** One turn of the writer's loop; `failed` is what the encoder reports. */
    method WriteNext(failed: bool) returns (output: Option<Event>)
      requires Inv(View()) && !stopped && queue != []
      modifies this
      ensures View() == Wrote(old(View()), failed) && Inv(View())
      ensures output == if old(aborted) || failed then None else Some(old(queue)[0])
    {
      WriteKeeps(View(), failed);
      WriteShape(View(), failed);
      var e := queue[0];
      queue := queue[1..];
      if aborted {
        stopped, left := true, [e];
        return None;
      }
      handled := handled + [e];
      counts := counts.(pending := counts.pending - 1);
      if failed {
        counts := counts.(dropped := counts.dropped + 1, writeErrors := counts.writeErrors + 1);
        return None;
      }
      counts := counts.(written := counts.written + 1);
      return Some(e);
    }

    method CloseQueue()
      requires Inv(View())
      modifies this
      ensures View() == Do(old(View()), Step.CloseQueue) && Inv(View())
    {
      StepKeeps(View(), Step.CloseQueue);
      if !closed {
        closed := true;
      }
    }
  }

  lemma RecordKeeps(s: State, e: Event)
    requires Inv(s) && s.producer.Outside?
    ensures Inv(Recorded(s, e))
  {
    StepKeeps(s, Enter(e));
    var entered := Do(s, Enter(e));
    StepKeeps(entered, Send(false));
    var sent := Do(entered, Send(false));
    if sent.producer.Sent? {
      StepKeeps(sent, Count);
    }
  }

  lemma RecordShape(s: State, e: Event)
    requires s.producer.Outside?
    ensures var noted :=
            s.(counts := Tally(s.counts, e), outcomes := TallyOutcome(s.outcomes, e), calls := s.calls + 1);
            Recorded(s, e) == if !s.closed && |s.queue| < s.capacity
                              then noted.(queue := s.queue + [e], accepted := s.accepted + [e],
                                          counts := noted.counts.(pending := noted.counts.pending + 1))
                              else noted.(counts := noted.counts.(dropped := noted.counts.dropped + 1))
  {
  }

  lemma RecordCounts(s: State, e: Event)
    requires s.producer.Outside?
    ensures var c, d := s.counts, Recorded(s, e).counts;
            d.written + d.dropped + d.pending == c.written + c.dropped + c.pending + 1
  {
  }

  lemma WriteShape(s: State, failed: bool)
    requires s.producer.Outside? && s.writer.Waiting? && s.queue != []
    ensures Wrote(s, failed) ==
            if s.aborted then s.(queue := s.queue[1..], writer := Stopped([s.queue[0]]))
            else s.(queue := s.queue[1..], handled := s.handled + [s.queue[0]],
                    counts := if failed then s.counts.(pending := s.counts.pending - 1, dropped := s.counts.dropped + 1,
                                                       writeErrors := s.counts.writeErrors + 1)
                              else s.counts.(pending := s.counts.pending - 1, written := s.counts.written + 1))
  {
  }

  lemma WriteKeeps(s: State, failed: bool)
    requires Inv(s) && s.producer.Outside? && s.writer.Waiting? && s.queue != []
    ensures Inv(Wrote(s, failed))
  {
    StepKeeps(s, Dequeue);
    var held := Do(s, Dequeue);
    StepKeeps(held, Check);
    var checked := Do(held, Check);
    if !checked.writer.Stopped? {
      StepKeeps(checked, Encode(failed));
      StepKeeps(Do(checked, Encode(failed)), Uncount);
    }
  }
}
