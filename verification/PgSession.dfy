/**
 * The PostgreSQL session loop: it follows frames of both peers in the order they arrive and decides at confirmed
 * COMMITs.
 */
module PgSession {
  import opened Bytes
  import opened Net
  import opened Flow
  import opened History
  import opened PgWire

  datatype Input = Client(frame: Frame) | Server(frame: Frame)

  /**
   * Everything outside the adapter's control: the frames of both peers in the order the loop receives them before its
   * context ends, the error frame it answers a refused one with, how many frames each connection takes before a write
   * fails, whether a fault's timer beats the context, and `verdicts(p, n)`: what the snapshot active at step `p`
   * answers when it is consulted at step `n`.
   */
  datatype Scenario = Scenario(
    inputs: seq<Input>,
    refusal: Frame,
    clientRoom: nat,
    upstreamRoom: nat,
    verdicts: (nat, nat) -> Verdict,
    timers: nat -> bool)

  ghost predicate ValidScenario(s: Scenario) {
    forall p: nat, n: nat :: ValidVerdict(s.verdicts(p, n))
  }

  predicate Is(f: Frame, kind: char) {
    f.kind == kind as int
  }

  /** The frontend messages the adapter supports, apart from Terminate. */
  predicate ClientKind(b: Byte) {
    b == 'Q' as int || b == 'P' as int || b == 'B' as int || b == 'D' as int || b == 'E' as int
    || b == 'H' as int || b == 'C' as int || b == 'S' as int
  }

  /** The backend messages it supports. */
  predicate ServerKind(b: Byte) {
    b == '1' as int || b == '2' as int || b == '3' as int || b == 'n' as int || b == 'T' as int
    || b == 's' as int || b == 'D' as int || b == 'C' as int || b == 'I' as int || b == 'E' as int
    || b == 'N' as int || b == 'S' as int || b == 'A' as int || b == 'Z' as int || b == 't' as int
  }

  predicate TransactionStatus(b: Byte) {
    b == 'I' as int || b == 'T' as int || b == 'E' as int
  }

  predicate Tag(f: Frame, text: string) {
    Is(f, 'C') && f.body == Ascii(text) + [0]
  }

  /** One received frame the adapter acted on; `starts`: it began a command cycle. */
  datatype Step = Step(input: Input, starts: bool, verdict: Option<Verdict>, lost: bool, complete: bool)

  /** ReadyForQuery reached the client: the command cycle is over. */
  predicate Ready(t: Step) {
    t.input.Server? && Is(t.input.frame, 'Z') && t.complete
  }

  predicate CycleOver(t: Step) {
    Ready(t) || t.lost
  }

  predicate Starts(t: Step) {
    t.starts
  }

  predicate ClientSent(t: Step, kind: char) {
    t.input.Client? && Is(t.input.frame, kind)
  }

  predicate AwaitsReady(t: Step) {
    ClientSent(t, 'Q') || ClientSent(t, 'S')
  }

  predicate Executes(t: Step) {
    ClientSent(t, 'E')
  }

  predicate Decides(t: Step) {
    t.verdict.Some?
  }

  predicate Faults(t: Step) {
    t.verdict.Some? && t.verdict.value.selected
  }

  predicate ServerFails(t: Step) {
    t.input.Server? && Is(t.input.frame, 'E')
  }

  predicate Confirms(t: Step) {
    t.input.Server? && Tag(t.input.frame, "COMMIT")
  }

  /** Evidence of an open transaction: a BEGIN tag, or ReadyForQuery with status T or E. */
  predicate Begins(t: Step) {
    t.input.Server? && (Tag(t.input.frame, "BEGIN")
                        || (Is(t.input.frame, 'Z') && |t.input.frame.body| == 1 && t.input.frame.body[0] != 'I' as int))
  }

  /** Evidence against it: a ROLLBACK tag, ReadyForQuery with status I, or a COMMIT already decided on. */
  predicate Ends(t: Step) {
    || Decides(t)
    || (t.input.Server? && (Tag(t.input.frame, "ROLLBACK")
                            || (Is(t.input.frame, 'Z') && |t.input.frame.body| == 1
                                && t.input.frame.body[0] == 'I' as int)))
  }

  ghost predicate Active(steps: seq<Step>) { Held(steps, Starts, CycleOver) }

  ghost predicate Awaiting(steps: seq<Step>) { Held(steps, AwaitsReady, Ready) }

  ghost predicate Executed(steps: seq<Step>) { Held(steps, Executes, CycleOver) }

  ghost predicate DecidedNow(steps: seq<Step>) { Held(steps, Decides, CycleOver) }

  ghost predicate Faulted(steps: seq<Step>) { Held(steps, Faults, CycleOver) }

  ghost predicate Failed(steps: seq<Step>) { Held(steps, ServerFails, Starts) }

  ghost predicate Open(steps: seq<Step>) { Held(steps, Begins, Ends) }

  /** The step that began the latest command cycle. */
  function Pinned(steps: seq<Step>): nat {
    if steps == [] then 0
    else if steps[|steps| - 1].starts then |steps| - 1
    else Pinned(steps[..|steps| - 1])
  }

  datatype Admission = Stop | Reject | Take

  ghost function Admit(steps: seq<Step>, input: Input): Admission {
    var f := input.frame;
    if input.Client? then
      if Is(f, 'X') then Stop
      else if !ClientKind(f.kind) || Awaiting(steps) || (Is(f, 'E') && Executed(steps)) then Reject
      else Take
    else
      if !ServerKind(f.kind) || (Is(f, 'Z') && (|f.body| != 1 || !TransactionStatus(f.body[0]))) then Reject
      else Take
  }

  /** The frames one peer sent in these steps. */
  function Frames(steps: seq<Step>, client: bool): (fs: seq<Frame>)
    ensures |fs| <= |steps|
  {
    if steps == [] then [] else
      var before, t := steps[..|steps| - 1], steps[|steps| - 1];
      Frames(before, client) + if t.input.Client? == client then [t.input.frame] else []
  }

  /** Step `t` is what the adapter must do with the next frame after `steps`. */
  ghost predicate Lawful(s: Scenario, steps: seq<Step>, t: Step) {
    var n := |steps|;
    && n < |s.inputs| && t.input == s.inputs[n] && Admit(steps, t.input) == Take
    && t.starts == (t.input.Client? && !Active(steps))
    && t.verdict == (if Confirms(t) && Open(steps) && Active(steps) && !DecidedNow(steps)
                     then Some(s.verdicts(Pinned(steps), n)) else None)
    && t.lost == (t.verdict.Some? && Loses(t.verdict.value, s.timers(n)))
    && t.complete == (!t.lost && if t.input.Client? then |Frames(steps, true)| < s.upstreamRoom
                                 else |Frames(steps, false)| < s.clientRoom)
  }

  ghost predicate Chronicle(s: Scenario, steps: seq<Step>) {
    steps == [] ||
    var before := steps[..|steps| - 1];
    && Chronicle(s, before)
    && Lawful(s, before, steps[|steps| - 1])
    && (before != [] ==> before[|before| - 1].complete)
  }

  ghost function CycleOutcome(steps: seq<Step>): Outcome {
    if Failed(steps) then UpstreamError else Forwarded
  }

  ghost function StepEvents(steps: seq<Step>, t: Step): seq<Event> {
    (if t.starts then [Started] else [])
    + (if t.verdict.Some? then AppliedEvents(t.verdict.value) else [])
    + (if t.lost then [Finished(true, CommitAckLost)]
       else if Ready(t) && Active(steps) then [Finished(Faulted(steps), CycleOutcome(steps))]
       else [])
  }

  ghost function Events(steps: seq<Step>): seq<Event> {
    if steps == [] then [] else
      var before := steps[..|steps| - 1];
      Events(before) + StepEvents(before, steps[|steps| - 1])
  }

  /** Leaving the loop finishes a cycle that is still active. */
  ghost function FinalEvents(steps: seq<Step>): seq<Event> {
    Events(steps) + if Active(steps) then [Finished(Faulted(steps), ConnectionClosed)] else []
  }

  /** The session's variables. */
  datatype Vars = Vars(active: bool, awaiting: bool, transaction: bool, executed: bool, decided: bool,
                       applied: bool, failed: bool, pinned: nat)

  ghost predicate Agrees(steps: seq<Step>, v: Vars) {
    && (v.active <==> Active(steps))
    && (v.awaiting <==> Awaiting(steps))
    && (v.transaction <==> Open(steps))
    && (v.active && v.executed <==> Executed(steps))
    && (v.active && v.decided <==> DecidedNow(steps))
    && (v.active && v.applied <==> Faulted(steps))
    && (v.active ==> (v.failed <==> Failed(steps)))
    && (v.active ==> v.pinned == Pinned(steps))
  }

  lemma CycleStep(steps: seq<Step>, t: Step)
    ensures var all := steps + [t];
            && (Active(all) <==> t.starts || (Active(steps) && !CycleOver(t)))
            && (Awaiting(all) <==> AwaitsReady(t) || (Awaiting(steps) && !Ready(t)))
            && (Executed(all) <==> Executes(t) || (Executed(steps) && !CycleOver(t)))
            && Pinned(all) == (if t.starts then |steps| else Pinned(steps))
  {
    HeldStep(steps, t, Starts, CycleOver);
    HeldStep(steps, t, AwaitsReady, Ready);
    HeldStep(steps, t, Executes, CycleOver);
    assert (steps + [t])[..|steps|] == steps;
  }

  lemma EvidenceStep(steps: seq<Step>, t: Step)
    ensures var all := steps + [t];
            && (Open(all) <==> Begins(t) || (Open(steps) && !Ends(t)))
            && (DecidedNow(all) <==> Decides(t) || (DecidedNow(steps) && !CycleOver(t)))
            && (Faulted(all) <==> Faults(t) || (Faulted(steps) && !CycleOver(t)))
            && (Failed(all) <==> ServerFails(t) || (Failed(steps) && !t.starts))
  {
    HeldStep(steps, t, Begins, Ends);
    HeldStep(steps, t, Decides, CycleOver);
    HeldStep(steps, t, Faults, CycleOver);
    HeldStep(steps, t, ServerFails, Starts);
  }

  lemma LastStep(steps: seq<Step>, t: Step)
    ensures Events(steps + [t]) == Events(steps) + StepEvents(steps, t)
    ensures forall client: bool ::
              Frames(steps + [t], client) == Frames(steps, client)
                  + (if t.input.Client? == client then [t.input.frame] else [])
    ensures (steps + [t])[..|steps|] == steps
  {
    assert (steps + [t])[..|steps|] == steps;
  }

  /** Enough agreement to finish the flow on the way out, also after an incomplete step. */
  ghost predicate Settles(steps: seq<Step>, v: Vars) {
    (v.active <==> Active(steps)) && (v.active ==> (v.applied <==> Faulted(steps)))
  }

  lemma ClientAgrees(s: Scenario, steps: seq<Step>, t: Step, v: Vars, v': Vars)
    requires Agrees(steps, v) && Lawful(s, steps, t) && t.input.Client?
    requires v' == Vars(true, v.awaiting || AwaitsReady(t), v.transaction, (v.active && v.executed) || Executes(t),
                        v.active && v.decided, v.active && v.applied, v.active && v.failed, if v.active then v.pinned
                            else |steps|)
    ensures Agrees(steps + [t], v') && StepEvents(steps, t) == if v.active then [] else [Started]
  {
    CycleStep(steps, t);
    EvidenceStep(steps, t);
  }

  method OnClient(s: Scenario, ghost steps: seq<Step>, n: nat, f: Frame, v: Vars, written: nat)
    returns (taken: bool, t: Step, v': Vars, events: seq<Event>)
    requires Agrees(steps, v) && n == |steps| < |s.inputs| && s.inputs[n] == Client(f) && !Is(f, 'X')
    requires written == |Frames(steps, true)|
    ensures taken <==> Admit(steps, s.inputs[n]) == Take
    ensures !taken ==> v' == v && events == []
    ensures taken ==> Lawful(s, steps, t) && Agrees(steps + [t], v') && events == StepEvents(steps, t)
  {
    taken, t, v', events := false, Step(s.inputs[n], !v.active, None, false, written < s.upstreamRoom), v, [];
    if !ClientKind(f.kind) || v.awaiting {
      return;
    }
    if !v.active {
      v' := v'.(active := true, executed := false, decided := false, applied := false, failed := false, pinned := n);
      events := [Started];
    }
    if Is(f, 'E') {
      if v'.executed {
        return;
      }
      v' := v'.(executed := true);
    }
    if Is(f, 'Q') || Is(f, 'S') {
      v' := v'.(awaiting := true);
    }
    taken := true;
    ClientAgrees(s, steps, t, v, v');
  }

  /** The fault decision at a CommandComplete frame, and what its tag tells about the transaction. */
  method OnTag(s: Scenario, n: nat, f: Frame, v: Vars)
    returns (verdict: Option<Verdict>, lost: bool, v': Vars, events: seq<Event>)
    requires ValidScenario(s) && Is(f, 'C')
    ensures verdict == if Tag(f, "COMMIT") && v.transaction && v.active && !v.decided
                       then Some(s.verdicts(v.pinned, n)) else None
    ensures lost == (verdict.Some? && Loses(verdict.value, s.timers(n)))
    ensures v' == v.(transaction := Tag(f, "BEGIN") || (v.transaction && !Tag(f, "ROLLBACK") && verdict.None?),
                     decided := v.decided || verdict.Some?,
                     applied := v.applied || (verdict.Some? && verdict.value.selected))
    ensures events == if verdict.Some? then AppliedEvents(verdict.value) else []
  {
    verdict, lost, v', events := None, false, v, [];
    assert |Ascii("BEGIN")| != |Ascii("ROLLBACK")| && |Ascii("COMMIT")| != |Ascii("BEGIN")|
        && |Ascii("COMMIT")| != |Ascii("ROLLBACK")|;
    if f.body == Ascii("BEGIN") + [0] {
      v' := v'.(transaction := true);
    } else if f.body == Ascii("ROLLBACK") + [0] {
      v' := v'.(transaction := false);
    } else if f.body == Ascii("COMMIT") + [0] {
      if v.transaction && v.active && !v.decided {
        v' := v'.(transaction := false, decided := true);
        var decision := s.verdicts(v.pinned, n);
        verdict, events := Some(decision), [Decided(decision.eligible, decision.selected)];
        if decision.selected {
          v', events := v'.(applied := true), events + [Applied];
          var acknowledged := Apply(decision.fault, s.timers(n));
          lost := !acknowledged;
        }
      }
    }
  }

  lemma CompleteAgrees(s: Scenario, steps: seq<Step>, t: Step, v: Vars, v': Vars)
    requires Agrees(steps, v) && Lawful(s, steps, t) && t.input.Server? && Is(t.input.frame, 'C')
    requires v' ==
             v.(transaction := Tag(t.input.frame, "BEGIN")
                   || (v.transaction && !Tag(t.input.frame, "ROLLBACK") && t.verdict.None?),
                      decided := v.decided || t.verdict.Some?,
                      applied := v.applied || Faults(t))
    ensures !t.lost ==> Agrees(steps + [t], v')
    ensures t.lost ==> !Active(steps + [t])
  {
    CycleStep(steps, t);
    EvidenceStep(steps, t);
    assert |Ascii("BEGIN")| != |Ascii("ROLLBACK")| && |Ascii("COMMIT")| != |Ascii("BEGIN")|;
  }

  lemma CompleteLawful(s: Scenario, steps: seq<Step>, t: Step, v: Vars, written: nat)
    requires Agrees(steps, v) && |steps| < |s.inputs| && t.input == s.inputs[|steps|] && Admit(steps, t.input) == Take
    requires t.input.Server? && Is(t.input.frame, 'C') && !t.starts && written == |Frames(steps, false)|
    requires t.verdict == if Tag(t.input.frame, "COMMIT") && v.transaction && v.active && !v.decided
                          then Some(s.verdicts(v.pinned, |steps|)) else None
    requires t.lost == (t.verdict.Some? && Loses(t.verdict.value, s.timers(|steps|)))
    requires t.complete == (!t.lost && written < s.clientRoom)
    ensures Lawful(s, steps, t)
    ensures StepEvents(steps, t) == (if t.verdict.Some? then AppliedEvents(t.verdict.value) else [])
                                    + (if t.lost then [Finished(true, CommitAckLost)] else [])
  {
  }

  /** CommandComplete. */
  method OnComplete(s: Scenario, ghost steps: seq<Step>, n: nat, f: Frame, v: Vars, written: nat)
    returns (t: Step, v': Vars, events: seq<Event>)
    requires ValidScenario(s) && Agrees(steps, v) && n == |steps| < |s.inputs| && s.inputs[n] == Server(f)
    requires Is(f, 'C') && Admit(steps, s.inputs[n]) == Take && written == |Frames(steps, false)|
    ensures Lawful(s, steps, t) && Settles(steps + [t], v') && events == StepEvents(steps, t)
    ensures t.complete ==> Agrees(steps + [t], v')
  {
    var verdict, lost;
    verdict, lost, v', events := OnTag(s, n, f, v);
    t := Step(s.inputs[n], false, verdict, lost, !lost && written < s.clientRoom);
    CompleteLawful(s, steps, t, v, written);
    CompleteAgrees(s, steps, t, v, v');
    if lost {
      v', events := v'.(active := false), events + [Finished(true, CommitAckLost)];
    }
  }

  /** ReadyForQuery with a valid status. */
  method OnReady(s: Scenario, ghost steps: seq<Step>, n: nat, f: Frame, v: Vars, written: nat)
    returns (t: Step, v': Vars, events: seq<Event>)
    requires Agrees(steps, v) && n == |steps| < |s.inputs| && s.inputs[n] == Server(f)
    requires Is(f, 'Z') && |f.body| == 1 && Admit(steps, s.inputs[n]) == Take && written == |Frames(steps, false)|
    ensures Lawful(s, steps, t) && Settles(steps + [t], v') && events == StepEvents(steps, t)
    ensures t.complete ==> Agrees(steps + [t], v')
  {
    t := Step(s.inputs[n], false, None, false, written < s.clientRoom);
    CycleStep(steps, t);
    EvidenceStep(steps, t);
    v', events := v.(transaction := f.body[0] != 'I' as int, awaiting := false), [];
    if t.complete {
      if v'.active {
        events := [Finished(v'.applied, if v'.failed then UpstreamError else Forwarded)];
      }
      v' := v'.(active := false);
    }
  }

  /** A frame that is neither CommandComplete nor ReadyForQuery is only forwarded. */
  lemma PlainAgrees(s: Scenario, steps: seq<Step>, t: Step, v: Vars, v': Vars)
    requires Agrees(steps, v) && |steps| < |s.inputs| && t.input == s.inputs[|steps|] && Admit(steps, t.input) == Take
    requires t.input.Server? && !Is(t.input.frame, 'Z') && !Is(t.input.frame, 'C')
    requires t == Step(t.input, false, None, false, |Frames(steps, false)| < s.clientRoom)
    requires v' == v.(failed := v.failed || Is(t.input.frame, 'E'))
    ensures Lawful(s, steps, t) && Agrees(steps + [t], v') && StepEvents(steps, t) == []
  {
    CycleStep(steps, t);
    EvidenceStep(steps, t);
  }

  method OnPlain(s: Scenario, ghost steps: seq<Step>, n: nat, f: Frame, v: Vars, written: nat)
      returns (t: Step, v': Vars)
    requires Agrees(steps, v) && n == |steps| < |s.inputs| && s.inputs[n] == Server(f)
    requires !Is(f, 'Z') && !Is(f, 'C') && Admit(steps, s.inputs[n]) == Take && written == |Frames(steps, false)|
    ensures Lawful(s, steps, t) && Agrees(steps + [t], v') && StepEvents(steps, t) == []
  {
    t, v' := Step(s.inputs[n], false, None, false, written < s.clientRoom), v;
    if Is(f, 'E') {
      v' := v.(failed := true);
    }
    PlainAgrees(s, steps, t, v, v');
  }

  method OnServer(s: Scenario, ghost steps: seq<Step>, n: nat, f: Frame, v: Vars, written: nat)
    returns (taken: bool, t: Step, v': Vars, events: seq<Event>)
    requires ValidScenario(s) && Agrees(steps, v) && n == |steps| < |s.inputs| && s.inputs[n] == Server(f)
    requires written == |Frames(steps, false)|
    ensures taken <==> Admit(steps, s.inputs[n]) == Take
    ensures !taken ==> v' == v && events == []
    ensures taken ==> Lawful(s, steps, t) && Settles(steps + [t], v') && events == StepEvents(steps, t)
    ensures taken && t.complete ==> Agrees(steps + [t], v')
  {
    taken, t, v', events := false, Step(s.inputs[n], false, None, false, false), v, [];
    if !ServerKind(f.kind) {
      return;
    }
    if Is(f, 'Z') {
      if |f.body| != 1 || !TransactionStatus(f.body[0]) {
        return;
      }
      t, v', events := OnReady(s, steps, n, f, v, written);
    } else if Is(f, 'C') {
      t, v', events := OnComplete(s, steps, n, f, v, written);
    } else {
      t, v' := OnPlain(s, steps, n, f, v, written);
    }
    taken := true;
  }

  datatype End = Idle | Quit | Rejected | Aborted

  datatype Log = Log(steps: seq<Step>, toClient: seq<Frame>, toUpstream: seq<Frame>, events: seq<Event>, end: End)

  /** How many upstream frames the client has after these steps. */
  function Shown(steps: seq<Step>, room: nat): (k: nat)
    ensures steps != [] && steps[|steps| - 1].lost && steps[|steps| - 1].input.Server? ==> k < |Frames(steps, false)|
    ensures k <= |Frames(steps, false)|
  {
    var n := |Frames(steps, false)|;
    if steps != [] && steps[|steps| - 1].lost && n > 0 then n - 1 else Min(n, room)
  }

  ghost predicate Transparent(s: Scenario, log: Log) {
    var shown := Shown(log.steps, s.clientRoom);
    && log.toUpstream == Frames(log.steps, true)[..Min(|Frames(log.steps, true)|, s.upstreamRoom)]
    && log.toClient == Frames(log.steps, false)[..shown]
                       + (if log.end == Rejected && shown < s.clientRoom then [s.refusal] else [])
  }

  ghost predicate EndsWell(s: Scenario, steps: seq<Step>, end: End) {
    var n := |steps|;
    && n <= |s.inputs|
    && if n > 0 && !steps[n - 1].complete then end == Aborted
       else if n == |s.inputs| then end == Idle
       else match Admit(steps, s.inputs[n])
         case Stop => end == Quit
         case Reject => end == Rejected
         case Take => false
  }

  ghost predicate Over(s: Scenario, log: Log) {
    Chronicle(s, log.steps) && Transparent(s, log) && EndsWell(s, log.steps, log.end)
        && log.events == FinalEvents(log.steps)
  }

  /** Between steps both connections hold everything the other peer sent so far. */
  ghost predicate Current(s: Scenario, log: Log) {
    && Chronicle(s, log.steps)
    && (log.steps != [] ==> log.steps[|log.steps| - 1].complete)
    && log.toClient == Frames(log.steps, false) && |log.toClient| <= s.clientRoom
    && log.toUpstream == Frames(log.steps, true) && |log.toUpstream| <= s.upstreamRoom
    && log.events == Events(log.steps)
    && |log.steps| <= |s.inputs| && log.end == Idle
  }

  /** The log after a step: a frame the step forwarded is on the other connection. */
  function Extended(log: Log, t: Step, events: seq<Event>): Log {
    Log(log.steps + [t],
        log.toClient + (if t.input.Server? && t.complete then [t.input.frame] else []),
        log.toUpstream + (if t.input.Client? && t.complete then [t.input.frame] else []),
        log.events + events,
        if t.complete then Idle else Aborted)
  }

  lemma AfterStep(s: Scenario, log: Log, t: Step, log': Log)
    requires Current(s, log) && Lawful(s, log.steps, t) && log' == Extended(log, t, StepEvents(log.steps, t))
    ensures Chronicle(s, log'.steps) && log'.events == Events(log'.steps)
    ensures t.complete ==> Current(s, log')
    ensures !t.complete ==> Transparent(s, log') && EndsWell(s, log'.steps, log'.end)
  {
    LastStep(log.steps, t);
  }

  /** One iteration of the loop for a received frame other than Terminate. */
  method Receive(s: Scenario, log: Log, v: Vars) returns (log': Log, v': Vars, taken: bool)
    requires ValidScenario(s) && Current(s, log) && Agrees(log.steps, v)
    requires |log.steps| < |s.inputs| && Admit(log.steps, s.inputs[|log.steps|]) != Stop
    ensures taken <==> Admit(log.steps, s.inputs[|log.steps|]) == Take
    ensures !taken ==> log' == log && v' == v
    ensures taken ==> |log'.steps| == |log.steps| + 1 && Settles(log'.steps, v')
    ensures taken ==> Chronicle(s, log'.steps) && log'.events == Events(log'.steps)
    ensures taken && log'.end == Idle ==> Current(s, log') && Agrees(log'.steps, v')
    ensures taken && log'.end != Idle ==> Transparent(s, log') && EndsWell(s, log'.steps, log'.end)
  {
    var n, input := |log.steps|, s.inputs[|log.steps|];
    var t, events;
    log' := log;
    if input.Client? {
      taken, t, v', events := OnClient(s, log.steps, n, input.frame, v, |log.toUpstream|);
    } else {
      taken, t, v', events := OnServer(s, log.steps, n, input.frame, v, |log.toClient|);
    }
    if !taken {
      return log, v, false;
    }
    log' := Extended(log, t, events);
    AfterStep(s, log, t, log');
  }

  lemma EventsAside(s: Scenario, log: Log, events: seq<Event>)
    requires Transparent(s, log)
    ensures Transparent(s, log.(events := events))
  {
  }

  /** Leaving the loop: a cycle still active is finished as closed. */
  method Finish(s: Scenario, log: Log, v: Vars) returns (done: Log)
    requires Chronicle(s, log.steps) && Transparent(s, log) && EndsWell(s, log.steps, log.end)
    requires log.events == Events(log.steps) && Settles(log.steps, v)
    ensures Over(s, done)
  {
    done := log;
    EventsAside(s, log, log.events + [Finished(v.applied, ConnectionClosed)]);
    if v.active {
      done := done.(events := log.events + [Finished(v.applied, ConnectionClosed)]);
    }
  }

  lemma StaysTransparent(s: Scenario, log: Log, end: End, toClient: seq<Frame>)
    requires Current(s, log) && end != Aborted
    requires toClient == log.toClient + if end == Rejected && |log.toClient| < s.clientRoom then [s.refusal] else []
    ensures Transparent(s, log.(end := end, toClient := toClient))
  {
  }

  /** What the loop does with the next frame, if one arrives. */
  ghost function NextAdmission(s: Scenario, steps: seq<Step>): Option<Admission> {
    if |steps| < |s.inputs| then Some(Admit(steps, s.inputs[|steps|])) else None
  }

  lemma EndsHere(s: Scenario, steps: seq<Step>, end: End)
    requires steps != [] ==> steps[|steps| - 1].complete
    requires |steps| <= |s.inputs| && NextAdmission(s, steps) != Some(Take)
    requires end == match NextAdmission(s, steps) case None => Idle case Some(Stop) => Quit case Some(_) => Rejected
    ensures EndsWell(s, steps, end)
  {
  }

  /** Leaving the loop between steps, with a local error frame when the last input was refused. */
  method Leave(s: Scenario, log: Log, v: Vars, end: End) returns (done: Log)
    requires Current(s, log) && Agrees(log.steps, v)
    requires end == match NextAdmission(s, log.steps) case None => Idle case Some(Stop) => Quit case Some(_) => Rejected
    requires NextAdmission(s, log.steps) != Some(Take)
    ensures Over(s, done)
  {
    var toClient := log.toClient;
    if end == Rejected && |toClient| < s.clientRoom {
      toClient := toClient + [s.refusal];
    }
    EndsHere(s, log.steps, end);
    StaysTransparent(s, log, end, toClient);
    done := Finish(s, log.(end := end, toClient := toClient), v);
  }

  /** The whole session; its log is determined by the scenario. */
  method Exchange(s: Scenario) returns (log: Log)
    requires ValidScenario(s)
    ensures Over(s, log)
  {
    log := Log([], [], [], [], Idle);
    var v := Vars(false, false, false, false, false, false, false, 0);
    while |log.steps| < |s.inputs|
      invariant Current(s, log) && Agrees(log.steps, v)
      decreases |s.inputs| - |log.steps|
    {
      var input := s.inputs[|log.steps|];
      if input.Client? && Is(input.frame, 'X') {
        log := Leave(s, log, v, Quit);
        return;
      }
      var taken;
      log, v, taken := Receive(s, log, v);
      if !taken {
        log := Leave(s, log, v, Rejected);
        return;
      }
      if log.end != Idle {
        log := Finish(s, log, v);
        return;
      }
    }
    log := Leave(s, log, v, Idle);
  }
}
