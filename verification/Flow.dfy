/**
 * The faults a committed transaction may receive and the events an adapter records for one flow.
 * Both database adapters share the fault; all three adapters share the events.
 */
module Flow {
  import opened Bytes

  datatype Action = Delay | HoldResponse | CloseConnection

  datatype CommitFault = CommitFault(action: Action, duration: Option<nat>, maxDuration: Option<nat>)

  /** What validation guarantees about a rule on a database proxy. */
  predicate ValidFault(f: CommitFault) {
    && (f.action.Delay? ==> f.duration.Some? && f.duration.value > 0)
    && (f.action.HoldResponse? ==> f.maxDuration.Some? && f.maxDuration.value > 0)
  }

  /** One answer of the rule engine: whether a rule owns the commit, whether it selected it, and the rule's fault. */
  datatype Verdict = Verdict(eligible: bool, selected: bool, fault: CommitFault)

  predicate ValidVerdict(v: Verdict) {
    v.selected ==> v.eligible && ValidFault(v.fault)
  }

  /**
   * Runs a fault to its end.  `timerFirst` tells whether the fault's own timer beats the end of the cycle's context;
   * the result tells whether the withheld acknowledgement is sent after all.
   */
  method Apply(f: CommitFault, timerFirst: bool) returns (acknowledged: bool)
    requires ValidFault(f)
    ensures acknowledged <==> f.action.Delay? && timerFirst
  {
    if f.action.CloseConnection? {
      return false;
    }
    var duration := f.duration;
    if f.action.HoldResponse? {
      duration := f.maxDuration;
    }
    assert duration.Some?;
    if !timerFirst {
      return false;
    }
    return f.action.Delay?;
  }

  /** The verdict takes the acknowledgement away from the client. */
  predicate Loses(v: Verdict, timerFirst: bool) {
    v.selected && !(v.fault.action.Delay? && timerFirst)
  }

  datatype Outcome =
    | Forwarded | UpstreamError | CommitAckLost | ConnectionClosed | ClientClosed | DialError | Named(name: string)

  datatype Event =
    | Started
    | Decided(eligible: bool, selected: bool)
    | Applied
    | Finished(applied: bool, outcome: Outcome)
    | Control

  /**
   * Where a stream of one source's events stands.  A flow is started, decided on at most once, has its fault applied
   * only if selected and at most once, and is finished with a flag that tells whether it was.
   */
  datatype Phase = Closed | Opened(decided: bool, selected: bool, applied: bool) | Wrong

  function Advance(p: Phase, e: Event): Phase {
    match (p, e)
    case (Closed, Started) => Opened(false, false, false)
    case (Opened(false, _, false), Decided(_, selected)) => Opened(true, selected, false)
    case (Opened(true, true, false), Applied) => Opened(true, true, true)
    case (Opened(_, _, applied), Finished(flag, _)) => if flag == applied then Closed else Wrong
    case (_, Control) => p
    case _ => Wrong
  }

  function PhaseAfter(p: Phase, es: seq<Event>): Phase {
    if es == [] then p else Advance(PhaseAfter(p, es[..|es| - 1]), es[|es| - 1])
  }

  lemma {:induction false} PhaseConcat(p: Phase, a: seq<Event>, b: seq<Event>)
    ensures PhaseAfter(p, a + b) == PhaseAfter(PhaseAfter(p, a), b)
  {
    if b == [] {
      assert a + b == a;
    } else {
      PhaseConcat(p, a, b[..|b| - 1]);
      assert (a + b)[..|a + b| - 1] == a + b[..|b| - 1];
    }
  }

  lemma PhaseStep(p: Phase, es: seq<Event>, e: Event)
    ensures PhaseAfter(p, es + [e]) == Advance(PhaseAfter(p, es), e)
  {
    assert (es + [e])[..|es|] == es;
  }

  function AppliedEvents(v: Verdict): seq<Event> {
    [Decided(v.eligible, v.selected)] + if v.selected then [Applied] else []
  }

  /** The events of one database flow. */
  function FlowEvents(verdict: Option<Verdict>, outcome: Outcome): seq<Event> {
    [Started]
    + (if verdict.Some? then AppliedEvents(verdict.value) else [])
    + [Finished(verdict.Some? && verdict.value.selected, outcome)]
  }

  lemma PhaseOfVerdict(p: Phase, v: Verdict)
    requires p.Opened? && !p.decided && !p.applied
    ensures PhaseAfter(p, AppliedEvents(v)) == Opened(true, v.selected, v.selected)
  {
    PhaseConcat(p, [Decided(v.eligible, v.selected)], if v.selected then [Applied] else []);
  }

  /** The phase after a stretch of events, each part of which may be missing. */
  lemma PhaseOfParts(p: Phase, starts: bool, verdict: Option<Verdict>, ends: Option<Event>)
    requires starts ==> p == Closed
    requires verdict.Some? ==> starts || (p.Opened? && !p.decided && !p.applied)
    requires ends.Some? ==> ends.value.Finished? && (starts || p.Opened?)
                            && ends.value.applied ==
                               if verdict.Some? then verdict.value.selected else !starts && p.applied
    ensures PhaseAfter(p, (if starts then [Started] else [])
                          + (if verdict.Some? then AppliedEvents(verdict.value) else [])
                          + (if ends.Some? then [ends.value] else []))
            == if ends.Some? then Closed
               else if verdict.Some? then Opened(true, verdict.value.selected, verdict.value.selected)
               else if starts then Opened(false, false, false)
               else p
  {
    var a := if starts then [Started] else [];
    var b := if verdict.Some? then AppliedEvents(verdict.value) else [];
    PhaseConcat(p, a + b, if ends.Some? then [ends.value] else []);
    PhaseConcat(p, a, b);
    if verdict.Some? {
      PhaseOfVerdict(PhaseAfter(p, a), verdict.value);
    }
  }

  /** The events of one flow lead from a closed phase to a closed one. */
  lemma OneFlow(verdict: Option<Verdict>, outcome: Outcome)
    ensures PhaseAfter(Closed, FlowEvents(verdict, outcome)) == Closed
  {
    PhaseOfParts(Closed, true, verdict, Some(Finished(verdict.Some? && verdict.value.selected, outcome)));
  }
}
