/**
 * What every finished PostgreSQL session guarantees, whatever the two peers send and however their frames interleave.
 */
module PgSafety {
  import opened Bytes
  import opened Flow
  import opened History
  import opened PgWire
  import opened PgSession

  lemma {:induction false} StepAt(s: Scenario, steps: seq<Step>, i: nat)
    requires Chronicle(s, steps) && i < |steps|
    ensures Lawful(s, steps[..i], steps[i])
    ensures i + 1 < |steps| ==> steps[i].complete
  {
    var before := steps[..|steps| - 1];
    if i == |before| {
    } else {
      StepAt(s, before, i);
      assert before[..i] == steps[..i];
    }
  }

  lemma SameStep(s: Scenario, a: seq<Step>, b: seq<Step>, n: nat)
    requires Chronicle(s, a) && Chronicle(s, b) && n < |a| && n < |b| && a[..n] == b[..n]
    ensures a[n] == b[n]
  {
    StepAt(s, a, n);
    StepAt(s, b, n);
  }

  /** Two chronicles of one scenario agree as far as both go. */
  lemma SameSteps(s: Scenario, a: seq<Step>, b: seq<Step>, n: nat)
    requires Chronicle(s, a) && Chronicle(s, b) && n <= |a| && n <= |b|
    ensures a[..n] == b[..n]
  {
    forall k | 0 <= k < n && a[..k] == b[..k]
      ensures a[k] == b[k]
    {
      SameStep(s, a, b, k);
    }
    StepByStep(a, b, n);
  }

  /** Where a chronicle goes on, the session was not over. */
  lemma GoesOn(s: Scenario, steps: seq<Step>, n: nat, end: End)
    requires Chronicle(s, steps) && n < |steps|
    ensures !EndsWell(s, steps[..n], end)
  {
    StepAt(s, steps, n);
    if n > 0 {
      StepAt(s, steps, n - 1);
    }
  }

  lemma NoLonger(s: Scenario, a: Log, steps: seq<Step>)
    requires Over(s, a) && Chronicle(s, steps)
    ensures |steps| <= |a.steps|
  {
    var n := |a.steps|;
    if n < |steps| {
      SameSteps(s, a.steps, steps, n);
      assert a.steps[..n] == a.steps;
      GoesOn(s, steps, n, a.end);
    }
  }

  lemma SameEnding(s: Scenario, a: Log, b: Log)
    requires Transparent(s, a) && Transparent(s, b) && a.steps == b.steps
    requires EndsWell(s, a.steps, a.end) && EndsWell(s, b.steps, b.end)
    ensures a.end == b.end && a.toClient == b.toClient && a.toUpstream == b.toUpstream
  {
  }

  /** The predicate on finished sessions leaves no freedom: a scenario has exactly one log. */
  lemma LogIsDetermined(s: Scenario, a: Log, b: Log)
    requires Over(s, a) && Over(s, b)
    ensures a == b
  {
    NoLonger(s, a, b.steps);
    NoLonger(s, b, a.steps);
    SameSteps(s, a.steps, b.steps, |a.steps|);
    assert a.steps == a.steps[..|a.steps|] == b.steps;
    SameEnding(s, a, b);
  }

  /** Step `a` is the client frame that began the command cycle step `i` falls in. */
  ghost predicate CycleOf(steps: seq<Step>, a: nat, i: nat) {
    && a < i <= |steps|
    && steps[a].input.Client?
    && (forall k :: a < k < i ==> !Ready(steps[k]))
    && (forall k :: 0 <= k < a && steps[k].input.Client? ==> exists r :: k < r < a && Ready(steps[r]))
  }

  /** While a cycle is active, the pinned snapshot is the one taken at its first client frame. */
  lemma {:induction false} PinnedStarts(s: Scenario, steps: seq<Step>)
    requires Chronicle(s, steps) && Active(steps)
    ensures Pinned(steps) < |steps| && HeldFrom(steps, Pinned(steps), Starts, CycleOver)
  {
    var before, t := steps[..|steps| - 1], steps[|steps| - 1];
    assert steps == before + [t];
    HeldStep(before, t, Starts, CycleOver);
    if t.starts {
    } else {
      PinnedStarts(s, before);
      assert forall k :: 0 <= k < |before| ==> before[k] == steps[k];
    }
  }

  /** Every client frame is inside an active cycle until ReadyForQuery reaches the client. */
  lemma {:induction false} ClientFramesAreActive(s: Scenario, steps: seq<Step>, k: nat)
    requires Chronicle(s, steps) && k < |steps| && steps[k].input.Client?
    requires forall r :: k < r < |steps| ==> !CycleOver(steps[r])
    ensures Active(steps)
  {
    var before, t := steps[..|steps| - 1], steps[|steps| - 1];
    assert steps == before + [t];
    HeldStep(before, t, Starts, CycleOver);
    if k == |before| {
    } else {
      assert forall r :: 0 <= r < |before| ==> before[r] == steps[r];
      ClientFramesAreActive(s, before, k);
    }
  }

  lemma PinnedIsCycleStart(s: Scenario, steps: seq<Step>, i: nat)
    requires Chronicle(s, steps) && i < |steps| && Chronicle(s, steps[..i]) && Active(steps[..i])
    ensures CycleOf(steps, Pinned(steps[..i]), i)
  {
    var before := steps[..i];
    PinnedStarts(s, before);
    var a := Pinned(before);
    StepAt(s, before, a);
    assert before[a] == steps[a] && before[..a] == steps[..a];
    forall k | 0 <= k < a && steps[k].input.Client?
      ensures exists r :: k < r < a && Ready(steps[r])
    {
      if forall r :: k < r < a ==> !CycleOver(steps[..a][r]) {
        PrefixChronicle(s, before, a);
        ClientFramesAreActive(s, steps[..a], k);
      } else {
        var r :| k < r < a && CycleOver(steps[..a][r]);
        StepAt(s, before, r);
        assert Ready(steps[r]);
      }
    }
    forall k | a < k < i ensures !Ready(steps[k]) { assert before[k] == steps[k]; }
  }

  lemma {:induction false} PrefixChronicle(s: Scenario, steps: seq<Step>, n: nat)
    requires Chronicle(s, steps) && n <= |steps|
    ensures Chronicle(s, steps[..n])
  {
    if n == |steps| {
      assert steps[..n] == steps;
    } else {
      PrefixChronicle(s, steps[..|steps| - 1], n);
      assert steps[..|steps| - 1][..n] == steps[..n];
    }
  }

  /**
   * Decision safety: a decision happens at a COMMIT tag, with evidence of a transaction not revoked since, inside a
   * command cycle and as its first decision; it asks the snapshot taken at the first frame of that cycle.
   */
  lemma DecisionSafety(s: Scenario, steps: seq<Step>, i: nat)
    requires Chronicle(s, steps) && i < |steps| && steps[i].verdict.Some?
    ensures Confirms(steps[i])
    ensures exists j: nat :: j < i && Begins(steps[j]) && forall k :: j < k < i ==> !Ends(steps[k])
    ensures exists a: nat :: CycleOf(steps, a, i) && steps[i].verdict == Some(s.verdicts(a, i))
                             && forall k :: a < k < i ==> steps[k].verdict.None?
  {
    StepAt(s, steps, i);
    var before := steps[..i];
    PrefixChronicle(s, steps, i);
    var j: nat :| HeldFrom(before, j, Begins, Ends);
    assert Begins(steps[j]) && forall k :: j < k < i ==> !Ends(steps[k]) by {
      assert forall k :: 0 <= k < i ==> before[k] == steps[k];
    }
    PinnedIsCycleStart(s, steps, i);
    PinnedStarts(s, before);
    var a := Pinned(before);
    forall k | a < k < i
      ensures steps[k].verdict.None?
    {
      assert HeldFrom(before, k, Decides, CycleOver) <==> Decides(before[k]);
    }
  }

  /** Converse: a COMMIT tag that meets those conditions is always decided on. */
  lemma DecisionTaken(s: Scenario, steps: seq<Step>, i: nat, a: nat, j: nat)
    requires Chronicle(s, steps) && i < |steps| && Confirms(steps[i])
    requires j < i && Begins(steps[j]) && forall k :: j < k < i ==> !Ends(steps[k])
    requires CycleOf(steps, a, i) && forall k :: a < k < i ==> steps[k].verdict.None?
    ensures steps[i].verdict.Some?
  {
    StepAt(s, steps, i);
    var before := steps[..i];
    PrefixChronicle(s, steps, i);
    assert forall k :: 0 <= k < i ==> before[k] == steps[k];
    assert HeldFrom(before, j, Begins, Ends);
    forall r | a < r < i ensures !CycleOver(before[r]) { StepAt(s, steps, r); }
    ClientFramesAreActive(s, before, a);
    if DecidedNow(before) {
      var d: nat :| HeldFrom(before, d, Decides, CycleOver);
      DecisionInCycle(s, steps, a, d, i);
    }
  }

  /** A decision is taken inside a cycle, which some client frame began. */
  lemma DecisionHasClient(s: Scenario, steps: seq<Step>, d: nat) returns (p: nat)
    requires Chronicle(s, steps) && d < |steps| && steps[d].verdict.Some?
    ensures p < d && steps[p].input.Client? && !Ready(steps[d]) && forall r :: p < r < d ==> !Ready(steps[r])
  {
    StepAt(s, steps, d);
    PrefixChronicle(s, steps, d);
    PinnedStarts(s, steps[..d]);
    p := Pinned(steps[..d]);
    StepAt(s, steps, p);
    forall r | p < r < d ensures !Ready(steps[r]) { assert steps[..d][r] == steps[r]; }
  }

  /** A decision not followed by the end of its cycle lies in the current cycle. */
  lemma DecisionInCycle(s: Scenario, steps: seq<Step>, a: nat, d: nat, i: nat)
    requires Chronicle(s, steps) && CycleOf(steps, a, i) && d < i <= |steps|
    requires steps[d].verdict.Some? && forall r :: d < r < i ==> !Ready(steps[r])
    ensures a < d
  {
    var p := DecisionHasClient(s, steps, d);
    assert d != a by { StepAt(s, steps, d); }
    assert p < a ==> exists r :: p < r < a && Ready(steps[r]);
  }

  /** Between two decisions the client is told that the first cycle is over. */
  lemma OncePerCycle(s: Scenario, steps: seq<Step>, i: nat, j: nat)
    requires Chronicle(s, steps) && i < j < |steps|
    requires steps[i].verdict.Some? && steps[j].verdict.Some?
    ensures exists r :: i < r < j && Ready(steps[r])
  {
    StepAt(s, steps, j);
    var before := steps[..j];
    assert Decides(before[i]);
    if forall r :: i < r < j ==> !CycleOver(before[r]) {
      assert HeldFrom(before, i, Decides, CycleOver);
    } else {
      var r :| i < r < j && CycleOver(before[r]);
      StepAt(s, steps, r);
      assert Ready(steps[r]);
    }
  }

  /** A lost acknowledgement ends the session before the COMMIT tag, or anything after it, reaches the client. */
  lemma LostAcknowledgement(s: Scenario, log: Log, i: nat)
    requires Over(s, log) && i < |log.steps| && log.steps[i].verdict.Some?
    ensures var v := log.steps[i].verdict.value;
            log.steps[i].lost <==> v.selected && (v.fault.action.Delay? ==> !s.timers(i))
    ensures log.steps[i].lost ==>
              && i == |log.steps| - 1 && log.end == Aborted
              && log.toClient == Frames(log.steps[..i], false)
  {
    StepAt(s, log.steps, i);
    if log.steps[i].lost {
      assert Frames(log.steps, false) == Frames(log.steps[..i], false) + [log.steps[i].input.frame];
    }
  }

  /** What one peer sent, out of everything received. */
  function SentBy(inputs: seq<Input>, client: bool): seq<Frame> {
    if inputs == [] then [] else
      SentBy(inputs[..|inputs| - 1], client)
      + if inputs[|inputs| - 1].Client? == client then [inputs[|inputs| - 1].frame] else []
  }

  lemma {:induction false} FramesAreSent(s: Scenario, steps: seq<Step>, client: bool)
    requires Chronicle(s, steps)
    ensures |steps| <= |s.inputs| && Frames(steps, client) == SentBy(s.inputs[..|steps|], client)
  {
    if steps == [] {
    } else {
      var n := |steps| - 1;
      FramesAreSent(s, steps[..n], client);
      assert s.inputs[..n + 1][..n] == s.inputs[..n];
    }
  }

  lemma {:induction false} SentByPrefix(inputs: seq<Input>, n: nat, client: bool)
    requires n <= |inputs|
    ensures SentBy(inputs[..n], client) <= SentBy(inputs, client)
  {
    if n == |inputs| {
      assert inputs[..n] == inputs;
    } else {
      SentByPrefix(inputs[..|inputs| - 1], n, client);
      assert inputs[..|inputs| - 1][..n] == inputs[..n];
    }
  }

  /**
   * Both directions are transparent: each peer has a prefix of what the other sent, and the client at most one local
   * error after it.
   */
  lemma Forwarding(s: Scenario, log: Log)
    requires Over(s, log)
    ensures log.toUpstream <= SentBy(s.inputs, true)
    ensures log.toClient <= SentBy(s.inputs, false)
            || (log.end == Rejected && log.toClient != [] && log.toClient[|log.toClient| - 1] == s.refusal
                && log.toClient[..|log.toClient| - 1] <= SentBy(s.inputs, false))
  {
    FramesAreSent(s, log.steps, true);
    FramesAreSent(s, log.steps, false);
    SentByPrefix(s.inputs, |log.steps|, true);
    SentByPrefix(s.inputs, |log.steps|, false);
    var shown := Shown(log.steps, s.clientRoom);
    if log.end == Rejected && shown < s.clientRoom {
      assert log.toClient[..|log.toClient| - 1] == Frames(log.steps, false)[..shown];
    }
  }

  /** Where the session's events stand after some steps. */
  ghost predicate PhaseFits(steps: seq<Step>, p: Phase) {
    if Active(steps) then p.Opened? && p.applied == Faulted(steps) && (p.decided <==> DecidedNow(steps))
        else p == Closed
  }

  /** A fault needs a decision, and a decision an active cycle. */
  ghost predicate Nested(steps: seq<Step>) {
    (Faulted(steps) ==> DecidedNow(steps)) && (DecidedNow(steps) ==> Active(steps))
  }

  lemma {:induction false} AlwaysNested(s: Scenario, steps: seq<Step>)
    requires Chronicle(s, steps) && (steps != [] ==> steps[|steps| - 1].complete)
    ensures Nested(steps)
  {
    if steps == [] {
    } else {
      var before, t := steps[..|steps| - 1], steps[|steps| - 1];
      AlwaysNested(s, before);
      assert steps == before + [t];
      CycleStep(before, t);
      EvidenceStep(before, t);
    }
  }

  lemma {:induction false} PhaseOfSteps(s: Scenario, steps: seq<Step>)
    requires Chronicle(s, steps)
    ensures PhaseFits(steps, PhaseAfter(Closed, Events(steps)))
  {
    if steps == [] {
      assert !Active(steps);
    } else {
      var before, t := steps[..|steps| - 1], steps[|steps| - 1];
      PhaseOfSteps(s, before);
      AlwaysNested(s, before);
      PhaseConcat(Closed, Events(before), StepEvents(before, t));
      PhaseOfStep(before, t, PhaseAfter(Closed, Events(before)));
      PhaseKept(s, before, t, PhaseAfter(Closed, Events(before)), PhaseAfter(Closed, Events(steps)));
      assert steps == before + [t];
    }
  }

  lemma PhaseKept(s: Scenario, before: seq<Step>, t: Step, p: Phase, p': Phase)
    requires Lawful(s, before, t) && PhaseFits(before, p) && Nested(before)
    requires p' == if t.starts then Opened(false, false, false)
                   else if CycleOver(t) && Active(before) then Closed
                   else if t.verdict.Some? then Opened(true, Faults(t), Faults(t))
                   else p
    ensures PhaseFits(before + [t], p')
  {
    CycleStep(before, t);
    EvidenceStep(before, t);
  }

  lemma PhaseOfStep(before: seq<Step>, t: Step, p: Phase)
    requires PhaseFits(before, p) && Nested(before)
    requires t.starts ==> !Active(before) && t.verdict.None? && !CycleOver(t)
    requires t.verdict.Some? ==> Active(before) && !DecidedNow(before) && !Ready(t)
    requires t.lost ==> Faults(t)
    ensures PhaseAfter(p, StepEvents(before, t)) ==
            if t.starts then Opened(false, false, false)
            else if CycleOver(t) && Active(before) then Closed
            else if t.verdict.Some? then Opened(true, Faults(t), Faults(t))
            else p
  {
    var ends := if t.lost then Some(Finished(true, CommitAckLost))
                else if Ready(t) && Active(before) then Some(Finished(Faulted(before), CycleOutcome(before))) else None;
    PhaseOfParts(p, t.starts, t.verdict, ends);
  }

  /** The session's events are complete flows, also when it ends inside a cycle. */
  lemma EventsAreFlows(s: Scenario, log: Log)
    requires Over(s, log)
    ensures PhaseAfter(Closed, log.events) == Closed
  {
    PhaseOfSteps(s, log.steps);
    if Active(log.steps) {
      PhaseStep(Closed, Events(log.steps), Finished(Faulted(log.steps), ConnectionClosed));
    } else {
      assert log.events == Events(log.steps);
    }
  }
}
