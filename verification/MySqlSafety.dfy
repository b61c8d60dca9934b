/** What every finished MySQL session guarantees, whatever the two peers send. */
module MySqlSafety {
  import opened Bytes
  import opened Flow
  import opened History
  import opened MySqlWire
  import opened MySqlSession

  lemma {:induction false} TurnAt(s: Scenario, turns: seq<Turn>, i: nat)
    requires ValidScenario(s) && Chronicle(s, turns) && i < |turns|
    ensures Lawful(s, turns[..i], turns[i])
    ensures i + 1 < |turns| ==> turns[i].complete
  {
    var before := turns[..|turns| - 1];
    if i == |before| {
    } else {
      TurnAt(s, before, i);
      assert before[..i] == turns[..i];
    }
  }

  lemma SameTurn(s: Scenario, a: seq<Turn>, b: seq<Turn>, n: nat)
    requires ValidScenario(s) && Chronicle(s, a) && Chronicle(s, b) && n < |a| && n < |b| && a[..n] == b[..n]
    ensures a[n] == b[n]
  {
    TurnAt(s, a, n);
    TurnAt(s, b, n);
  }

  /** Two chronicles of one scenario agree as far as both go. */
  lemma SameTurns(s: Scenario, a: seq<Turn>, b: seq<Turn>, n: nat)
    requires ValidScenario(s) && Chronicle(s, a) && Chronicle(s, b) && n <= |a| && n <= |b|
    ensures a[..n] == b[..n]
  {
    forall k | 0 <= k < n && a[..k] == b[..k]
      ensures a[k] == b[k]
    {
      SameTurn(s, a, b, k);
    }
    StepByStep(a, b, n);
  }

  /** Where a chronicle goes on, the session was not over. */
  lemma GoesOn(s: Scenario, turns: seq<Turn>, n: nat, end: End)
    requires ValidScenario(s) && Chronicle(s, turns) && n < |turns|
    ensures |turns| <= |s.front| && !EndsWell(s, turns[..n], end)
  {
    TurnAt(s, turns, n);
    TurnAt(s, turns, |turns| - 1);
    if n > 0 {
      TurnAt(s, turns, n - 1);
    }
  }

  lemma NoLonger(s: Scenario, a: Log, turns: seq<Turn>)
    requires ValidScenario(s) && Over(s, a) && Chronicle(s, turns)
    ensures |turns| <= |a.turns|
  {
    var n := |a.turns|;
    if n < |turns| {
      SameTurns(s, a.turns, turns, n);
      assert a.turns[..n] == a.turns;
      GoesOn(s, turns, n, a.end);
    }
  }

  lemma SameEnding(s: Scenario, a: Log, b: Log)
    requires ValidScenario(s) && Transparent(s, a) && Transparent(s, b) && a.turns == b.turns
    requires EndsWell(s, a.turns, a.end) && EndsWell(s, b.turns, b.end)
    ensures a.end == b.end && a.toClient == b.toClient && a.toUpstream == b.toUpstream
  {
  }

  /** The predicate on finished sessions leaves no freedom: a scenario has exactly one log. */
  lemma LogIsDetermined(s: Scenario, a: Log, b: Log)
    requires ValidScenario(s) && Over(s, a) && Over(s, b)
    ensures a == b
  {
    NoLonger(s, a, b.turns);
    NoLonger(s, b, a.turns);
    SameTurns(s, a.turns, b.turns, |a.turns|);
    assert a.turns == a.turns[..|a.turns|] == b.turns;
    SameEnding(s, a, b);
  }

  /** Turn `j` opened a transaction that nothing up to turn `i` is evidence against. */
  ghost predicate OpenSince(turns: seq<Turn>, j: nat, i: nat) {
    j < i <= |turns| && Opens(turns[j]) && forall k :: j < k < i ==> !Closes(turns[k])
  }

  lemma OpenIsSince(turns: seq<Turn>, i: nat)
    requires i <= |turns|
    ensures Open(turns[..i]) <==> exists j: nat :: OpenSince(turns, j, i)
  {
    var before := turns[..i];
    assert forall k :: 0 <= k < i ==> before[k] == turns[k];
    if j: nat :| HeldFrom(before, j, Opens, Closes) {
      assert OpenSince(turns, j, i);
    }
    if j: nat :| OpenSince(turns, j, i) {
      assert HeldFrom(before, j, Opens, Closes);
    }
  }

  lemma DecisionCloses(s: Scenario, turns: seq<Turn>, k: nat)
    requires ValidScenario(s) && Chronicle(s, turns) && k < |turns| && turns[k].verdict.Some?
    ensures Closes(turns[k])
  {
    TurnAt(s, turns, k);
  }

  /**
   * Commit evidence: a decision is taken exactly when the upstream confirms a COMMIT while some earlier BEGIN is known
   * to be open; no turn in between is evidence against that transaction, and none of them was decided on.
   */
  lemma CommitEvidence(s: Scenario, turns: seq<Turn>, i: nat)
    requires ValidScenario(s) && Chronicle(s, turns) && i < |turns|
    ensures turns[i].verdict.Some? <==> Confirms(turns[i]) && exists j: nat :: OpenSince(turns, j, i)
    ensures forall j: nat :: OpenSince(turns, j, i) ==> forall k :: j < k < i ==> turns[k].verdict.None?
  {
    TurnAt(s, turns, i);
    OpenIsSince(turns, i);
    forall k | 0 <= k < i && turns[k].verdict.Some?
      ensures Closes(turns[k])
    {
      DecisionCloses(s, turns, k);
    }
  }

  function Decisions(turns: seq<Turn>): nat {
    if turns == [] then 0 else
      Decisions(turns[..|turns| - 1]) + if turns[|turns| - 1].verdict.Some? then 1 else 0
  }

  function Begins(turns: seq<Turn>): nat {
    if turns == [] then 0 else
      Begins(turns[..|turns| - 1]) + if Opens(turns[|turns| - 1]) then 1 else 0
  }

  /** Each decision uses up a BEGIN of its own; an open transaction is one not used yet. */
  lemma {:induction false} DecisionsBounded(s: Scenario, turns: seq<Turn>)
    requires ValidScenario(s) && Chronicle(s, turns)
    ensures Decisions(turns) + (if Open(turns) then 1 else 0) <= Begins(turns)
  {
    if turns == [] {
    } else {
      var before, t := turns[..|turns| - 1], turns[|turns| - 1];
      DecisionsBounded(s, before);
      HeldStep(before, t, Opens, Closes);
      assert before + [t] == turns;
    }
  }

  lemma {:induction false} StatementBound(s: Scenario, turns: seq<Turn>)
    requires ValidScenario(s) && Chronicle(s, turns)
    ensures |TableAfter(turns)| <= 128
  {
    if turns == [] {
    } else {
      var before, t := turns[..|turns| - 1], turns[|turns| - 1];
      StatementBound(s, before);
      NextTableBound(TableAfter(before), t);
    }
  }

  lemma NextTableBound(table: Table, t: Turn)
    requires |table| <= MAX_STATEMENTS && (t.answer.reply.Prepared? ==> |table| < MAX_STATEMENTS)
    ensures |NextTable(table, t)| <= MAX_STATEMENTS
  {
    match t.answer.reply {
      case Prepared(id) =>
        assert table[id := t.kind].Keys == table.Keys + {id};
      case Silent =>
        if |t.request.body| == 5 {
          Shrinks(table, FromLE(t.request.body[1..5]));
        }
      case _ =>
    }
  }

  lemma Shrinks(table: Table, id: nat)
    ensures |table - {id}| <= |table|
  {
    assert (table - {id}).Keys == table.Keys - {id};
    assert |table.Keys - {id}| <= |table.Keys|;
  }

  predicate Prepares(t: Turn, id: nat) {
    t.answer.reply == Prepared(id)
  }

  /** A turn after which what was known about statement `id` no longer holds. */
  predicate Drops(t: Turn, id: nat) {
    || Prepares(t, id)
    || (t.answer.reply.Silent? && |t.request.body| == 5 && FromLE(t.request.body[1..5]) == id)
    || (t.answer.reply.Acknowledged? && CommandIs(t, COM_RESET_CONNECTION))
  }

  ghost predicate KnownAs(turns: seq<Turn>, id: nat, kind: Statement) {
    Held(turns, (t: Turn) => Prepares(t, id) && t.kind == kind, (t: Turn) => Drops(t, id))
  }

  /**
   * A prepared statement has the kind of the last PREPARE that produced its id, unless it was closed or reset since.
   */
  lemma {:induction false} StatementHistory(turns: seq<Turn>, id: nat, kind: Statement)
    ensures id in TableAfter(turns) && TableAfter(turns)[id] == kind <==> KnownAs(turns, id, kind)
  {
    if turns == [] {
    } else {
      var before, t := turns[..|turns| - 1], turns[|turns| - 1];
      StatementHistory(before, id, kind);
      HeldStep(before, t, (t: Turn) => Prepares(t, id) && t.kind == kind, (t: Turn) => Drops(t, id));
      assert before + [t] == turns;
    }
  }

  /** Holding and closing always lose the acknowledgement; a delay loses it exactly when the context ends first. */
  lemma WhenLost(s: Scenario, turns: seq<Turn>, i: nat)
    requires ValidScenario(s) && Chronicle(s, turns) && i < |turns| && turns[i].verdict.Some?
    ensures var v := turns[i].verdict.value;
            turns[i].lost <==> v.selected && (v.fault.action.Delay? ==> !s.timers(i))
  {
    TurnAt(s, turns, i);
  }

  /** A lost acknowledgement is the upstream's OK, and the last thing the session handles. */
  lemma LostIsOk(s: Scenario, turns: seq<Turn>, i: nat)
    requires ValidScenario(s) && Chronicle(s, turns) && i < |turns| && turns[i].lost
    ensures var at := Consumed(turns[..i]);
            && i == |turns| - 1 && !turns[i].complete
            && at < |s.back| && turns[i].answer.reply.Acknowledged?
            && OkStatus(s.back[at].body) == Some(turns[i].answer.reply.status)
  {
    TurnAt(s, turns, i);
  }

  /** The client has everything before the lost acknowledgement and nothing from it on. */
  lemma LostAcknowledgement(s: Scenario, log: Log, i: nat)
    requires ValidScenario(s) && Over(s, log) && i < |log.turns| && log.turns[i].lost
    ensures i == |log.turns| - 1 && log.end == Aborted
    ensures Consumed(log.turns[..i]) < |s.back| && log.toClient == s.back[..Consumed(log.turns[..i])]
  {
    LostIsOk(s, log.turns, i);
  }

  /** The session's events are complete flows, one per turn. */
  lemma {:induction false} EventsAreFlows(s: Scenario, turns: seq<Turn>)
    requires ValidScenario(s) && Chronicle(s, turns)
    ensures PhaseAfter(Closed, Events(turns)) == Closed
  {
    if turns == [] {
    } else {
      var before, t := turns[..|turns| - 1], turns[|turns| - 1];
      EventsAreFlows(s, before);
      PhaseConcat(Closed, Events(before), TurnEvents(t));
      OneFlow(t.verdict, TurnOutcome(t));
    }
  }

  /**
   * Both directions are transparent: each peer has a prefix of what the other sent, and the client at most one local
   * error after it.
   */
  lemma Forwarding(s: Scenario, log: Log)
    requires ValidScenario(s) && Over(s, log)
    ensures log.toUpstream <= s.front
    ensures log.toClient <= s.back
            || (log.end == Rejected && log.toClient != [] && log.toClient[|log.toClient| - 1] == s.refusal
                && log.toClient[..|log.toClient| - 1] <= s.back)
  {
    var shown := Shown(log.turns, s.clientRoom);
    if log.end == Rejected && shown < s.clientRoom {
      assert log.toClient[..|log.toClient| - 1] == s.back[..shown];
    }
  }
}
