/**
 * What each client command means to a session, what is refused, and what is recorded, read off the bytes on the wire.
 */
module MySqlCommands {
  import opened Bytes
  import opened Flow
  import opened History
  import opened MySqlWire
  import opened MySqlReply
  import opened MySqlResultSet
  import opened MySqlSession
  import opened MySqlSafety

  /** Statement `id` was prepared and neither closed nor reset since. */
  ghost predicate InForce(turns: seq<Turn>, id: nat) {
    exists kind :: KnownAs(turns, id, kind)
  }

  /** The packet is refused after these turns. */
  ghost predicate Refused(s: Scenario, turns: seq<Turn>, p: Packet)
    requires InBound(p)
  {
    var b := p.body;
    || p.seqId != 0
    || if b[0] == 3 then s.classify(b[1..]) == Unsupported
       else if b[0] == 0x16 then s.classify(b[1..]) == Unsupported || |TableAfter(turns)| >= 128
       else if b[0] == 0x17 then
         |b| < 10 || b[5] != 0 || FromLE(b[6..10]) != 1 || !InForce(turns, FromLE(b[1..5]))
       else if b[0] == 0x19 || b[0] == 0x1a then |b| != 5
       else b[0] != 1 && b[0] != 2 && b[0] != 0x0e && b[0] != 0x1f
  }

  /** The client asks to leave. */
  predicate Quits(p: Packet) {
    p.seqId == 0 && p.body != [] && p.body[0] == 1
  }

  lemma {:induction false} KnownIsInForce(turns: seq<Turn>, id: nat)
    ensures id in TableAfter(turns) <==> InForce(turns, id)
  {
    if id in TableAfter(turns) {
      StatementHistory(turns, id, TableAfter(turns)[id]);
    }
    forall kind | KnownAs(turns, id, kind)
      ensures id in TableAfter(turns)
    {
      StatementHistory(turns, id, kind);
    }
  }

  lemma {:induction false} RefusedExactly(s: Scenario, turns: seq<Turn>, p: Packet)
    requires InBound(p)
    ensures Admit(s.classify, p, TableAfter(turns)) == Reject <==> Refused(s, turns, p)
    ensures Admit(s.classify, p, TableAfter(turns)) == Leave <==> Quits(p)
  {
    if |p.body| >= 10 {
      KnownIsInForce(turns, FromLE(p.body[1..5]));
    }
  }

  /**
   * What a turn is about: a query or PREPARE has the kind of its own text, an EXECUTE the kind its statement was
   * prepared with, and nothing else can begin, commit or roll back.  No refused packet becomes a turn.
   */
  lemma {:induction false} KindOfTurn(s: Scenario, turns: seq<Turn>, i: nat)
    requires ValidScenario(s) && Chronicle(s, turns) && i < |turns|
    ensures var t, b := turns[i], turns[i].request.body;
            && i < |s.front| && t.request == s.front[i] && b != []
            && !Refused(s, turns[..i], t.request) && !Quits(t.request)
            && (b[0] == 3 || b[0] == 0x16 ==> t.kind == s.classify(b[1..]))
            && (b[0] == 0x17 ==> |b| >= 10 && KnownAs(turns[..i], FromLE(b[1..5]), t.kind))
            && (b[0] != 3 && b[0] != 0x16 && b[0] != 0x17 ==> t.kind == Ordinary)
  {
    TurnAt(s, turns, i);
    RefusedExactly(s, turns[..i], turns[i].request);
    if turns[i].request.body[0] == 0x17 {
      StatementHistory(turns[..i], FromLE(turns[i].request.body[1..5]), turns[i].kind);
    }
  }

  /** How a session ends, from its turns and the next packet. */
  lemma {:induction false} SessionEnds(s: Scenario, log: Log)
    requires ValidScenario(s) && Over(s, log)
    ensures var n := |log.turns|;
            var going := n == 0 || log.turns[n - 1].complete;
            && n <= |s.front|
            && (log.end == Aborted <==> !going)
            && (log.end == Idle <==> going && n == |s.front|)
            && (log.end == Quit <==> going && n < |s.front| && Quits(s.front[n]))
            && (log.end == Rejected <==> going && n < |s.front| && Refused(s, log.turns, s.front[n]))
  {
    if |log.turns| < |s.front| {
      RefusedExactly(s, log.turns, s.front[|log.turns|]);
    }
  }

  /**
   * The evidence, spelt out.  For a transaction: a BEGIN acknowledged with an odd status.  Against it: an error; an
   * acknowledged rollback or reset; an acknowledgement with an even status; rows that end with an error or an even one.
   */
  lemma {:induction false} EvidenceMeans(t: Turn)
    ensures Opens(t) <==> t.kind == Begin && t.answer.reply.Acknowledged? && t.answer.reply.status % 2 == 1
    ensures Confirms(t) <==> t.kind == Commit && t.answer.reply.Acknowledged? && t.answer.reply.status % 2 == 0
    ensures Closes(t) <==>
            || t.answer.reply == MySqlSession.Refused
            || (t.answer.reply.Acknowledged?
                && (t.kind == Rollback || (t.request.body != [] && t.request.body[0] == 0x1f)
                    || t.answer.reply.status % 2 == 0))
            || (t.answer.reply.Rows?
                && (t.answer.reply.terminator.None? || t.answer.reply.terminator.value % 2 == 0))
  {
  }

  /** The upstream's answer to turn `i` starts here. */
  ghost function AnswerStart(turns: seq<Turn>, i: nat): nat
    requires i < |turns|
  {
    Consumed(turns[..i])
  }

  /** The first packet of the answer is present, numbered 1, and an OK packet with this status. */
  ghost predicate OkAt(s: Scenario, at: nat, status: nat) {
    at < |s.back| && s.back[at].seqId == 1 && s.back[at].body != [] && s.back[at].body[0] == 0
    && OkStatus(s.back[at].body) == Some(status)
  }

  /** What the first packet of an answer tells. */
  lemma {:induction false} FirstPacket(command: Byte, known: set<nat>, input: seq<Packet>, modern: bool)
    requires AllInBound(input)
    ensures var reply := ScanAnswer(command, known, input, modern).reply;
            && (reply.Acknowledged? ==>
                  input != [] && input[0].seqId == 1 && input[0].body[0] == 0
                  && OkStatus(input[0].body) == Some(reply.status) && !Bit(reply.status, 3))
            && (reply == MySqlSession.Refused <==>
                command != 0x19 && input != [] && input[0].seqId == 1 && input[0].body[0] == 0xff)
  {
  }

  /** The answer of a turn, from the packets left on the upstream connection. */
  lemma {:induction false} AnswerOf(s: Scenario, turns: seq<Turn>, i: nat)
    requires ValidScenario(s) && Chronicle(s, turns) && i < |turns|
    ensures var t, at := turns[i], AnswerStart(turns, i);
            && at <= |s.back| && t.request.body != [] && AllInBound(s.back[at..])
            && t.answer == if i < s.upstreamRoom
                           then ScanAnswer(t.request.body[0], TableAfter(turns[..i]).Keys, s.back[at..], s.modern)
                           else Answer(0, Unsent)
  {
    TurnAt(s, turns, i);
  }

  lemma {:induction false} AcknowledgedOnWire(s: Scenario, turns: seq<Turn>, i: nat)
    requires ValidScenario(s) && Chronicle(s, turns) && i < |turns| && turns[i].answer.reply.Acknowledged?
    ensures OkAt(s, AnswerStart(turns, i), turns[i].answer.reply.status)
    ensures (turns[i].answer.reply.status / 8) % 2 == 0
  {
    AnswerOf(s, turns, i);
    FirstPacket(turns[i].request.body[0], TableAfter(turns[..i]).Keys, s.back[AnswerStart(turns, i)..], s.modern);
    BitThree(turns[i].answer.reply.status);
  }

  /**
   * Commit evidence on the wire: a decided turn is a COMMIT answered by an OK whose status word is even, and an earlier
   * turn is a BEGIN answered by an OK whose status word is odd.
   */
  lemma {:induction false} EvidenceOnWire(s: Scenario, turns: seq<Turn>, i: nat)
    requires ValidScenario(s) && Chronicle(s, turns) && i < |turns| && turns[i].verdict.Some?
    ensures turns[i].kind == Commit
    ensures exists status :: OkAt(s, AnswerStart(turns, i), status) && status % 2 == 0
    ensures exists j: nat, status: nat ::
              j < i && turns[j].kind == Begin && OkAt(s, AnswerStart(turns, j), status) && status % 2 == 1
  {
    CommitEvidence(s, turns, i);
    AcknowledgedOnWire(s, turns, i);
    var j: nat :| OpenSince(turns, j, i);
    AcknowledgedOnWire(s, turns, j);
    var status := turns[j].answer.reply.status;
    assert j < i && turns[j].kind == Begin && OkAt(s, AnswerStart(turns, j), status) && status % 2 == 1;
  }

  /** An error answer is a first packet that is present, numbered 1, and starts with 0xff. */
  lemma {:induction false} ErrorOnWire(s: Scenario, turns: seq<Turn>, i: nat)
    requires ValidScenario(s) && Chronicle(s, turns) && i < |turns|
    ensures var at := AnswerStart(turns, i);
            turns[i].answer.reply == MySqlSession.Refused <==>
              i < s.upstreamRoom && turns[i].request.body != [] && turns[i].request.body[0] != 0x19
              && at < |s.back| && s.back[at].seqId == 1 && s.back[at].body[0] == 0xff
  {
    AnswerOf(s, turns, i);
    FirstPacket(turns[i].request.body[0], TableAfter(turns[..i]).Keys, s.back[AnswerStart(turns, i)..], s.modern);
  }

  /** What a turn records: event by event, with the outcome its answer asks for. */
  lemma {:induction false} TurnRecords(s: Scenario, turns: seq<Turn>, i: nat)
    requires ValidScenario(s) && Chronicle(s, turns) && i < |turns|
    ensures var t, events := turns[i], TurnEvents(turns[i]);
            && events != [] && events[|events| - 1].Finished?
            && (t.verdict.None? ==> events == [Started, events[|events| - 1]] && !events[|events| - 1].applied)
            && (t.verdict.Some? && !t.verdict.value.selected ==>
                  events == [Started, Decided(t.verdict.value.eligible, false), events[|events| - 1]]
                  && !events[|events| - 1].applied)
            && (t.verdict.Some? && t.verdict.value.selected ==>
                  events == [Started, Decided(true, true), Applied, events[|events| - 1]]
                  && events[|events| - 1].applied)
    ensures var t, outcome := turns[i], TurnEvents(turns[i])[|TurnEvents(turns[i])| - 1].outcome;
            && (outcome == CommitAckLost <==> t.lost)
            && (outcome == UpstreamError <==> t.answer.reply == MySqlSession.Refused)
            && (outcome == Forwarded <==> t.complete && t.answer.reply != MySqlSession.Refused)
            && (outcome == ConnectionClosed <==>
                !t.complete && !t.lost && t.answer.reply != MySqlSession.Refused)
  {
    TurnAt(s, turns, i);
  }

  /** Commands answered with an OK, an error or rows. */
  predicate Plainly(command: Byte) {
    command != 0x16 && command != 0x19
  }

  /** Answers the adapter breaks off: out of sequence, more results announced, a request for a local file. */
  lemma {:induction false} BrokenStarts(command: Byte, known: set<nat>, input: seq<Packet>, modern: bool)
    requires AllInBound(input) && command != 0x19
    ensures input == [] || input[0].seqId != 1 ==> ScanAnswer(command, known, input, modern) == Answer(0, Broken)
    ensures input != [] && Plainly(command) && input[0].body[0] == 0xfb ==>
              ScanAnswer(command, known, input, modern) == Answer(0, Broken)
    ensures forall status :: input != [] && Plainly(command) && input[0].body[0] == 0
                             && OkStatus(input[0].body) == Some(status) && (status / 8) % 2 == 1 ==>
              ScanAnswer(command, known, input, modern) == Answer(0, Broken)
    ensures input != [] && Plainly(command) && input[0].body[0] == 0 && OkStatus(input[0].body) == None ==>
              ScanAnswer(command, known, input, modern) == Answer(0, Broken)
  {
    forall status: nat
      ensures Bit(status, 3) <==> (status / 8) % 2 == 1
    {
      BitThree(status);
    }
  }

  /** A PREPARE answer of another length or kind, or with an id in use, is broken off at once. */
  lemma {:induction false} BrokenPrepare(known: set<nat>, input: seq<Packet>, modern: bool)
    requires AllInBound(input) && input != [] && input[0].body[0] != 0xff
    requires |input[0].body| != 12 || input[0].body[0] != 0 || FromLE(input[0].body[1..5]) in known
    ensures ScanAnswer(0x16, known, input, modern) == Answer(0, Broken)
  {
  }

  /** An error packet or one out of sequence among definitions breaks the answer off there. */
  lemma {:induction false} BrokenDefinitions(input: seq<Packet>, at: nat, n: nat, left: nat, eof: bool)
    requires AllInBound(input) && Plain(input, at, n, 0xff) && n < left
    requires at + n == |input| || input[at + n].seqId != (at + n + 1) % 256 || input[at + n].body[0] == 0xff
    ensures ScanColumns(input, at, left, eof) == Scan(at + n, false)
    decreases n
  {
    if n == 0 {
    } else {
      assert Readable(input, at);
      BrokenDefinitions(input, at + 1, n - 1, left - 1, eof);
    }
  }

  /** Definitions the legacy protocol does not close with an EOF packet break the answer off there. */
  lemma {:induction false} UnclosedDefinitions(input: seq<Packet>, at: nat, n: nat)
    requires AllInBound(input) && Plain(input, at, n, 0xff)
    requires at + n == |input| || input[at + n].seqId != (at + n + 1) % 256
             || input[at + n].body[0] != 0xfe || |input[at + n].body| != 5
    ensures ScanColumns(input, at, n, true) == Scan(at + n, false)
  {
    ScanColumnsStep(input, at, n, true);
  }

  lemma {:induction false} BitThree(status: nat)
    ensures Bit(status, 3) <==> (status / 8) % 2 == 1
  {
    assert status / 2 / 2 / 2 == status / 8;
    assert Bit(status, 3) == Bit(status / 2, 2) == Bit(status / 2 / 2, 1) == Bit(status / 2 / 2 / 2, 0);
  }

  /** Rows whose terminator announces more results: all of them go to the client, the terminator does not. */
  lemma {:induction false} MoreRows(input: seq<Packet>, modern: bool, count: seq<Byte>, columns: seq<seq<Byte>>,
                                    middle: seq<seq<Byte>>, rows: seq<seq<Byte>>, ending: seq<Byte>, status: nat)
    requires AllInBound(input) && Carries(input, Assemble(count, columns, middle, rows, ending))
    requires 1 <= |columns| <= 4096 && LenEnc(count) == Some(LenEncInt(|columns|, |count|))
    requires forall i :: 0 <= i < |columns| ==> columns[i] != [] && columns[i][0] < 0xff
    requires if modern then middle == [] else |middle| == 1 && EofStatus(middle[0], false).Some?
    requires forall i :: 0 <= i < |rows| ==> rows[i] != [] && rows[i][0] < 0xfe
    requires EofStatus(ending, modern) == Some(status) && (status / 8) % 2 == 1
    ensures ScanResult(input, modern) == RowScan(1 + |columns| + |middle| + |rows|, false, None)
  {
    ScanAssembled(input, modern, count, columns, middle, rows, ending);
    BitThree(status);
  }

  /** A result set with no columns or more than 4096 is broken off before anything of it reaches the client. */
  lemma {:induction false} ColumnLimit(columns: nat, input: seq<Packet>, modern: bool)
    requires columns < 0x1_0000_0000_0000_0000 && AllInBound(input) && input != [] && input[0].body == ToLenEnc(columns)
    ensures columns == 0 || columns > 4096 ==> ScanResult(input, modern) == RowScan(0, false, None)
  {
    LenEncInverse(columns, []);
    assert ToLenEnc(columns) + [] == ToLenEnc(columns);
  }

  /** A packet out of sequence among rows breaks the answer off there. */
  lemma {:induction false} RowOutOfSequence(input: seq<Packet>, at: nat, n: nat, modern: bool)
    requires AllInBound(input) && Plain(input, at, n, 0xfe)
    requires at + n == |input| || input[at + n].seqId != (at + n + 1) % 256
    ensures ScanRows(input, at, modern) == RowScan(at + n, false, None)
  {
    ScanRowsStep(input, at, n, modern);
  }
}
