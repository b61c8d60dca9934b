/** The MySQL command loop: transaction tracking from upstream evidence, one fault decision per confirmed COMMIT. */
module MySqlSession {
  import opened Bytes
  import opened Net
  import opened Flow
  import opened History
  import opened MySqlWire
  import opened MySqlReply

  const MAX_STATEMENTS: nat := 128

  const COM_QUIT: Byte := 1
  const COM_INIT_DB: Byte := 2
  const COM_QUERY: Byte := 3
  const COM_PING: Byte := 0x0e
  const COM_STMT_PREPARE: Byte := 0x16
  const COM_STMT_EXECUTE: Byte := 0x17
  const COM_STMT_CLOSE: Byte := 0x19
  const COM_STMT_RESET: Byte := 0x1a
  const COM_RESET_CONNECTION: Byte := 0x1f

  datatype Statement = Ordinary | Begin | Commit | Rollback | Unsupported

  type Table = map<nat, Statement>

  /**
   * Everything outside the adapter's control: the classification of SQL text, the packets both peers send before the
   * session's context ends, the error packet it answers a refused command with, how many packets each connection takes
   * before a write fails, and for every command the verdict of the snapshot pinned when it arrived and whether a
   * fault's timer beats the context.
   */
  datatype Scenario = Scenario(
    classify: seq<Byte> -> Statement,
    front: seq<Packet>,
    back: seq<Packet>,
    refusal: Packet,
    modern: bool,
    clientRoom: nat,
    upstreamRoom: nat,
    verdicts: nat -> Verdict,
    timers: nat -> bool)

  ghost predicate ValidScenario(s: Scenario) {
    && AllInBound(s.front)
    && AllInBound(s.back)
    && forall i: nat :: ValidVerdict(s.verdicts(i))
  }

  datatype Admission = Leave | Reject | Run(kind: Statement)

  function Admit(classify: seq<Byte> -> Statement, p: Packet, table: Table): Admission
    requires InBound(p)
  {
    var command := p.body[0];
    if p.seqId != 0 then Reject
    else if command == COM_QUIT then Leave
    else if command == COM_QUERY || command == COM_STMT_PREPARE then
      var kind := classify(p.body[1..]);
      if kind == Unsupported || (command == COM_STMT_PREPARE && |table| >= MAX_STATEMENTS) then Reject else Run(kind)
    else if command == COM_STMT_EXECUTE then
      if |p.body| < 10 || p.body[5] != 0 || FromLE(p.body[6..10]) != 1 then Reject
      else if FromLE(p.body[1..5]) !in table then Reject
      else Run(table[FromLE(p.body[1..5])])
    else if command == COM_STMT_CLOSE || command == COM_STMT_RESET then
      if |p.body| != 5 then Reject else Run(Ordinary)
    else if command == COM_INIT_DB || command == COM_PING || command == COM_RESET_CONNECTION then Run(Ordinary)
    else Reject
  }

  /** What the upstream's answer to a command means; Unsent: the command itself could not be written. */
  datatype Reply =
    | Unsent
    | Broken
    | Silent
    | Refused
    | Prepared(id: nat)
    | Acknowledged(status: nat)
    | Rows(terminator: Option<nat>)

  /** `passed` counts the packets of the answer the client may see. */
  datatype Answer = Answer(passed: nat, reply: Reply)

  function ScanPrepared(first: Packet, known: set<nat>, input: seq<Packet>, modern: bool): (a: Answer)
    requires AllInBound(input) && input != []
    ensures a.passed <= |input|
  {
    if |first.body| != 12 || first.body[0] != 0 || FromLE(first.body[1..5]) in known then Answer(0, Broken) else
      var params := ScanDefinitions(input, 1, FromLE(first.body[7..9]), modern);
      if !params.ok then Answer(params.passed, Broken) else
        var columns := ScanDefinitions(input, params.passed, FromLE(first.body[5..7]), modern);
        Answer(columns.passed, if columns.ok then Prepared(FromLE(first.body[1..5])) else Broken)
  }

  function ScanAnswer(command: Byte, known: set<nat>, input: seq<Packet>, modern: bool): (a: Answer)
    requires AllInBound(input)
    ensures a.passed <= |input| && !a.reply.Unsent?
  {
    if command == COM_STMT_CLOSE then Answer(0, Silent)
    else if !Readable(input, 0) then Answer(0, Broken) else
      var first := input[0];
      if first.body[0] == 0xff then Answer(1, Refused)
      else if command == COM_STMT_PREPARE then ScanPrepared(first, known, input, modern)
      else if first.body[0] == 0xfb then Answer(0, Broken)
      else if first.body[0] == 0 then
        var status := OkStatus(first.body);
        if status.None? || Bit(status.value, 3) then Answer(0, Broken) else Answer(1, Acknowledged(status.value))
      else
        var rows := ScanResult(input, modern);
        Answer(rows.passed, if rows.ok then Rows(rows.status) else Broken)
  }

  /** One command cycle as the log shows it. */
  datatype Turn = Turn(request: Packet, kind: Statement, answer: Answer, verdict: Option<Verdict>, lost: bool,
                       complete: bool)

  predicate CommandIs(t: Turn, command: Byte) {
    t.request.body != [] && t.request.body[0] == command
  }

  /** The upstream accepted an explicit BEGIN and reports an open transaction. */
  predicate Opens(t: Turn) {
    t.kind == Begin && t.answer.reply.Acknowledged? && Bit(t.answer.reply.status, 0)
  }

  /**
   * Evidence against an open transaction: an error, a rollback, a reset, or an answer that ends with the in-transaction
   * bit clear.
   */
  predicate Closes(t: Turn) {
    match t.answer.reply
    case Refused => true
    case Acknowledged(status) => CommandIs(t, COM_RESET_CONNECTION) || t.kind == Rollback || !Bit(status, 0)
    case Rows(terminator) => terminator.None? || !Bit(terminator.value, 0)
    case _ => false
  }

  /** The upstream confirmed an explicit COMMIT. */
  predicate Confirms(t: Turn) {
    t.kind == Commit && t.answer.reply.Acknowledged? && !Bit(t.answer.reply.status, 0)
  }

  /** Some BEGIN opened a transaction and no later turn is evidence against it. */
  ghost predicate Open(turns: seq<Turn>) {
    Held(turns, Opens, Closes)
  }

  /** The prepared statements after a turn. */
  function NextTable(table: Table, t: Turn): Table {
    match t.answer.reply
    case Prepared(id) => table[id := t.kind]
    case Silent => if |t.request.body| == 5 then table - {FromLE(t.request.body[1..5])} else table
    case Acknowledged(_) => if CommandIs(t, COM_RESET_CONNECTION) then map[] else table
    case _ => table
  }

  function TableAfter(turns: seq<Turn>): Table {
    if turns == [] then map[] else NextTable(TableAfter(turns[..|turns| - 1]), turns[|turns| - 1])
  }

  /** Upstream packets that belong to the answers of these turns. */
  function Consumed(turns: seq<Turn>): nat {
    if turns == [] then 0 else Consumed(turns[..|turns| - 1]) + turns[|turns| - 1].answer.passed
  }

  /** Turn `t` is what the adapter must do with the next command after `turns`. */
  ghost predicate Lawful(s: Scenario, turns: seq<Turn>, t: Turn)
    requires ValidScenario(s)
  {
    var n := |turns|;
    && n < |s.front| && t.request == s.front[n]
    && Admit(s.classify, t.request, TableAfter(turns)) == Run(t.kind)
    && Consumed(turns) <= |s.back|
    && t.answer == (if n < s.upstreamRoom
                    then ScanAnswer(t.request.body[0], TableAfter(turns).Keys, s.back[Consumed(turns)..], s.modern)
                    else Answer(0, Unsent))
    && t.verdict == (if Confirms(t) && Open(turns) then Some(s.verdicts(n)) else None)
    && t.lost == (t.verdict.Some? && Loses(t.verdict.value, s.timers(n)))
    && t.complete == (!t.answer.reply.Unsent? && !t.answer.reply.Broken? && !t.lost
                      && Consumed(turns) + t.answer.passed <= s.clientRoom)
  }

  /** A log the adapter may produce: every turn lawful, and only the last one incomplete. */
  ghost predicate Chronicle(s: Scenario, turns: seq<Turn>)
    requires ValidScenario(s)
  {
    turns == [] ||
    var before := turns[..|turns| - 1];
    && Chronicle(s, before)
    && Lawful(s, before, turns[|turns| - 1])
    && (before != [] ==> before[|before| - 1].complete)
  }

  function TurnOutcome(t: Turn): Outcome {
    if t.lost then CommitAckLost
    else if t.answer.reply.Refused? then UpstreamError
    else if t.complete then Forwarded
    else ConnectionClosed
  }

  function TurnEvents(t: Turn): seq<Event> {
    FlowEvents(t.verdict, TurnOutcome(t))
  }

  function Events(turns: seq<Turn>): seq<Event> {
    if turns == [] then [] else Events(turns[..|turns| - 1]) + TurnEvents(turns[|turns| - 1])
  }

  /** Reads and forwards the answer to a PREPARE whose first packet was just read. */
  method Prepare(x: Cycle, first: Packet, known: set<nat>) returns (id: Option<nat>)
    requires x.Valid() && x.at == 1 && x.sent == 0 && first == x.input[0]
    modifies x`at, x`seqId, x`client, x`sent
    ensures x.Transparent()
    ensures var a := ScanPrepared(first, known, x.input, x.modern);
            && x.sent == x.Room(a.passed)
            && (id.Some? <==> a.reply.Prepared? && |x.before| + a.passed <= x.capacity)
            && (id.Some? ==> a.reply == Prepared(id.value))
  {
    if |first.body| != 12 || first.body[0] != 0 {
      return None;
    }
    var statement := FromLE(first.body[1..5]);
    if statement in known {
      return None;
    }
    var ok := x.Forward(first);
    if !ok {
      return None;
    }
    ok := x.Definitions(FromLE(first.body[7..9]));
    if !ok {
      return None;
    }
    ok := x.Definitions(FromLE(first.body[5..7]));
    return if ok then Some(statement) else None;
  }

  /** The fault decision a turn carries, and whether it loses the acknowledgement. */
  ghost predicate Judged(t: Turn, transaction: bool, verdict: Verdict, timerFirst: bool) {
    && t.verdict == (if Confirms(t) && transaction then Some(verdict) else None)
    && t.lost == (t.verdict.Some? && Loses(verdict, timerFirst))
  }

  /** What a complete turn leaves in the session's variables. */
  ghost predicate Settles(t: Turn, table: Table, table': Table, transaction: bool, transaction': bool) {
    t.complete ==> table' == NextTable(table, t) && transaction' == (Opens(t) || (transaction && !Closes(t)))
  }

  /**
   * Handles an OK packet just read: the transaction evidence it brings, and the fault decision when it confirms a
   * COMMIT.
   */
  method Acknowledge(before: Turn, table: Table, transaction: bool, x: Cycle, first: Packet, verdict: Verdict,
                     timerFirst: bool)
    returns (t: Turn, table': Table, transaction': bool, events: seq<Event>)
    requires x.Valid() && x.at == 1 && x.sent == 0 && first == x.input[0] && first.body[0] == 0
    requires before.request.body != [] && ValidVerdict(verdict)
    requires before.verdict == None && !before.lost && !before.complete
    requires before.answer == (
               var status := OkStatus(first.body);
               if status.None? || Bit(status.value, 3) then Answer(0, Broken)
                   else Answer(1, Acknowledged(status.value)))
    requires before.request.body[0] == COM_RESET_CONNECTION ==> before.kind == Ordinary
    modifies x`at, x`seqId, x`client, x`sent
    ensures x.Transparent()
    ensures t.request == before.request && t.kind == before.kind && t.answer == before.answer
    ensures Judged(t, transaction, verdict, timerFirst) && Settles(t, table, table', transaction, transaction')
    ensures t.complete == (!t.answer.reply.Broken? && !t.lost && |x.before| + t.answer.passed <= x.capacity)
    ensures x.sent == if t.lost then 0 else x.Room(t.answer.passed)
    ensures events == if t.verdict.Some? then AppliedEvents(verdict) else []
  {
    t, table', transaction', events := before, table, transaction, [];
    var status := OkStatus(first.body);
    if status.None? || Bit(status.value, 3) {
      return;
    }
    var confirmed := t.kind == Commit && transaction && !Bit(status.value, 0);
    if !Bit(status.value, 0) || t.kind == Rollback {
      transaction' := false;
    }
    if t.kind == Begin {
      transaction' := Bit(status.value, 0);
    }
    if t.request.body[0] == COM_RESET_CONNECTION {
      transaction', table' := false, map[];
    }
    if confirmed {
      t := t.(verdict := Some(verdict));
      events := [Decided(verdict.eligible, verdict.selected)];
      if verdict.selected {
        events := events + [Applied];
        var acknowledged := Apply(verdict.fault, timerFirst);
        if !acknowledged {
          t := t.(lost := true);
          return;
        }
      }
    }
    var ok := x.Forward(first);
    t := t.(complete := ok);
  }

  /** The answer that begins with the packet just read. */
  method Carry(before: Turn, table: Table, transaction: bool, x: Cycle, first: Packet, verdict: Verdict,
               timerFirst: bool)
    returns (t: Turn, table': Table, transaction': bool, events: seq<Event>)
    requires x.Valid() && x.at == 1 && x.sent == 0 && Readable(x.input, 0) && first == x.input[0]
    requires InBound(before.request) && ValidVerdict(verdict)
    requires before.verdict == None && !before.lost && !before.complete && before.request.body[0] != COM_STMT_CLOSE
    requires before.answer == ScanAnswer(before.request.body[0], table.Keys, x.input, x.modern)
    requires before.request.body[0] == COM_RESET_CONNECTION ==> before.kind == Ordinary
    modifies x`at, x`seqId, x`client, x`sent
    ensures x.Transparent()
    ensures t.request == before.request && t.kind == before.kind && t.answer == before.answer
    ensures Judged(t, transaction, verdict, timerFirst) && Settles(t, table, table', transaction, transaction')
    ensures t.complete == (!t.answer.reply.Broken? && !t.lost && |x.before| + t.answer.passed <= x.capacity)
    ensures x.sent == if t.lost then 0 else x.Room(t.answer.passed)
    ensures events == if t.verdict.Some? then AppliedEvents(verdict) else []
  {
    t, table', transaction', events := before, table, transaction, [];
    var ok;
    if first.body[0] == 0xff {
      transaction' := false;
      ok := x.Forward(first);
      t := t.(complete := ok);
      return;
    }
    if t.request.body[0] == COM_STMT_PREPARE {
      var id := Prepare(x, first, table.Keys);
      if id.Some? {
        table' := table[id.value := t.kind];
        t := t.(complete := true);
      }
      return;
    }
    if first.body[0] == 0xfb {
      return;
    }
    if first.body[0] == 0 {
      t, table', transaction', events := Acknowledge(t, table, transaction, x, first, verdict, timerFirst);
      return;
    }
    var status;
    status, ok := x.Result(first);
    t := t.(complete := ok);
    if status.None? || !Bit(status.value, 0) {
      transaction' := false;
    }
  }

  /** One command cycle after its request went upstream. */
  method Command(request: Packet, kind: Statement, table: Table, transaction: bool, x: Cycle, verdict: Verdict,
                 timerFirst: bool)
    returns (t: Turn, table': Table, transaction': bool, events: seq<Event>)
    requires x.Valid() && x.at == 0 && x.sent == 0
    requires InBound(request) && ValidVerdict(verdict)
    requires request.body[0] == COM_STMT_CLOSE ==> |request.body| == 5
    requires request.body[0] == COM_RESET_CONNECTION ==> kind == Ordinary
    modifies x`at, x`seqId, x`client, x`sent
    ensures x.Transparent()
    ensures t.request == request && t.kind == kind
    ensures t.answer == ScanAnswer(request.body[0], table.Keys, x.input, x.modern)
    ensures Judged(t, transaction, verdict, timerFirst) && Settles(t, table, table', transaction, transaction')
    ensures t.complete == (!t.answer.reply.Broken? && !t.lost && |x.before| + t.answer.passed <= x.capacity)
    ensures x.sent == if t.lost then 0 else x.Room(t.answer.passed)
    ensures events == if t.verdict.Some? then AppliedEvents(verdict) else []
  {
    table', transaction', events := table, transaction, [];
    t := Turn(request, kind, ScanAnswer(request.body[0], table.Keys, x.input, x.modern), None, false, false);
    if request.body[0] == COM_STMT_CLOSE {
      t := t.(complete := true);
      table' := table - {FromLE(request.body[1..5])};
      return;
    }
    var read := x.Read();
    if read.Some? {
      t, table', transaction', events := Carry(t, table, transaction, x, read.value, verdict, timerFirst);
    }
  }

  datatype End = Idle | Quit | Rejected | Aborted

  datatype Log = Log(turns: seq<Turn>, toClient: seq<Packet>, toUpstream: seq<Packet>, events: seq<Event>, end: End)

  /** How many upstream packets the client has after these turns. */
  function Shown(turns: seq<Turn>, room: nat): nat {
    if turns != [] && turns[|turns| - 1].lost then Consumed(turns[..|turns| - 1]) else Min(Consumed(turns), room)
  }

  ghost predicate Transparent(s: Scenario, log: Log)
    requires ValidScenario(s)
  {
    var shown := Shown(log.turns, s.clientRoom);
    && |log.turns| <= |s.front|
    && shown <= |s.back|
    && log.toUpstream == s.front[..Min(|log.turns|, s.upstreamRoom)]
    && log.toClient == s.back[..shown] + (if log.end == Rejected && shown < s.clientRoom then [s.refusal] else [])
  }

  /**
   * The session ends because of what the log says it met: an idle client, a quit, a refused packet, or its last turn.
   */
  ghost predicate EndsWell(s: Scenario, turns: seq<Turn>, end: End)
    requires ValidScenario(s) && |turns| <= |s.front|
  {
    var n := |turns|;
    if n > 0 && !turns[n - 1].complete then end == Aborted
    else if n == |s.front| then end == Idle
    else match Admit(s.classify, s.front[n], TableAfter(turns))
      case Leave => end == Quit
      case Reject => end == Rejected
      case Run(_) => false
  }

  lemma LastTurn(turns: seq<Turn>, t: Turn)
    ensures TableAfter(turns + [t]) == NextTable(TableAfter(turns), t)
    ensures Consumed(turns + [t]) == Consumed(turns) + t.answer.passed
    ensures Events(turns + [t]) == Events(turns) + TurnEvents(t)
    ensures (turns + [t])[..|turns|] == turns
  {
    assert (turns + [t])[..|turns|] == turns;
  }

  /** The session's variables say what these turns, all complete, have led to. */
  ghost predicate Tracks(s: Scenario, turns: seq<Turn>, table: Table, transaction: bool, toClient: seq<Packet>,
                         toUpstream: seq<Packet>) {
    var at := Consumed(turns);
    && table == TableAfter(turns)
    && (transaction <==> Open(turns))
    && at <= |s.back| && at <= s.clientRoom && toClient == s.back[..at]
    && |turns| <= |s.front| && |turns| <= s.upstreamRoom && toUpstream == s.front[..|turns|]
  }

  ghost predicate Agrees(s: Scenario, turns: seq<Turn>, table: Table, transaction: bool, toClient: seq<Packet>,
                         toUpstream: seq<Packet>)
    requires ValidScenario(s)
  {
    && Chronicle(s, turns)
    && (turns != [] ==> turns[|turns| - 1].complete)
    && Tracks(s, turns, table, transaction, toClient, toUpstream)
  }

  /** How many upstream packets the client has once turn `t` is over, complete or not. */
  ghost function ShownAfter(s: Scenario, turns: seq<Turn>, t: Turn): nat {
    if t.lost then Consumed(turns) else Min(Consumed(turns) + t.answer.passed, s.clientRoom)
  }

  lemma Prefixes<T>(b: seq<T>, a: nat, k: nat)
    requires a + k <= |b|
    ensures b[..a] + b[a..][..k] == b[..a + k]
  {
  }

  /** A command that reached the upstream: carries its answer back. */
  method Answered(s: Scenario, ghost turns: seq<Turn>, n: nat, kind: Statement, table: Table, transaction: bool,
                  toClient: seq<Packet>, ghost toUpstream: seq<Packet>)
    returns (t: Turn, table': Table, transaction': bool, toClient': seq<Packet>, applied: seq<Event>)
    requires ValidScenario(s) && Tracks(s, turns, table, transaction, toClient, toUpstream)
    requires n == |turns| < |s.front| && n < s.upstreamRoom && Admit(s.classify, s.front[n], table) == Run(kind)
    ensures Lawful(s, turns, t)
    ensures ShownAfter(s, turns, t) <= |s.back| && toClient' == s.back[..ShownAfter(s, turns, t)]
    ensures t.complete ==> table' == NextTable(table, t)
    ensures t.complete ==> (transaction' <==> Opens(t) || (Open(turns) && !Closes(t)))
    ensures applied == if t.verdict.Some? then AppliedEvents(t.verdict.value) else []
  {
    var x := new Cycle(s.back[|toClient|..], s.modern, toClient, s.clientRoom);
    t, table', transaction', applied := Command(s.front[n], kind, table, transaction, x, s.verdicts(n), s.timers(n));
    toClient' := x.client;
    Prefixes(s.back, |toClient|, x.sent);
  }

  lemma UnsentIsLawful(s: Scenario, turns: seq<Turn>, kind: Statement)
    requires ValidScenario(s) && |turns| < |s.front| && |turns| >= s.upstreamRoom
    requires Consumed(turns) <= |s.back| && Consumed(turns) <= s.clientRoom
    requires Admit(s.classify, s.front[|turns|], TableAfter(turns)) == Run(kind)
    ensures var t := Turn(s.front[|turns|], kind, Answer(0, Unsent), None, false, false);
            Lawful(s, turns, t) && ShownAfter(s, turns, t) == Consumed(turns)
  {
  }

  /** An admitted command: write it upstream, then carry its answer back. */
  method Attempt(s: Scenario, ghost turns: seq<Turn>, n: nat, kind: Statement, table: Table, transaction: bool,
                 toClient: seq<Packet>, toUpstream: seq<Packet>)
    returns (t: Turn, table': Table, transaction': bool, toClient': seq<Packet>, toUpstream': seq<Packet>,
             applied: seq<Event>)
    requires ValidScenario(s) && Tracks(s, turns, table, transaction, toClient, toUpstream)
    requires n == |turns| < |s.front| && Admit(s.classify, s.front[n], table) == Run(kind)
    ensures Lawful(s, turns, t)
    ensures ShownAfter(s, turns, t) <= |s.back| && toClient' == s.back[..ShownAfter(s, turns, t)]
    ensures toUpstream' == s.front[..Min(n + 1, s.upstreamRoom)]
    ensures t.complete ==> table' == NextTable(table, t)
    ensures t.complete ==> (transaction' <==> Opens(t) || (Open(turns) && !Closes(t)))
    ensures applied == if t.verdict.Some? then AppliedEvents(t.verdict.value) else []
  {
    table', transaction', toClient', toUpstream', applied := table, transaction, toClient, toUpstream, [];
    if n == s.upstreamRoom {
      t := Turn(s.front[n], kind, Answer(0, Unsent), None, false, false);
      UnsentIsLawful(s, turns, kind);
    } else {
      toUpstream' := toUpstream + [s.front[n]];
      t, table', transaction', toClient', applied :=
        Answered(s, turns, n, kind, table, transaction, toClient, toUpstream);
    }
  }

  lemma Extend(s: Scenario, turns: seq<Turn>, t: Turn)
    requires ValidScenario(s) && Chronicle(s, turns) && Lawful(s, turns, t)
    requires turns != [] ==> turns[|turns| - 1].complete
    ensures Chronicle(s, turns + [t])
  {
    assert (turns + [t])[..|turns|] == turns;
  }

  /**
   * A finished session: a chronicle of lawful turns, both connections transparent, the right end and the right events.
   */
  ghost predicate Over(s: Scenario, log: Log)
    requires ValidScenario(s)
  {
    && Chronicle(s, log.turns)
    && Transparent(s, log)
    && EndsWell(s, log.turns, log.end)
    && log.events == Events(log.turns)
  }

  /** The log after a turn: the loop's agreement again, or the end of the session. */
  lemma AfterTurn(s: Scenario, turns: seq<Turn>, t: Turn, events: seq<Event>, toClient: seq<Packet>,
                  toUpstream: seq<Packet>)
    requires ValidScenario(s) && Chronicle(s, turns) && Lawful(s, turns, t)
    requires turns != [] ==> turns[|turns| - 1].complete
    requires |turns| <= s.upstreamRoom && ShownAfter(s, turns, t) <= |s.back|
    requires toClient == s.back[..ShownAfter(s, turns, t)]
    requires toUpstream == s.front[..Min(|turns| + 1, s.upstreamRoom)]
    ensures Chronicle(s, turns + [t])
    ensures t.complete ==>
            Agrees(s, turns + [t], NextTable(TableAfter(turns), t), Open(turns + [t]), toClient, toUpstream)
    ensures !t.complete ==>
              var log := Log(turns + [t], toClient, toUpstream, events, Aborted);
              Transparent(s, log) && EndsWell(s, log.turns, log.end)
  {
    LastTurn(turns, t);
    Extend(s, turns, t);
  }

  /** The log when the session ends between turns. */
  lemma BetweenTurns(s: Scenario, log: Log, table: Table, transaction: bool, toClient: seq<Packet>)
    requires ValidScenario(s) && Agrees(s, log.turns, table, transaction, toClient, log.toUpstream)
    requires log.end != Aborted && EndsWell(s, log.turns, log.end) && log.events == Events(log.turns)
    requires log.toClient == toClient + if log.end == Rejected && |toClient| < s.clientRoom then [s.refusal] else []
    ensures Over(s, log)
  {
  }

  /** One iteration of the loop for an admitted command. */
  method Serve(s: Scenario, turns: seq<Turn>, kind: Statement, table: Table, transaction: bool,
               toClient: seq<Packet>, toUpstream: seq<Packet>, events: seq<Event>)
    returns (turns': seq<Turn>, table': Table, transaction': bool,
             toClient': seq<Packet>, toUpstream': seq<Packet>, events': seq<Event>, ok: bool)
    requires ValidScenario(s) && Agrees(s, turns, table, transaction, toClient, toUpstream)
    requires |turns| < |s.front| && Admit(s.classify, s.front[|turns|], table) == Run(kind)
    requires events == Events(turns)
    ensures |turns'| == |turns| + 1 && events' == Events(turns')
    ensures Chronicle(s, turns')
    ensures ok ==> Agrees(s, turns', table', transaction', toClient', toUpstream')
    ensures !ok ==> Over(s, Log(turns', toClient', toUpstream', events', Aborted))
  {
    var t, applied;
    t, table', transaction', toClient', toUpstream', applied :=
      Attempt(s, turns, |turns|, kind, table, transaction, toClient, toUpstream);
    LastTurn(turns, t);
    HeldStep(turns, t, Opens, Closes);
    turns' := turns + [t];
    events' := events + ([Started] + applied + [Finished(t.verdict.Some? && t.verdict.value.selected, TurnOutcome(t))]);
    AfterTurn(s, turns, t, events', toClient', toUpstream');
    ok := t.complete;
  }

  /** The whole session; its log is determined by the scenario. */
  method Exchange(s: Scenario) returns (log: Log)
    requires ValidScenario(s)
    ensures Over(s, log)
  {
    log := Log([], [], [], [], Idle);
    var table: Table, transaction := map[], false;
    while |log.turns| < |s.front|
      invariant log.end == Idle && log.events == Events(log.turns)
      invariant Agrees(s, log.turns, table, transaction, log.toClient, log.toUpstream)
      decreases |s.front| - |log.turns|
    {
      match Admit(s.classify, s.front[|log.turns|], table)
      case Leave =>
        ghost var toClient := log.toClient;
        log := log.(end := Quit);
        BetweenTurns(s, log, table, transaction, toClient);
        return;
      case Reject =>
        ghost var before := log.toClient;
        log := log.(end := Rejected);
        if |log.toClient| < s.clientRoom {
          log := log.(toClient := log.toClient + [s.refusal]);
        }
        BetweenTurns(s, log, table, transaction, before);
        return;
      case Run(kind) =>
        var turns, toClient, toUpstream, events, ok;
        turns, table, transaction, toClient, toUpstream, events, ok :=
          Serve(s, log.turns, kind, table, transaction, log.toClient, log.toUpstream, log.events);
        log := Log(turns, toClient, toUpstream, events, if ok then Idle else Aborted);
        if !ok {
          return;
        }
    }
    BetweenTurns(s, log, table, transaction, log.toClient);
  }
}
