/** An upstream that answers every command well, and what its client then sees of a whole session. */
module MySqlAnswers {
  import opened Bytes
  import opened Flow
  import opened MySqlWire
  import opened MySqlReply
  import opened MySqlResultSet
  import opened MySqlPrepare
  import opened MySqlSession
  import opened MySqlSafety

  /** What a server sends for one command; nothing for COM_STMT_CLOSE. */
  datatype Response =
    | Nothing
    | Fine(affected: nat, insertId: nat, status: nat, warnings: nat, info: seq<Byte>)
    | Failure(payload: seq<Byte>)
    | Table(result: ResultSet)
    | Handle(statement: PreparedStatement)

  ghost predicate WellSent(r: Response) {
    match r
    case Nothing => true
    case Fine(affected, insertId, status, _, _) =>
      affected < 0x1_0000_0000_0000_0000 && insertId < 0x1_0000_0000_0000_0000 && status < 0x1_0000 && !Bit(status, 3)
    case Failure(_) => true
    case Table(result) => WellFormed(result)
    case Handle(statement) => WellPrepared(statement)
  }

  ghost function ResponseBodies(r: Response, modern: bool): (b: seq<seq<Byte>>)
    requires WellSent(r)
  {
    match r
    case Nothing => []
    case Fine(affected, insertId, status, warnings, info) => [OkBody(0, affected, insertId, status, warnings, info)]
    case Failure(payload) => [[0xff] + payload]
    case Table(result) => Bodies(result, modern)
    case Handle(statement) => PreparedBodies(statement, modern)
  }

  /** The response suits the command, given the statement ids in use. */
  ghost predicate Suits(r: Response, command: Byte, used: set<nat>) {
    if command == COM_STMT_CLOSE then r.Nothing?
    else if command == COM_STMT_PREPARE then r.Failure? || (r.Handle? && r.statement.id !in used)
    else r.Fine? || r.Failure? || r.Table?
  }

  ghost function ReplyOf(r: Response): Reply {
    match r
    case Nothing => Silent
    case Fine(_, _, status, _, _) => Acknowledged(status)
    case Failure(_) => Refused
    case Table(result) => Rows(EndingStatus(result.ending))
    case Handle(statement) => Prepared(statement.id)
  }

  lemma {:induction false} ScanFine(r: Response, command: Byte, used: set<nat>, input: seq<Packet>, modern: bool)
    requires WellSent(r) && r.Fine? && command != COM_STMT_CLOSE && command != COM_STMT_PREPARE
    requires AllInBound(input) && Carries(input, ResponseBodies(r, modern))
    ensures ScanAnswer(command, used, input, modern) == Answer(1, ReplyOf(r))
  {
    OkStatusInverse(0, r.affected, r.insertId, r.status, r.warnings, r.info);
    assert input[0] == Packet(1 % 256, ResponseBodies(r, modern)[0]);
  }

  lemma {:induction false} ScanFailure(r: Response, command: Byte, used: set<nat>, input: seq<Packet>, modern: bool)
    requires r.Failure? && command != COM_STMT_CLOSE
    requires AllInBound(input) && Carries(input, ResponseBodies(r, modern))
    ensures ScanAnswer(command, used, input, modern) == Answer(1, Refused)
  {
    assert input[0] == Packet(1 % 256, ResponseBodies(r, modern)[0]);
  }

  lemma {:induction false} ScanTable(result: ResultSet, command: Byte, used: set<nat>, input: seq<Packet>, modern: bool)
    requires WellFormed(result) && command != COM_STMT_CLOSE && command != COM_STMT_PREPARE
    requires AllInBound(input) && Carries(input, Bodies(result, modern))
    ensures ScanAnswer(command, used, input, modern)
            == Answer(|Bodies(result, modern)|, Rows(EndingStatus(result.ending)))
  {
    ResultBoundary(result, modern, input);
    CountStart(|result.columns|);
    assert Bodies(result, modern)[0] == ToLenEnc(|result.columns|);
    assert input[0] == Packet(1 % 256, ToLenEnc(|result.columns|));
  }

  lemma CountStart(n: nat)
    requires 1 <= n <= 4096
    ensures ToLenEnc(n) != [] && ToLenEnc(n)[0] !in {0, 0xfb, 0xff}
  {
  }

  /** Every response that suits its command is read exactly to its end and means what it says. */
  lemma {:induction false} ScanResponse(r: Response, command: Byte, used: set<nat>, input: seq<Packet>, modern: bool)
    requires WellSent(r) && Suits(r, command, used) && AllInBound(input) && Carries(input, ResponseBodies(r, modern))
    ensures ScanAnswer(command, used, input, modern) == Answer(|ResponseBodies(r, modern)|, ReplyOf(r))
  {
    match r {
      case Nothing =>
      case Fine(_, _, _, _, _) => ScanFine(r, command, used, input, modern);
      case Failure(_) => ScanFailure(r, command, used, input, modern);
      case Table(result) => ScanTable(result, command, used, input, modern);
      case Handle(statement) => PreparedBoundary(statement, modern, input, used);
    }
  }

  ghost function Numbered(bodies: seq<seq<Byte>>): (ps: seq<Packet>)
    ensures |ps| == |bodies| && forall i :: 0 <= i < |bodies| ==> ps[i] == Packet((i + 1) % 256, bodies[i])
  {
    seq(|bodies|, i requires 0 <= i < |bodies| => Packet((i + 1) % 256, bodies[i]))
  }

  ghost predicate AllWellSent(rs: seq<Response>) {
    forall i :: 0 <= i < |rs| ==> WellSent(rs[i])
  }

  /** The responses on the wire, one after the other. */
  ghost function Stream(rs: seq<Response>, modern: bool): seq<Packet>
    requires AllWellSent(rs)
  {
    if rs == [] then [] else
      Stream(rs[..|rs| - 1], modern) + Numbered(ResponseBodies(rs[|rs| - 1], modern))
  }

  lemma {:induction false} StreamAt(rs: seq<Response>, modern: bool, n: nat)
    requires AllWellSent(rs) && n < |rs|
    ensures var at := |Stream(rs[..n], modern)|;
            && Stream(rs[..n + 1], modern) == Stream(rs[..n], modern) + Numbered(ResponseBodies(rs[n], modern))
            && Stream(rs[..n + 1], modern) <= Stream(rs, modern)
  {
    assert rs[..n + 1][..n] == rs[..n];
    if n + 1 == |rs| {
      assert rs[..n + 1] == rs;
    } else {
      var before := rs[..|rs| - 1];
      StreamAt(before, modern, n);
      assert before[..n + 1] == rs[..n + 1] && before[..n] == rs[..n];
    }
  }

  /** The statement ids in use after `n` commands, as the commands and their responses tell. */
  ghost function InUse(front: seq<Packet>, rs: seq<Response>, n: nat): set<nat>
    requires AllInBound(front) && n <= |front| && n <= |rs|
  {
    if n == 0 then {} else
      var used, p := InUse(front, rs, n - 1), front[n - 1];
      match rs[n - 1]
      case Handle(statement) => used + {statement.id}
      case Nothing => if |p.body| == 5 then used - {FromLE(p.body[1..5])} else used
      case Fine(_, _, _, _, _) => if p.body[0] == COM_RESET_CONNECTION then {} else used
      case _ => used
  }

  /** The upstream answers every command of the client with a response that suits it, and sends nothing else. */
  ghost predicate Answers(s: Scenario, rs: seq<Response>)
    requires ValidScenario(s)
  {
    && |rs| == |s.front| && AllWellSent(rs) && s.back == Stream(rs, s.modern)
    && forall i :: 0 <= i < |rs| ==> Suits(rs[i], s.front[i].body[0], InUse(s.front, rs, i))
  }

  /** Nothing in the way: both connections take everything and no fault takes an acknowledgement. */
  ghost predicate Unharmed(s: Scenario) {
    && |s.front| <= s.upstreamRoom && |s.back| <= s.clientRoom
    && (forall n: nat :: !Loses(s.verdicts(n), s.timers(n)))
  }

  /** Every turn is complete and was answered as the upstream said. */
  ghost predicate Said(rs: seq<Response>, turns: seq<Turn>) {
    |turns| <= |rs| && forall i :: 0 <= i < |turns| ==> turns[i].complete && turns[i].answer.reply == ReplyOf(rs[i])
  }

  lemma {:induction false} SaidStep(rs: seq<Response>, turns: seq<Turn>, t: Turn)
    requires Said(rs, turns) && |turns| < |rs| && t.complete && t.answer.reply == ReplyOf(rs[|turns|])
    ensures Said(rs, turns + [t])
  {
    var all := turns + [t];
    assert all[|turns|] == t && forall i :: 0 <= i < |turns| ==> all[i] == turns[i];
  }

  /** What the turns so far have consumed and learnt. */
  ghost predicate OnTrack(s: Scenario, rs: seq<Response>, turns: seq<Turn>)
    requires ValidScenario(s) && Answers(s, rs)
  {
    && Said(rs, turns)
    && Consumed(turns) == |Stream(rs[..|turns|], s.modern)|
    && TableAfter(turns).Keys == InUse(s.front, rs, |turns|)
  }

  lemma {:induction false} NextKeys(s: Scenario, rs: seq<Response>, table: map<nat, MySqlSession.Statement>, t: Turn,
                                    n: nat)
    requires ValidScenario(s) && Answers(s, rs) && n < |rs| && table.Keys == InUse(s.front, rs, n)
    requires t.request == s.front[n] && t.answer.reply == ReplyOf(rs[n])
    ensures NextTable(table, t).Keys == InUse(s.front, rs, n + 1)
  {
  }

  lemma {:induction false} SuffixCarries(back: seq<Packet>, before: seq<Packet>, bodies: seq<seq<Byte>>)
    requires before + Numbered(bodies) <= back && AllInBound(back)
    ensures |before| + |bodies| <= |back| && Carries(back[|before|..], bodies) && AllInBound(back[|before|..])
  {
    var all, at := before + Numbered(bodies), |before|;
    forall i | 0 <= i < |bodies|
      ensures back[at..][i] == Packet((i + 1) % 256, bodies[i])
    {
      assert back[at + i] == all[at + i] == Numbered(bodies)[i];
    }
    forall i | 0 <= i < |back[at..]|
      ensures InBound(back[at..][i])
    {
      assert InBound(back[at + i]);
    }
  }

  lemma {:induction false} CarriesNext(s: Scenario, rs: seq<Response>, n: nat)
    requires ValidScenario(s) && Answers(s, rs) && n < |rs|
    ensures var at := |Stream(rs[..n], s.modern)|;
            && at + |ResponseBodies(rs[n], s.modern)| == |Stream(rs[..n + 1], s.modern)| <= |s.back|
            && Carries(s.back[at..], ResponseBodies(rs[n], s.modern)) && AllInBound(s.back[at..])
  {
    StreamAt(rs, s.modern, n);
    SuffixCarries(s.back, Stream(rs[..n], s.modern), ResponseBodies(rs[n], s.modern));
  }

  lemma {:induction false} TurnOnTrack(s: Scenario, rs: seq<Response>, turns: seq<Turn>, t: Turn)
    requires ValidScenario(s) && Answers(s, rs) && Unharmed(s) && OnTrack(s, rs, turns) && Lawful(s, turns, t)
    ensures t.complete && t.answer == Answer(|ResponseBodies(rs[|turns|], s.modern)|, ReplyOf(rs[|turns|]))
  {
    var n := |turns|;
    CarriesNext(s, rs, n);
    ScanResponse(rs[n], s.front[n].body[0], InUse(s.front, rs, n), s.back[Consumed(turns)..], s.modern);
  }

  lemma {:induction false} TrackStep(s: Scenario, rs: seq<Response>, turns: seq<Turn>, t: Turn)
    requires ValidScenario(s) && Answers(s, rs) && OnTrack(s, rs, turns) && |turns| < |rs|
    requires t.request == s.front[|turns|] && t.complete
    requires t.answer == Answer(|ResponseBodies(rs[|turns|], s.modern)|, ReplyOf(rs[|turns|]))
    ensures OnTrack(s, rs, turns + [t])
  {
    SaidStep(rs, turns, t);
    LastTurn(turns, t);
    CarriesNext(s, rs, |turns|);
    NextKeys(s, rs, TableAfter(turns), t, |turns|);
  }

  lemma {:induction false} LawfulOnTrack(s: Scenario, rs: seq<Response>, turns: seq<Turn>, t: Turn)
    requires ValidScenario(s) && Answers(s, rs) && Unharmed(s) && OnTrack(s, rs, turns) && Lawful(s, turns, t)
    ensures OnTrack(s, rs, turns + [t])
  {
    TurnOnTrack(s, rs, turns, t);
    TrackStep(s, rs, turns, t);
  }

  lemma {:induction false} StaysOnTrack(s: Scenario, rs: seq<Response>, turns: seq<Turn>)
    requires ValidScenario(s) && Answers(s, rs) && Unharmed(s) && Chronicle(s, turns)
    ensures OnTrack(s, rs, turns)
  {
    if turns == [] {
    } else {
      var before, t := turns[..|turns| - 1], turns[|turns| - 1];
      StaysOnTrack(s, rs, before);
      LawfulOnTrack(s, rs, before, t);
      assert turns == before + [t];
    }
  }

  lemma {:induction false} ShownOnTrack(s: Scenario, rs: seq<Response>, log: Log)
    requires ValidScenario(s) && Answers(s, rs) && Unharmed(s) && OnTrack(s, rs, log.turns) && Chronicle(s, log.turns)
    ensures Shown(log.turns, s.clientRoom) == |Stream(rs[..|log.turns|], s.modern)| <= |s.back|
  {
    StreamPrefix(rs, s.modern, |log.turns|);
    if log.turns != [] {
      TurnAt(s, log.turns, |log.turns| - 1);
    }
  }

  lemma {:induction false} ClientHas(s: Scenario, log: Log, sent: seq<Packet>)
    requires ValidScenario(s) && Transparent(s, log) && Shown(log.turns, s.clientRoom) == |sent| && sent <= s.back
    requires |s.front| <= s.upstreamRoom
    ensures log.toUpstream == s.front[..|log.turns|]
    ensures log.toClient == sent + if log.end == Rejected && |sent| < s.clientRoom then [s.refusal] else []
  {
  }

  lemma {:induction false} EndOnTrack(s: Scenario, rs: seq<Response>, log: Log)
    requires ValidScenario(s) && Said(rs, log.turns) && |log.turns| <= |s.front| && EndsWell(s, log.turns, log.end)
    ensures log.end != Aborted && (log.end == Idle ==> |log.turns| == |s.front|)
  {
  }

  lemma {:induction false} TrackEnds(s: Scenario, rs: seq<Response>, log: Log)
    requires ValidScenario(s) && Answers(s, rs) && Unharmed(s) && OnTrack(s, rs, log.turns)
    requires Transparent(s, log) && EndsWell(s, log.turns, log.end)
    requires Shown(log.turns, s.clientRoom) == |Stream(rs[..|log.turns|], s.modern)|
    ensures log.end != Aborted && log.toUpstream == s.front[..|log.turns|]
    ensures var sent := Stream(rs[..|log.turns|], s.modern);
            log.toClient == sent + if log.end == Rejected && |sent| < s.clientRoom then [s.refusal] else []
  {
    StreamPrefix(rs, s.modern, |log.turns|);
    EndOnTrack(s, rs, log);
    ClientHas(s, log, Stream(rs[..|log.turns|], s.modern));
  }

  /**
   * An unharmed session with an upstream that answers well is perfectly transparent: every turn is complete and means
   * what the upstream said, and the client has exactly the responses to its commands, followed by one local error if
   * the next command was refused.
   */
  lemma {:induction false} PerfectlyTransparent(s: Scenario, rs: seq<Response>, log: Log)
    requires ValidScenario(s) && Answers(s, rs) && Unharmed(s) && Over(s, log)
    ensures Said(rs, log.turns) && log.end != Aborted && log.toUpstream == s.front[..|log.turns|]
    ensures var sent := Stream(rs[..|log.turns|], s.modern);
            log.toClient == sent + if log.end == Rejected && |sent| < s.clientRoom then [s.refusal] else []
  {
    StaysOnTrack(s, rs, log.turns);
    ShownOnTrack(s, rs, log);
    TrackEnds(s, rs, log);
  }

  /** A client that neither quits nor is refused has everything the upstream sent, and the upstream every command. */
  lemma {:induction false} NothingMissing(s: Scenario, rs: seq<Response>, log: Log)
    requires ValidScenario(s) && Answers(s, rs) && Unharmed(s) && Over(s, log) && log.end == Idle
    ensures |log.turns| == |s.front| && log.toClient == s.back && log.toUpstream == s.front
  {
    PerfectlyTransparent(s, rs, log);
    EndOnTrack(s, rs, log);
    assert rs[..|log.turns|] == rs && s.front[..|log.turns|] == s.front;
  }

  lemma {:induction false} StreamPrefix(rs: seq<Response>, modern: bool, n: nat)
    requires AllWellSent(rs) && n <= |rs|
    ensures Stream(rs[..n], modern) <= Stream(rs, modern)
  {
    if n == |rs| {
      assert rs[..n] == rs;
    } else {
      StreamAt(rs, modern, n);
    }
  }
}
