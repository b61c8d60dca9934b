/**
 * The messages of the PostgreSQL protocol (section "Message Formats") the adapter carries, and sessions that use only
 * these.
 */
module PgMessages {
  import opened Bytes
  import opened Flow
  import opened History
  import opened PgWire
  import opened PgSession
  import opened PgSafety

  /** What a client sends; the adapter looks at the kind only. */
  datatype Frontend =
    | Query(payload: seq<Byte>)
    | Parse(payload: seq<Byte>)
    | Bind(payload: seq<Byte>)
    | Describe(payload: seq<Byte>)
    | Execute(payload: seq<Byte>)
    | Flush
    | Close(payload: seq<Byte>)
    | Sync

  function EncodeFrontend(m: Frontend): Frame {
    match m
    case Query(payload) => Frame('Q' as int, payload)
    case Parse(payload) => Frame('P' as int, payload)
    case Bind(payload) => Frame('B' as int, payload)
    case Describe(payload) => Frame('D' as int, payload)
    case Execute(payload) => Frame('E' as int, payload)
    case Flush => Frame('H' as int, [])
    case Close(payload) => Frame('C' as int, payload)
    case Sync => Frame('S' as int, [])
  }

  const TERMINATE := Frame('X' as int, [])

  datatype TransactionState = OutsideTransaction | InTransaction | FailedTransaction

  datatype Backend =
    | ParseComplete
    | BindComplete
    | CloseComplete
    | NoData
    | RowDescription(payload: seq<Byte>)
    | PortalSuspended
    | DataRow(payload: seq<Byte>)
    | CommandComplete(tag: seq<Byte>)
    | EmptyQueryResponse
    | ErrorResponse(payload: seq<Byte>)
    | NoticeResponse(payload: seq<Byte>)
    | ParameterStatus(payload: seq<Byte>)
    | NotificationResponse(payload: seq<Byte>)
    | ReadyForQuery(state: TransactionState)
    | ParameterDescription(payload: seq<Byte>)

  function EncodeBackend(m: Backend): Frame {
    match m
    case ParseComplete => Frame('1' as int, [])
    case BindComplete => Frame('2' as int, [])
    case CloseComplete => Frame('3' as int, [])
    case NoData => Frame('n' as int, [])
    case RowDescription(payload) => Frame('T' as int, payload)
    case PortalSuspended => Frame('s' as int, [])
    case DataRow(payload) => Frame('D' as int, payload)
    case CommandComplete(tag) => Frame('C' as int, tag + [0])
    case EmptyQueryResponse => Frame('I' as int, [])
    case ErrorResponse(payload) => Frame('E' as int, payload)
    case NoticeResponse(payload) => Frame('N' as int, payload)
    case ParameterStatus(payload) => Frame('S' as int, payload)
    case NotificationResponse(payload) => Frame('A' as int, payload)
    case ReadyForQuery(OutsideTransaction) => Frame('Z' as int, ['I' as int])
    case ReadyForQuery(InTransaction) => Frame('Z' as int, ['T' as int])
    case ReadyForQuery(FailedTransaction) => Frame('Z' as int, ['E' as int])
    case ParameterDescription(payload) => Frame('t' as int, payload)
  }

  /** Everything both peers send, in the order it arrives. */
  datatype Message = FromClient(front: Frontend) | FromServer(back: Backend)

  function InputOf(m: Message): Input {
    match m
    case FromClient(front) => Client(EncodeFrontend(front))
    case FromServer(back) => Server(EncodeBackend(back))
  }

  /** The messages of one peer, encoded. */
  function Sent(ms: seq<Message>, client: bool): seq<Frame> {
    if ms == [] then [] else
      Sent(ms[..|ms| - 1], client)
      + if ms[|ms| - 1].FromClient? == client then [InputOf(ms[|ms| - 1]).frame] else []
  }

  predicate AsksForReady(m: Message) {
    m.FromClient? && (m.front.Query? || m.front.Sync?)
  }

  predicate IsExecute(m: Message) {
    m.FromClient? && m.front.Execute?
  }

  predicate IsReady(m: Message) {
    m.FromServer? && m.back.ReadyForQuery?
  }

  /** Message `i` keeps the client's discipline: it waits for ReadyForQuery, and executes once before the next. */
  ghost predicate Patient(ms: seq<Message>, i: nat)
    requires i < |ms|
  {
    && (ms[i].FromClient? ==> !Held(ms[..i], AsksForReady, IsReady))
    && (IsExecute(ms[i]) ==> !Held(ms[..i], IsExecute, IsReady))
  }

  /** The session's inputs are these messages; both connections take them all and no fault takes an acknowledgement. */
  ghost predicate Unharmed(s: Scenario, ms: seq<Message>) {
    && |s.inputs| == |ms| && (forall i :: 0 <= i < |ms| ==> s.inputs[i] == InputOf(ms[i]))
    && |ms| <= s.clientRoom && |ms| <= s.upstreamRoom
    && (forall p: nat, n: nat :: !Loses(s.verdicts(p, n), s.timers(n)))
  }

  /** Steps that followed the messages, every one complete. */
  ghost predicate Followed(ms: seq<Message>, steps: seq<Step>) {
    |steps| <= |ms| && forall k :: 0 <= k < |steps| ==>
      steps[k].input == InputOf(ms[k]) && steps[k].complete && !steps[k].lost
  }

  lemma {:induction false} StepsFollow(s: Scenario, ms: seq<Message>, steps: seq<Step>)
    requires Unharmed(s, ms) && Chronicle(s, steps)
    ensures Followed(ms, steps)
  {
    forall k | 0 <= k < |steps|
      ensures |steps| <= |ms| && steps[k].input == InputOf(ms[k]) && steps[k].complete && !steps[k].lost
    {
      StepAt(s, steps, k);
      StepAt(s, steps, |steps| - 1);
    }
  }

  /** Messages and steps mean the same to the client's discipline. */
  lemma {:induction false} SameMeaning(m: Message, t: Step)
    requires t.input == InputOf(m) && t.complete && !t.lost
    ensures AwaitsReady(t) <==> AsksForReady(m)
    ensures Executes(t) <==> IsExecute(m)
    ensures Ready(t) <==> IsReady(m)
    ensures CycleOver(t) <==> IsReady(m)
  {
  }

  lemma {:induction false} HeldAlike(ms: seq<Message>, steps: seq<Step>)
    requires Followed(ms, steps)
    ensures Awaiting(steps) <==> Held(ms[..|steps|], AsksForReady, IsReady)
    ensures Executed(steps) <==> Held(ms[..|steps|], IsExecute, IsReady)
  {
    var seen := ms[..|steps|];
    forall k | 0 <= k < |steps|
      ensures AwaitsReady(steps[k]) <==> AsksForReady(seen[k])
      ensures Executes(steps[k]) <==> IsExecute(seen[k])
      ensures Ready(steps[k]) <==> IsReady(seen[k])
      ensures CycleOver(steps[k]) <==> IsReady(seen[k])
    {
      SameMeaning(seen[k], steps[k]);
    }
    assert forall j: nat :: HeldFrom(steps, j, AwaitsReady, Ready) <==> HeldFrom(seen, j, AsksForReady, IsReady);
    assert forall j: nat :: HeldFrom(steps, j, Executes, CycleOver) <==> HeldFrom(seen, j, IsExecute, IsReady);
  }

  /** Every message of the protocol is supported, and passes if the client's discipline lets it. */
  lemma {:induction false} Supported(ms: seq<Message>, steps: seq<Step>)
    requires Followed(ms, steps) && |steps| < |ms| && Patient(ms, |steps|)
    ensures Admit(steps, InputOf(ms[|steps|])) == Take
  {
    HeldAlike(ms, steps);
  }

  lemma {:induction false} FramesAreSent(ms: seq<Message>, steps: seq<Step>, client: bool)
    requires Followed(ms, steps)
    ensures Frames(steps, client) == Sent(ms[..|steps|], client)
  {
    if steps == [] {
    } else {
      var n := |steps| - 1;
      FramesAreSent(ms, steps[..n], client);
      assert ms[..n + 1][..n] == ms[..n];
    }
  }

  /**
   * A session of patient clients, with only messages of the protocol and nothing in the way, runs to the end: each peer
   * has every message of the other, in order, and nothing else.
   */
  lemma {:induction false} NothingMissing(s: Scenario, ms: seq<Message>, log: Log)
    requires Unharmed(s, ms) && Over(s, log) && forall i :: 0 <= i < |ms| ==> Patient(ms, i)
    ensures log.end == Idle && |log.steps| == |ms|
    ensures log.toClient == Sent(ms, false) && log.toUpstream == Sent(ms, true)
  {
    StepsFollow(s, ms, log.steps);
    if |log.steps| < |ms| {
      Supported(ms, log.steps);
    }
    assert ms[..|log.steps|] == ms;
    FramesAreSent(ms, log.steps, false);
    FramesAreSent(ms, log.steps, true);
  }

  /** A client frame of another kind, one before ReadyForQuery, or a second Execute in a cycle. */
  ghost predicate ClientRefused(steps: seq<Step>, f: Frame) {
    || f.kind !in {'Q' as int, 'P' as int, 'B' as int, 'D' as int, 'E' as int, 'H' as int, 'C' as int, 'S' as int,
                   'X' as int}
    || (f.kind != 'X' as int && Awaiting(steps))
    || (f.kind == 'E' as int && Executed(steps))
  }

  /** An upstream frame of another kind, or a ReadyForQuery without a proper status. */
  predicate ServerRefused(f: Frame) {
    || f.kind !in {'1' as int, '2' as int, '3' as int, 'n' as int, 'T' as int, 's' as int, 'D' as int, 'C' as int,
                   'I' as int, 'E' as int, 'N' as int, 'S' as int, 'A' as int, 'Z' as int, 't' as int}
    || (f.kind == 'Z' as int && f.body !in {['I' as int], ['T' as int], ['E' as int]})
  }

  /** How a session ends, from its steps and the next frame. */
  lemma {:induction false} SessionEnds(s: Scenario, log: Log)
    requires Over(s, log)
    ensures var n := |log.steps|;
            var going := n == 0 || log.steps[n - 1].complete;
            && n <= |s.inputs|
            && (log.end == Aborted <==> !going)
            && (log.end == Idle <==> going && n == |s.inputs|)
            && (log.end == Quit <==>
                going && n < |s.inputs| && s.inputs[n].Client? && s.inputs[n].frame.kind == 'X' as int)
            && (log.end == Rejected <==>
                going && n < |s.inputs|
                && if s.inputs[n].Client? then ClientRefused(log.steps, s.inputs[n].frame)
                   else ServerRefused(s.inputs[n].frame))
  {
    var n := |log.steps|;
    if n < |s.inputs| {
      RefusedExactly(log.steps, s.inputs[n]);
    }
  }

  lemma {:induction false} RefusedExactly(steps: seq<Step>, input: Input)
    ensures Admit(steps, input) == Stop <==> input.Client? && input.frame.kind == 'X' as int
    ensures Admit(steps, input) == Reject <==>
            if input.Client? then ClientRefused(steps, input.frame) else ServerRefused(input.frame)
  {
    var b := input.frame.body;
    if |b| == 1 {
      assert b == [b[0]];
    }
  }

  /**
   * The evidence, spelt out.  For a transaction: a BEGIN tag, or ReadyForQuery inside a transaction, failed or not.
   * Against it: a ROLLBACK tag, ReadyForQuery outside one, or a COMMIT already decided on.
   */
  lemma {:induction false} EvidenceMeans(back: Backend, t: Step)
    requires t.input == Server(EncodeBackend(back))
    ensures Confirms(t) <==> back == CommandComplete(Ascii("COMMIT"))
    ensures Begins(t) <==>
            back in {CommandComplete(Ascii("BEGIN")), ReadyForQuery(InTransaction), ReadyForQuery(FailedTransaction)}
    ensures Ends(t) <==>
            t.verdict.Some? || back == CommandComplete(Ascii("ROLLBACK")) || back == ReadyForQuery(OutsideTransaction)
    ensures ServerFails(t) <==> back.ErrorResponse?
  {
    if back.CommandComplete? {
      TagIs(back.tag, "COMMIT");
      TagIs(back.tag, "BEGIN");
      TagIs(back.tag, "ROLLBACK");
    }
  }

  lemma {:induction false} TagIs(tag: seq<Byte>, text: string)
    ensures tag + [0] == Ascii(text) + [0] <==> tag == Ascii(text)
  {
    if tag + [0] == Ascii(text) + [0] {
      assert (tag + [0])[..|tag|] == tag && (Ascii(text) + [0])[..|Ascii(text)|] == Ascii(text);
    }
  }

  /** A session that ends inside a cycle reports it as closed, with its fault if one was applied. */
  lemma {:induction false} LastRecord(s: Scenario, log: Log)
    requires Over(s, log)
    ensures Active(log.steps) ==> log.events == Events(log.steps) + [Finished(Faulted(log.steps), ConnectionClosed)]
    ensures !Active(log.steps) ==> log.events == Events(log.steps)
  {
  }

  /** What a step records, event by event. */
  lemma {:induction false} StepRecords(s: Scenario, steps: seq<Step>, t: Step)
    requires ValidScenario(s) && Lawful(s, steps, t)
    ensures var events := StepEvents(steps, t);
            && (t.starts ==> events == [Started])
            && (t.verdict.Some? && !t.verdict.value.selected ==> events == [Decided(t.verdict.value.eligible, false)])
            && (t.verdict.Some? && t.verdict.value.selected && !t.lost ==> events == [Decided(true, true), Applied])
            && (t.lost ==> events == [Decided(true, true), Applied, Finished(true, CommitAckLost)])
            && (!t.starts && t.verdict.None? && !(Ready(t) && Active(steps)) ==> events == [])
            && (Ready(t) && Active(steps) ==>
                  events == [Finished(Faulted(steps), if Failed(steps) then UpstreamError else Forwarded)])
  {
  }
}
