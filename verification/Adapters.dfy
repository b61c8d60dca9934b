/** All adapters recording into one recorder. */
module Adapters {
  import opened Flow
  import opened Recorder
  import opened Accounting
  import My = MySqlSession
  import MySafe = MySqlSafety
  import Pg = PgSession
  import PgSafe = PgSafety
  import Tcp = TcpActivation
  import Plain = TcpServe

  /**
   * One session or connection and what it recorded.  A TCP connection is served plainly or, from its decision on, under
   * a fault controller.
   */
  datatype Source =
    | MySqlConnection(my: My.Scenario, myLog: My.Log)
    | PgConnection(pg: Pg.Scenario, pgLog: Pg.Log)
    | TcpControlled(trigger: Tcp.Trigger, eligible: bool, steps: seq<Tcp.Step>)
    | TcpPlain(connection: Plain.Connection)

  /** The record of a session that is over. */
  ghost predicate Genuine(s: Source) {
    match s
    case MySqlConnection(my, log) => My.ValidScenario(my) && My.Over(my, log)
    case PgConnection(pg, log) => Pg.ValidScenario(pg) && Pg.Over(pg, log)
    case TcpControlled(trigger, eligible, steps) =>
      Tcp.CanRun(Tcp.Init(trigger, eligible), steps) && Tcp.After(Tcp.Init(trigger, eligible), steps).serve.Ended?
    case TcpPlain(c) => !Plain.Controlled(c)
  }

  ghost function EventsOf(s: Source): seq<Event>
    requires Genuine(s)
  {
    match s
    case MySqlConnection(_, log) => log.events
    case PgConnection(_, log) => log.events
    case TcpControlled(trigger, eligible, steps) => Tcp.After(Tcp.Init(trigger, eligible), steps).events
    case TcpPlain(c) => Plain.PlainEvents(c)
  }

  lemma SourceIsComplete(s: Source)
    requires Genuine(s)
    ensures PhaseAfter(Closed, EventsOf(s)) == Closed
  {
    match s {
      case MySqlConnection(my, log) => MySafe.EventsAreFlows(my, log.turns);
      case PgConnection(pg, log) => PgSafe.EventsAreFlows(pg, log);
      case TcpControlled(trigger, eligible, steps) => Tcp.FinishedFlow(trigger, eligible, steps);
      case TcpPlain(c) => Plain.PlainIsFlow(c);
    }
  }

  ghost function Streams(sources: seq<Source>): (streams: seq<seq<Event>>)
    requires forall i :: 0 <= i < |sources| ==> Genuine(sources[i])
    ensures |streams| == |sources|
  {
    seq(|sources|, i requires 0 <= i < |sources| => EventsOf(sources[i]))
  }

  /**
   * Any number of sessions of all three adapters, recorded in any interleaving by a recorder whose queue, writer and
   * shutdown do anything they can: at every moment `Active` is the number of open flows and `ActiveFaults` the number
   * of open flows with an applied fault.
   */
  lemma AdapterAccounting(sources: seq<Source>, schedule: seq<nat>, capacity: nat, steps: seq<Step>)
    requires forall i :: 0 <= i < |sources| ==> Genuine(sources[i])
    requires CanPlay(Streams(sources), Start(|sources|), schedule)
    requires CanRun(Init(capacity), steps) && Counted(steps) == Scheduled(Streams(sources), Start(|sources|), schedule)
    ensures var counts := After(Init(capacity), steps).counts;
            var phases := Phases(Streams(sources), Play(Streams(sources), Start(|sources|), schedule));
            && counts.active == Sum(phases, Open)
            && counts.activeFaults == Sum(phases, Faulted)
            && 0 <= counts.activeFaults <= counts.active
  {
    var streams := Streams(sources);
    forall i | 0 <= i < |streams| ensures PhaseAfter(Closed, streams[i]) == Closed { SourceIsComplete(sources[i]); }
    RecorderAccounting(capacity, steps, streams, schedule);
    FlowAccounting(streams, schedule);
  }
}
