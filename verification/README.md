# Faultline, verified core

Faultline is a fault-injecting proxy.  It sits between clients and a MySQL, PostgreSQL, TCP, HTTP or gRPC upstream,
forwards traffic unchanged, and at chosen points closes, holds, delays, throttles or truncates it.  This project models
its state machines in Dafny 4.11 and proves what they keep over every input, every interleaving and every crash.
`dafny verify dfyconfig.toml` checks all of it.

## How the system is modelled

- **Database sessions.**  A `Scenario` holds everything the adapter does not control: the packets or frames of both
  peers, when a write fails, what the rule engine answers, whether a fault's timer beats the end of the session.
  `Exchange` is the session loop with its variables; it returns a `Log` with both connections, the events and the way
  the session ended.  The predicate `Over` says what a finished log must be, in terms of the whole history ("some BEGIN
  opened a transaction and no later turn is evidence against it") and not of the loop's flags.  `LogIsDetermined` shows
  that `Over` leaves no freedom: a scenario has exactly one finished log, so `Over` is a complete specification.  The
  theorems in `MySqlSafety` and `PgSafety` are about every log that satisfies it.
- **Concurrency.**  The recorder, the TCP fault controller and the managed instance are state machines with one step per
  atomic action: a channel send, a lock, a flag, a rename, a directory sync, a kill, a power loss.  A run is any sequence
  of enabled steps, and each theorem holds for all of them.  `Recorder.Log`, `TcpActivation.Controller`, `Store.Store`
  and `Control.Service` are the objects themselves, with methods proved to do what a whole call does in the machine.
- **On the wire.**  What the specifications are built from is pinned down separately, in literal bytes, letters and
  numbers: `MySqlCommands` says which packets are refused, what each command means and what each turn records,
  `PgMessages` does so for the messages of the PostgreSQL protocol, and `EngineMatching` for the fields of a matcher.
- **Composition.**  `Adapters.AdapterAccounting` puts finished sessions of all three adapters, in any interleaving, in
  front of the recorder machine, and shows that its counters are the numbers of open flows.  `Snapshots` lets operations
  on the control service and requests interleave, with an engine built from each published document, and
  `SessionControl` puts a database session beside such a service: its fault decisions are then the answers of the
  snapshot in force when it was acquired, and which acknowledgements are lost follows from the rule's selector.
  `MySqlAnswers` puts an upstream that answers well behind a whole session, `TcpServe` the pump beside the controller.

| part | files |
|---|---|
| bytes, writes, histories | `Bytes`, `Arith`, `Net`, `Framing`, `History` |
| flows and events | `Flow`, `Recorder`, `Accounting`, `Adapters` |
| MySQL | `MySqlWire`, `MySqlReply`, `MySqlResultSet`, `MySqlSession`, `MySqlSafety`, `MySqlPrepare`, `MySqlAnswers`, `MySqlCommands` |
| PostgreSQL | `PgWire`, `PgSession`, `PgSafety`, `PgMessages` |
| TCP | `TcpPump`, `TcpActivation`, `TcpServe` |
| rules | `PathPattern`, `Engine`, `EngineMatching`, `EngineReplay`, `Revision` |
| configuration and control | `Config`, `Control`, `Snapshots`, `SessionControl`, `Store`, `Managed`, `Durability` |
| gRPC and bodies | `GrpcTimeout`, `TruncatedBody` |

## Where the code does less than one might expect

- **A published revision can be lost.**  When an apply fails after its rename, the store is poisoned and the process must
  be restarted.  The restart publishes the renamed file, whose directory entry was never synced, and a power loss then
  takes the revision back (`Durability.LostPublication`).  `Durability.PublishedMayBeLost` gives the exact condition over
  the run: a rename that raised the revision was followed by a start of the process, with no directory sync and no power
  loss since that rename.  Acknowledged saves are never lost (`Durability.ManagedDurability`).
- **Recovery can be more than one revision ahead of the last acknowledged one** after two such failures in a row
  (`Durability.TwoAhead`).  `Durability.AheadOfAcknowledged` gives the exact condition: a changing apply was renamed while
  the published revision was itself not acknowledged, with no directory sync since and no power loss that came back with
  less.  Recovery is never more than one ahead of the published revision.
- **A TCP flow can report an applied fault with the outcome "forwarded"**, because the outcome is chosen before the
  controller is stopped and a timer may fire in between (`TcpActivation.LateTimer`).  `TcpActivation.OutcomeAgrees`
  shows that this is the only way, and that it needs a timer trigger.  The Applied flag itself is always right.
- **Every path pattern matches itself**, also those the validator refuses (`PathPattern.SelfMatch`).

## Model

| member | source | states |
|---|---|---|
| `Net.WriteAll` | internal/proxy/postgresql/wire.go:53-65 | whatever the connection accepts per write, what was sent is a prefix of the buffer, and success means all of it; an error or an empty write is a failure |
| `Net.WriteCalls` | internal/proxy/postgresql/wire.go:54-63 | an error or an empty write is the end whatever it took before; otherwise the rest goes on with the calls that follow |
| `Framing.ShortWritesKeepBoundaries` | internal/proxy/postgresql/wire.go:21-65 | for any codec that decodes a message in front of anything and never decodes a torn one: under every schedule of short and failing writes a reader sees exactly the messages that arrived whole |
| `MySqlWire.WritePacket` | internal/proxy/mysql/wire.go:40-58 | refuses empty and oversized bodies; otherwise sends a prefix of the encoding, all of it exactly on success |
| `MySqlWire.ReadEncoded` | internal/proxy/mysql/wire.go:27-58 | reading inverts writing, with anything behind it |
| `MySqlWire.RefusedLength` | internal/proxy/mysql/wire.go:32-35 | a header is refused exactly if it announces no body or more than 1 MiB |
| `MySqlWire.PacketStream` | internal/proxy/mysql/wire.go:27-58 | any sequence of packets crosses any short-write schedule with its boundaries intact |
| `MySqlWire.LenEncInverse` | internal/proxy/mysql/wire.go:62-87 | the decoder inverts the protocol's shortest length-encoded integer for every 64-bit value, and reports its width |
| `MySqlWire.NoLenEnc` | internal/proxy/mysql/wire.go:63-81 | exactly which bytes hold no integer |
| `MySqlWire.OkStatusInverse` | internal/proxy/mysql/wire.go:88-101 | the status word of any OK packet is read back, whatever its counts and trailing text, with either header |
| `MySqlWire.EofStatusInverse` | internal/proxy/mysql/wire.go:102-113 | likewise for the five-byte EOF packet of the legacy protocol |
| `MySqlReply.Cycle.Read` | internal/proxy/mysql/session.go:76-86 | takes the next packet exactly if one is left and it carries the next sequence number modulo 256 |
| `MySqlReply.Cycle.Forward` | internal/proxy/mysql/session.go:87-87 | the client connection stays earlier traffic followed by a prefix of this response |
| `MySqlReply.Cycle.Definitions` | internal/proxy/mysql/session.go:88-115 | forwards exactly the packets of a definition block, or as many of them as the client takes |
| `MySqlReply.Cycle.ForwardRows` | internal/proxy/mysql/session.go:127-144 | forwards rows up to and with the packet that ends them, and returns its status |
| `MySqlReply.Cycle.Result` | internal/proxy/mysql/session.go:116-145 | forwards exactly the scanned result set and reports success exactly if it is complete and reached the client |
| `MySqlResultSet.RowStart` | internal/proxy/mysql/session.go:132-140 | within the packet limit no text or binary row starts like a terminator or an error packet |
| `MySqlResultSet.ResultBoundary` | internal/proxy/mysql/session.go:116-145 | for every well-formed result set with 1 to 4096 columns and any rows, in both EOF modes and whatever follows it, the adapter reads exactly its packets and takes the status from its terminator |
| `Flow.Apply` | internal/proxy/mysql/session.go:323-339 | the acknowledgement goes out exactly after a delay whose timer beat the context |
| `Flow.OneFlow` | internal/proxy/mysql/session.go:205-285 | the events of a flow are one start, at most one decision, an application only if selected, and one finish that reports it |
| `MySqlPrepare.PreparedBoundary` | internal/proxy/mysql/session.go:226-245 | for every PREPARE answer with up to 4096 parameters and columns, in both EOF modes and whatever follows it, the adapter reads exactly its packets and takes its id, unless that id is in use |
| `MySqlSession.Prepare` | internal/proxy/mysql/session.go:226-245 | forwards exactly the PREPARE answer and yields its id exactly if the answer is whole, its id is new and the client took it |
| `MySqlSession.Acknowledge` | internal/proxy/mysql/session.go:249-270 | the transaction flag, the statement table, the decision and the lost acknowledgement after an OK packet are those the history predicates ask for |
| `MySqlSession.Carry` | internal/proxy/mysql/session.go:221-275 | the same for every kind of answer |
| `MySqlSession.Command` | internal/proxy/mysql/session.go:212-275 | the same for a whole command cycle after its request was written |
| `MySqlSession.Attempt` | internal/proxy/mysql/session.go:208-276 | one lawful turn: the request is forwarded, the client has exactly what the turn may show, and variables follow the evidence |
| `MySqlSession.Serve` | internal/proxy/mysql/session.go:200-291 | one iteration keeps the loop's agreement with the history or ends the session with a finished log |
| `MySqlSession.Exchange` | internal/proxy/mysql/session.go:146-292 | every session ends with a log that satisfies the complete specification `Over` |
| `MySqlSafety.LogIsDetermined` | internal/proxy/mysql/session.go:146-292 | a scenario has exactly one finished log |
| `MySqlCommands.KindOfTurn` | internal/proxy/mysql/session.go:160-199 | a query or PREPARE has the kind of its own text, an EXECUTE the kind its statement was prepared with, everything else is ordinary; no refused packet becomes a turn |
| `MySqlCommands.SessionEnds` | internal/proxy/mysql/session.go:155-199 | exactly when a session ends idle, by a quit, by a refused packet or inside a turn; what is refused is written out command by command |
| `MySqlCommands.EvidenceMeans` | internal/proxy/mysql/session.go:221-274 | what counts for and against an open transaction, by command and parity of the status word |
| `MySqlCommands.EvidenceOnWire` | internal/proxy/mysql/session.go:249-268 | a decided turn is a COMMIT whose OK on the wire has an even status, after a BEGIN whose OK has an odd one |
| `MySqlCommands.ErrorOnWire` | internal/proxy/mysql/session.go:217-225 | an error answer is exactly a first packet numbered 1 that starts with 0xff |
| `MySqlCommands.TurnRecords` | internal/proxy/mysql/session.go:205-322 | the events of a turn one by one, and exactly which outcome it has |
| `MySqlCommands.BrokenStarts` | internal/proxy/mysql/session.go:217-253 | answers out of sequence, with more results announced, malformed or asking for a local file never reach the client |
| `MySqlCommands.BrokenPrepare` | internal/proxy/mysql/session.go:226-233 | a PREPARE answer of another shape or with an id in use never reaches the client |
| `MySqlCommands.BrokenDefinitions` | internal/proxy/mysql/session.go:92-103 | an error packet or one out of sequence breaks off a definition block there |
| `MySqlCommands.UnclosedDefinitions` | internal/proxy/mysql/session.go:104-113 | so does a block the legacy protocol does not close |
| `MySqlCommands.MoreRows` | internal/proxy/mysql/session.go:135-138 | rows whose terminator announces more results reach the client without it |
| `MySqlCommands.RowOutOfSequence` | internal/proxy/mysql/session.go:127-131 | a packet out of sequence breaks off the rows there |
| `MySqlCommands.ColumnLimit` | internal/proxy/mysql/session.go:117-120 | a result set with no columns or more than 4096 never reaches the client |
| `MySqlSafety.CommitEvidence` | internal/proxy/mysql/session.go:249-276 | a decision is taken exactly when a COMMIT is confirmed while an earlier BEGIN is open with no error, rollback, reset or cleared bit since; nothing in between was decided on |
| `MySqlSafety.DecisionsBounded` | internal/proxy/mysql/session.go:254-268 | decisions plus an open transaction never outnumber successful BEGINs |
| `MySqlSafety.StatementBound` | internal/proxy/mysql/session.go:175-178 | the statement table never exceeds 128 entries |
| `MySqlSafety.StatementHistory` | internal/proxy/mysql/session.go:184-264 | a statement id is known with a kind exactly if the last PREPARE that produced it had that kind and nothing closed or reset it since |
| `MySqlSafety.WhenLost` | internal/proxy/mysql/session.go:293-339 | holding and closing always lose the acknowledgement; a delay loses it exactly when the context ends first |
| `MySqlSafety.LostIsOk` | internal/proxy/mysql/session.go:249-268 | what is lost is the upstream's OK packet, in the last turn of the session |
| `MySqlSafety.LostAcknowledgement` | internal/proxy/mysql/session.go:265-288 | after a loss the client has everything before that OK and nothing from it on |
| `MySqlSafety.EventsAreFlows` | internal/proxy/mysql/session.go:205-285 | the events of any session are complete flows |
| `MySqlSafety.Forwarding` | internal/proxy/mysql/session.go:146-292 | each peer has a prefix of what the other sent, the client at most one local error after it |
| `MySqlAnswers.ScanResponse` | internal/proxy/mysql/session.go:212-275 | every OK, error, result set or PREPARE answer that suits its command is read exactly to its end and means what it says |
| `MySqlAnswers.PerfectlyTransparent` | internal/proxy/mysql/session.go:146-292 | when the upstream answers every command well and nothing is in the way, every turn is complete and the client has exactly the responses to its commands, and one local error if the next command was refused |
| `MySqlAnswers.NothingMissing` | internal/proxy/mysql/session.go:146-292 | then a client that neither quits nor is refused has everything the upstream sent, and the upstream every command |
| `PgWire.WriteFrame` | internal/proxy/postgresql/wire.go:47-52 | sends a prefix of the encoding, all of it exactly on success |
| `PgWire.ReadEncoded` | internal/proxy/postgresql/wire.go:21-52 | reading inverts writing, with anything behind it |
| `PgWire.RefusedLength` | internal/proxy/postgresql/wire.go:26-29 | a length is refused exactly if it does not cover itself or exceeds 1 MiB |
| `PgWire.FrameStream` | internal/proxy/postgresql/wire.go:21-65 | any sequence of frames crosses any short-write schedule with its boundaries intact |
| `PgWire.StartupByFields` | internal/proxy/postgresql/session.go:95-109 | a byte string is a printed list of allowed parameters exactly if it is framed right and its fields alternate as required |
| `PgWire.ValidStartup` | internal/proxy/postgresql/session.go:95-109 | accepts exactly the printed parameter lists with nonempty keys other than "replication" |
| `PgWire.ForbiddenKeys` | internal/proxy/postgresql/session.go:99-107 | a printed list of zero-free parameters is accepted exactly if no key is empty and none is "replication" |
| `PgSession.OnClient` | internal/proxy/postgresql/session.go:263-295 | a client frame is taken exactly if the history admits it, and starts a cycle exactly if none is active |
| `PgSession.OnTag` | internal/proxy/postgresql/session.go:304-346 | BEGIN, ROLLBACK and COMMIT tags move the transaction evidence, and only a COMMIT with evidence in an undecided cycle is decided on, by the pinned snapshot |
| `PgSession.OnComplete` | internal/proxy/postgresql/session.go:304-364 | a CommandComplete is a lawful step and leaves the variables in agreement with the history |
| `PgSession.OnReady` | internal/proxy/postgresql/session.go:347-361 | a ReadyForQuery that reaches the client ends the cycle and its flow with the right outcome |
| `PgSession.OnServer` | internal/proxy/postgresql/session.go:296-364 | every upstream frame is taken exactly if it is supported, and is a lawful step |
| `PgSession.Receive` | internal/proxy/postgresql/session.go:259-366 | one iteration keeps the agreement with the history or ends the session |
| `PgSession.Finish` | internal/proxy/postgresql/session.go:241-256 | leaving the loop finishes an active cycle as closed, with the right Applied flag, and nothing else |
| `PgSession.Exchange` | internal/proxy/postgresql/session.go:224-367 | every session ends with a log that satisfies the complete specification `Over` |
| `PgSafety.LogIsDetermined` | internal/proxy/postgresql/session.go:224-367 | a scenario has exactly one finished log |
| `PgMessages.SessionEnds` | internal/proxy/postgresql/session.go:259-351 | exactly when a session ends idle, by Terminate, by a refused frame or inside a step; the kinds that pass are written out |
| `PgMessages.NothingMissing` | internal/proxy/postgresql/session.go:259-366 | with clients that wait for ReadyForQuery and execute once per cycle, only messages of the protocol and nothing in the way, each peer has every message of the other, in order, and nothing else |
| `PgMessages.EvidenceMeans` | internal/proxy/postgresql/session.go:301-352 | which backend messages count for and against an open transaction, confirm a COMMIT or report an error |
| `PgMessages.StepRecords` | internal/proxy/postgresql/session.go:271-357 | the events of a step one by one |
| `PgMessages.LastRecord` | internal/proxy/postgresql/session.go:241-256 | a session that ends inside a cycle reports it as closed |
| `PgSafety.DecisionSafety` | internal/proxy/postgresql/session.go:263-346 | every decision is at a COMMIT tag with evidence of a transaction not revoked since, first in its command cycle, and asks the snapshot acquired at the first frame of that cycle |
| `PgSafety.DecisionTaken` | internal/proxy/postgresql/session.go:304-346 | conversely, every COMMIT tag that meets those conditions is decided on |
| `PgSafety.OncePerCycle` | internal/proxy/postgresql/session.go:271-357 | between two decisions a ReadyForQuery reaches the client |
| `PgSafety.LostAcknowledgement` | internal/proxy/postgresql/session.go:334-384 | exactly when the acknowledgement is lost, and then the client has neither the COMMIT tag nor anything after it |
| `PgSafety.Forwarding` | internal/proxy/postgresql/session.go:259-366 | each peer has a prefix of what the other sent, the client at most one local error after it |
| `PgSafety.EventsAreFlows` | internal/proxy/postgresql/session.go:241-357 | the events of any session are complete flows, also when it ends inside a cycle |
| `Recorder.TallyOutcome` | internal/recorder/recorder.go:100-103 | the outcome table never grows past 32 entries |
| `Recorder.StepKeeps` | internal/recorder/recorder.go:80-172 | every atomic step of producers, writer and Close keeps the queue invariant |
| `Recorder.Conservation` | internal/recorder/recorder.go:80-152 | over every interleaving each finished Record call is written, dropped or pending; Pending is at most capacity + 1 and at least one whenever the writer lowers it; events leave in order |
| `Recorder.NothingSentAfterClose` | internal/recorder/recorder.go:112-119 | no interleaving puts anything on a closed queue |
| `Recorder.CloseNilIsFinal` | internal/recorder/recorder.go:155-172 | when Close returns nil everything accepted was handled, and nothing is pending in any later state |
| `Recorder.UnflushedOnlyByAbort` | internal/recorder/recorder.go:132-172 | a stopped writer leaves events pending only after an abort, and as many as were accepted but not handled |
| `Recorder.Log.Note` | internal/recorder/recorder.go:86-108 | the counters and the outcome table after an event |
| `Recorder.Log.Record` | internal/recorder/recorder.go:80-121 | a whole call does what its steps do in the machine; exactly one of written, dropped and pending grows |
| `Recorder.RecordShape` | internal/recorder/recorder.go:112-120 | an event recorded while the queue is open and has room is accepted, every other one dropped |
| `Recorder.WriteShape` | internal/recorder/recorder.go:135-150 | a turn of the writer after an abort, after a failed and after a good encoding |
| `Recorder.Log.WriteNext` | internal/recorder/recorder.go:135-151 | a whole turn of the writer does what its steps do in the machine, and outputs the oldest event |
| `Recorder.Log.CloseQueue` | internal/recorder/recorder.go:155-161 | closing is idempotent and keeps the invariant |
| `Accounting.FlowAccounting` | internal/recorder/recorder.go:86-108 | over every interleaving of complete flows Active is the number of open flows, ActiveFaults the number of those with an applied fault; both end at zero |
| `Accounting.RunCounts` | internal/recorder/recorder.go:79-152 | queueing, dropping, writing and closing never disturb the run counters |
| `Accounting.RunNumbers` | internal/recorder/recorder.go:86-108 | after any run Total, Eligible, Selected and Applied are the numbers of started flows, eligible decisions, selected decisions and applied faults |
| `Accounting.OutcomeNumbers` | internal/recorder/recorder.go:100-103 | each listed outcome has the number of flows that ended with it; one is missing only from a full table of 32 |
| `Accounting.WriteNumbers` | internal/recorder/recorder.go:80-152 | Written counts the events encoded without an error, WriteErrors those with one, and every recorded event is written, dropped or pending |
| `Accounting.RecorderAccounting` | internal/recorder/recorder.go:80-152 | both together, for the recorder machine |
| `Adapters.SourceIsComplete` | internal/proxy/tcp/server.go:114-177 | every finished session or connection of any adapter recorded complete flows |
| `Adapters.AdapterAccounting` | internal/proxy/tcp/server.go:108-177 | sessions of all adapters in any interleaving before a recorder in any state: Active and ActiveFaults are right at every moment and never negative |
| `TcpPump.Chunk` | internal/proxy/tcp/server.go:328-337 | a write is never empty, never crosses a pending byte trigger, has at most 1024 bytes under throttling, and is otherwise everything pending |
| `TcpPump.ForwardBuffer` | internal/proxy/tcp/server.go:327-355 | forwards a prefix of the buffer, keeps the exact cut, and stops early only for a reason |
| `TcpPump.Pump` | internal/proxy/tcp/server.go:305-364 | for any chunking the destination gets a prefix of the source; a byte trigger fires after exactly its byte; a willing destination gets everything the source yields unless an activated fault cuts this direction, exactly N bytes when its trigger is N here, and nothing when it was active from the start |
| `TcpPump.YieldsOffered` | internal/proxy/tcp/server.go:311-359 | the source yields what its reads offer, 4096 bytes at most each, as far as it goes |
| `TcpPump.WaitBeforeDial` | internal/proxy/tcp/server.go:179-204 | what is prefetched is exactly the client's first bytes, at most 16 KiB, and only if the delay ran out before the client and the context |
| `TcpPump.HeldBack` | internal/proxy/tcp/server.go:183-195 | as much is prefetched as the reads offer and the buffer takes |
| `TcpPump.GoesOn` | internal/proxy/tcp/server.go:189-203 | the connection goes on exactly if the context lives and the buffer filled up or the first read to end ran into the deadline |
| `TcpPump.PumpDelayed` | internal/proxy/tcp/server.go:144-165 | prefetching loses, repeats and reorders nothing |
| `TcpServe.Serve` | internal/proxy/tcp/server.go:114-166 | which connections get a fault controller, with their flow still open, and what all others record: client closed, dial error or forwarded, applied exactly if the client was held back to the end of the delay |
| `TcpServe.PlainIsFlow` | internal/proxy/tcp/server.go:114-166 | a connection without a controller records one complete flow |
| `TcpServe.AppliedByBytes` | internal/proxy/tcp/server.go:167-176 | a byte-triggered flow reports its fault as applied exactly if at least N bytes of the trigger's direction were forwarded; exactly N when the fault cuts that direction |
| `TcpActivation.CounterApplies` | internal/proxy/tcp/server.go:251-273 | a byte-triggered flow reports its fault as applied exactly if a pump reached the trigger |
| `TcpActivation.StepKeeps` | internal/proxy/tcp/server.go:213-267 | every atomic step of starter, byte counter, timer, serve and stop keeps the controller's invariant |
| `TcpActivation.AppliedAtMostOnce` | internal/proxy/tcp/server.go:251-267 | in every interleaving the application is recorded at most once, and exactly when the fault is active |
| `TcpActivation.QuietAfterStop` | internal/proxy/tcp/server.go:239-258 | after stop returns nothing changes the flags or records an application |
| `TcpActivation.FinishedFlow` | internal/proxy/tcp/server.go:133-176 | a finished connection recorded one complete flow, with an Applied flag that is final and equals the active flag |
| `TcpActivation.OutcomeAgrees` | internal/proxy/tcp/server.go:171-176 | outcome and Applied flag differ exactly if the fault became active after the outcome was chosen, which needs a timer trigger |
| `TcpActivation.LateTimer` | internal/proxy/tcp/server.go:171-176 | a run in which they differ |
| `TcpActivation.Controller.Activate` | internal/proxy/tcp/server.go:251-267 | a whole call does what its steps do in the machine: the fault is applied unless it was before or the flow is finished |
| `TcpActivation.Controller.Start` | internal/proxy/tcp/server.go:230-237 | only a fault without timer and byte trigger is active before forwarding begins |
| `TcpActivation.Controller.Stop` | internal/proxy/tcp/server.go:239-249 | stop finishes the flow and keeps the invariant |
| `PathPattern.MatchesPathPattern` | internal/engine/engine.go:157-176 | the cut loop terminates and decides exactly the segment-wise match |
| `PathPattern.MatchesIsFilling` | internal/engine/engine.go:157-176 | a path matches exactly if nonempty slash-free values in place of the parameters turn the pattern into it |
| `PathPattern.OneSegment` | internal/engine/engine.go:161-167 | behind a colon a segment matches anything but nothing, otherwise only itself |
| `PathPattern.LiteralPattern` | internal/engine/engine.go:157-176 | a pattern without parameters matches only itself |
| `PathPattern.SelfMatch` | internal/config/validate.go:335-359 | every pattern matches itself |
| `Engine.Owner` | internal/engine/engine.go:73-76 | the first enabled matching rule owns the request |
| `Engine.HasHeader` | internal/engine/engine.go:138-148 | the loops find a header exactly if one equal value stands under a name that is the same |
| `Engine.MatchRule` | internal/engine/engine.go:126-154 | the branches and loops decide the match |
| `EngineMatching.PartByPart` | internal/engine/engine.go:126-154 | a matcher matches exactly if each of its single-field parts does |
| `EngineMatching.MethodOnly` | internal/engine/engine.go:131-133 | a method alone matches exactly the requests with that method |
| `EngineMatching.ServiceOnly` | internal/engine/engine.go:128-130 | a service alone matches exactly the requests to that service |
| `EngineMatching.PathOnly` | internal/engine/engine.go:127-133 | a path alone matches exactly that path, with or without a query behind it |
| `EngineMatching.PatternOnly` | internal/engine/engine.go:134-136 | a pattern alone matches exactly the paths that fill it, with or without a query behind them |
| `EngineMatching.HeaderOnly` | internal/engine/engine.go:137-152 | a header alone needs one equal value under a name that is the same |
| `EngineMatching.PicksBelow` | internal/engine/engine.go:115-122 | the shortcuts for probabilities zero and one save a draw and change no selection |
| `Engine.Evaluator.SelectAttempt` | internal/engine/engine.go:107-124 | the selection is what the rule fixes for that sequence number; only a proper probability draws |
| `Engine.Evaluator.Decide` | internal/engine/engine.go:64-93 | the decision is the owner's, and only the owner's counters and stream move |
| `EngineReplay.OneCall` | internal/engine/engine.go:73-92 | a call counts for the rule that owns it and leaves every other rule as it was |
| `EngineReplay.RuleTranscript` | internal/engine/engine.go:64-124 | after any history a rule has handed out 1 to Eligible once each and in order, with the selections its own selector and stream fix |
| `EngineReplay.Replay` | internal/engine/engine.go:43-93 | the i-th decision of a rule is the same in any two histories of a revision |
| `EngineReplay.PicksClosedForm` | internal/engine/engine.go:107-124 | how many of the first n requests each selector picks |
| `EngineReplay.SelectorCounts` | internal/engine/engine.go:77-124 | after any history Selected is Eligible / k for every k, and one exactly from the n-th on for nth n |
| `Revision.Build` | internal/engine/engine.go:43-62 | the nested loops give every proxy of the document fresh states for its rules, each with the stream of the document's seed, the proxy id and the rule id |
| `Revision.New` | internal/engine/engine.go:43-62 | a fresh engine with exactly these rules |
| `Revision.EqualBuildsSame` | internal/engine/engine.go:47-60 | Equal documents build the same engine, streams included, whatever the order of their proxies |
| `Revision.DocumentTranscript` | internal/engine/engine.go:43-124 | the i-th decision of a rule after any history is a function of the document |
| `Revision.DocumentReplay` | internal/engine/engine.go:43-124 | the i-th decision of a rule is the same in any two histories that start from Equal documents |
| `GrpcTimeout.LettersMean` | internal/proxy/grpc/protocol.go:24-38 | what up to eight digits and each of the six letters decode to, in nanoseconds |
| `GrpcTimeout.AcceptedExactly` | internal/proxy/grpc/protocol.go:21-34 | exactly which headers are accepted |
| `GrpcTimeout.HeaderOfChosen` | internal/proxy/grpc/protocol.go:48-63 | for every duration the encoder emits the finest unit whose value is at most 99999999 and never reaches its panic |
| `GrpcTimeout.RoundTrip` | internal/proxy/grpc/protocol.go:20-63 | every emitted header is accepted and means the relayed deadline, saturation included |
| `GrpcTimeout.NeverShorter` | internal/proxy/grpc/protocol.go:48-63 | the relayed deadline is never shorter than asked and less than one chosen unit longer |
| `GrpcTimeout.Monotone` | internal/proxy/grpc/protocol.go:48-63 | longer durations are never relayed as shorter ones, also across units |
| `GrpcTimeout.Idempotent` | internal/proxy/grpc/protocol.go:20-63 | a second hop changes nothing more |
| `TruncatedBody.Body.Read` | internal/fault/body.go:41-63 | one read delivers the next source bytes within the limit and reports truncation exactly when it applies the fault |
| `TruncatedBody.ReadAll` | internal/fault/body.go:41-63 | for any source and reader behaviour the reader gets a prefix of at most the limit; truncation means exactly limit bytes of a longer source; left alone it happens exactly then |
| `Config.NewDocument` | internal/config/config.go:159-193 | sorting and blanking in place give the two canonical fingerprints |
| `Config.AscendingUnique` | internal/config/config.go:161-169 | with distinct ids there is one ascending order, whatever the sorting algorithm |
| `Config.EqualIsUpToOrder` | internal/config/config.go:102-104 | documents are Equal exactly if they agree up to the order of their proxies |
| `Config.CompatibleIsSameInfrastructure` | internal/config/config.go:105-107 | compatible without a restart means the same runtime, TLS files and proxies apart from seed and rules |
| `Config.MergeDraft` | internal/control/remote/server.go:359-381 | accepts exactly a draft with one edit for every proxy and no other, and replaces rules only |
| `Config.ApplyEdit` | internal/control/remote/server.go:370-380 | an edit replaces the rules of the proxy with its id, and is refused exactly if there is none |
| `Config.AcceptableIsPermutation` | internal/control/remote/server.go:361-381 | a draft is accepted exactly if it names every active proxy, each once, and nothing else |
| `Config.DraftRules` | internal/control/remote/server.go:371-377 | each proxy ends up with the rules of its own edit |
| `Config.DraftKeepsRestartView` | internal/control/remote/server.go:359-381 | merging a draft changes nothing that needs a restart; with unchanged TLS files the merged document is compatible |
| `Control.Service.constructor` | internal/control/service.go:54-98 | a service starts disabled at the given revision |
| `Control.Service.SetEnabled` | internal/control/service.go:72-82 | switches injection and counts the change, or changes nothing |
| `Control.Service.Apply` | internal/control/service.go:101-151 | refuses, keeps or publishes as the operation's specification says, with a new engine exactly for a new document |
| `Control.SequenceCountsChanges` | internal/control/service.go:72-151 | over any run ControlSequence counts exactly the operations that reported a change |
| `Control.RevisionNamesDocument` | internal/control/service.go:112-151 | revisions only grow, and while the revision stays so do document and counters |
| `Control.UnchangedKeepsEverything` | internal/control/service.go:118-147 | a failed or equal apply leaves the whole snapshot as it was |
| `Control.SwitchIsLastToggle` | internal/control/service.go:72-151 | over any run the injection switch is where the last toggle put it; no apply moves it |
| `Control.SwitchStays` | internal/control/service.go:100-151 | a switch nobody toggled is where it started |
| `Control.ApplyPublishes` | internal/control/service.go:134-150 | a changing apply publishes exactly its own document, at the next revision and sequence, with a new engine and the old switch |
| `Control.ToggleSwitches` | internal/control/service.go:72-82 | a toggle moves the switch alone and says whether it did |
| `Control.ApplyEnds` | internal/control/service.go:101-150 | which error each refused apply returns and when an apply succeeds and reports a change, from revisions, documents, the managed flag and the storage |
| `Control.OneWinner` | internal/control/service.go:118-120 | of all changing applies with one expected revision at most one succeeds |
| `Control.ProxiesNeverChange` | internal/control/service.go:121-124 | every document ever published is validated and has the startup proxies |
| `Snapshots.Decide` | internal/control/service.go:36-38 | a snapshot asks its engine under the switch it was published with; when that is off, nothing is decided and nothing counted |
| `Snapshots.EngineNamesDocument` | internal/control/service.go:134-149 | no two documents ever share an engine, so requests of one revision never count for another |
| `Snapshots.ActCounts` | internal/control/service.go:36-38 | a request counts for the engine behind its snapshot; no operation on the service changes an engine in use |
| `Snapshots.AskedLater` | internal/control/service.go:27-38 | a flow that asks the snapshot it acquired earlier is counted by the engine of that time |
| `Snapshots.AlwaysKnown` | internal/control/service.go:121-149 | after any interleaving of toggles, applies and requests the engine behind every published snapshot knows exactly the startup proxies |
| `Snapshots.Request` | internal/engine/engine.go:64-69 | a request to a startup proxy through any published snapshot never meets an unknown proxy |
| `Snapshots.SnapshotReplay` | internal/control/service.go:29-38 | in any two interleavings, also of two processes, the i-th decision of a rule is the same when the documents are Equal |
| `SessionControl.EligibleByPinned` | internal/control/service.go:29-38 | a commit is eligible exactly if injection was on when the snapshot was acquired and a rule of the document of then covers it, whatever happens later |
| `SessionControl.PgPlaced` | internal/proxy/postgresql/session.go:271-314 | every PostgreSQL session can stand beside every service |
| `SessionControl.PgDecision` | internal/proxy/postgresql/session.go:271-314 | beside any run of the service, a PostgreSQL decision is the answer of the snapshot in force at the first frame of its command cycle |
| `SessionControl.PgDisabledCycle` | internal/proxy/postgresql/session.go:271-343 | a command cycle begun while injection is off never loses an acknowledgement, also if injection is on by its COMMIT |
| `SessionControl.MyPlaced` | internal/proxy/mysql/session.go:200-206 | every MySQL session can stand beside every service, with separate moments for acquiring and asking |
| `SessionControl.MyDecision` | internal/proxy/mysql/session.go:200-294 | whatever happens to the service between a COMMIT and its OK, a MySQL decision is the answer of the snapshot in force when the COMMIT arrived |
| `SessionControl.MyDisabledCommit` | internal/proxy/mysql/session.go:200-322 | a COMMIT that arrives while injection is off never loses its acknowledgement, also if injection is on by its OK |
| `SessionControl.SelectedByCount` | internal/engine/engine.go:73-124 | the m-th commit a rule owns, counted over all sessions of its revision, is selected exactly if its selector and its stream pick number m |
| `SessionControl.PgLoses` | internal/proxy/postgresql/session.go:304-343 | in a PostgreSQL session the m-th commit the rule owns loses its acknowledgement exactly if the rule picks number m and its fault takes it away |
| `SessionControl.MyLoses` | internal/proxy/mysql/session.go:254-339 | the same in a MySQL session |
| `Store.AppendAudit` | internal/control/remote/store.go:151-157 | the new entry is last and the trail is bounded |
| `Store.AuditIsNewest` | internal/control/remote/store.go:151-157 | however many entries were appended the trail is the newest thousand, in order |
| `Store.Store.AtomicFile` | internal/control/remote/store.go:54-79 | for an error at any point, which version is in place, and whether it is confirmed |
| `Store.Store.Save` | internal/control/remote/store.go:135-150 | success leaves one possible state after a crash; an error after the rename poisons the store; any other error changes nothing |
| `Store.Store.RecordAudit` | internal/control/remote/store.go:158-160 | success stores the entry durably, failure keeps the state |
| `Store.Store.Apply` | internal/control/remote/store.go:161-169 | success stores document, revision and audit entry together and durably |
| `Managed.ApplyRevision` | internal/control/service.go:108-151 | succeeds exactly if not refused and stored; then the file holds the published revision and text; a failure publishes nothing and keeps the store's state, poisoning it and leaving the new version in place exactly if it came after the rename |
| `Managed.SetEnabled` | internal/control/remote/server.go:230-238 | injection switches only after the audit entry is durable; a failure switches nothing |
| `Durability.StepKeeps` | internal/control/remote/store.go:54-169 | every step of saves, applies, kills and power losses keeps the instance's invariant |
| `Durability.LaunchState` | internal/control/remote/store.go:106-134 | a started process stands on the file, with injection off |
| `Durability.ManagedDurability` | internal/control/remote/store.go:54-169 | power lost at any moment of any run leaves one whole saved state: the last acknowledged or one whose save began later, with the revision and text of the bootstrap or of one apply, at most one revision past the published one; outside a save the file is the state the process stands on, at the published revision, with the text last applied |
| `Durability.PublishedMayBeLost` | internal/control/remote/store.go:106-150 | a published revision can be lost exactly if a rename that raised the revision was followed by a process start with no directory sync or power loss since |
| `Durability.LostPublication` | internal/control/remote/store.go:106-150 | a run that loses one |
| `Durability.AheadOfAcknowledged` | internal/control/remote/store.go:135-150 | recovery can be two or more revisions past the acknowledged one exactly if a changing apply was renamed while the published revision was not acknowledged, and nothing has caught up since |
| `Durability.TwoAhead` | internal/control/remote/store.go:106-150 | a run in which it is two past |

## Left out

- Sockets, TLS, deadlines, contexts and goroutine scheduling: they are parameters of a scenario or free steps of a machine.
- Partial bytes of a packet or frame whose write failed: session logs count whole messages; `Net` and `Framing` cover the bytes.
- Messages the readers refuse end the peer's input in a scenario, as the reader goroutine then cancels the session.
- The text of local error packets and frames: it is one value of the scenario.
- SQL classification: any total function from text to statement kinds; upper-casing and field splitting are not modelled.
- The database handshakes and authentication, and cancel requests.
- The HTTP and gRPC handlers: their behaviour lives in the standard library's reverse proxy.
- The throttling branch of `Body.Read` and the duration of pacing: only that a paced write may be abandoned.
- SHA-256 is a hash without collisions, with digests for which one exists (`Config.HashExists`); the per-rule generator is an arbitrary function of seed, proxy id and rule id; probabilities are reals.
- Case-insensitive header comparison is a parameter; validation of rules appears as preconditions of what it guarantees.
- YAML parsing and encoding: a stored config is a text next to its document; that parsing gives back an equal document is not assumed.
- The first bootstrap of a store and replacing infrastructure while stopped (`Configure`): one step that starts the model.
- Counters do not wrap at 2^64 upwards; running below zero would show, and is proved impossible.
- Login, sessions, roles, the admin socket, the command line and the browser interface.
