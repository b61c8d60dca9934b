/** Published snapshots and the engines behind them, while operations on the service and requests interleave. */
module Snapshots {
  import opened Config
  import opened Control
  import opened Engine
  import opened EngineReplay
  import opened Revision

  /** A request asks the snapshot its flow acquired: the one in force after the first `pinned` operations. */
  datatype Act = Operate(op: Op) | Ask(pinned: nat, proxy: string, metadata: Metadata)

  /** A running service: what it started with, the rules' random streams, and how header names compare. */
  datatype Instance = Instance(start: Snapshot, gen: Generator, same: SameName)

  /** The operations among the acts, in order. */
  function Ops(acts: seq<Act>): (ops: seq<Op>)
    ensures |ops| <= |acts|
  {
    if acts == [] then [] else
      Ops(acts[..|acts| - 1]) + if acts[|acts| - 1].Operate? then [acts[|acts| - 1].op] else []
  }

  function Published(v: Instance, ops: seq<Op>, n: nat): Snapshot
    requires n <= |ops|
  {
    Play(v.start, ops).snapshots[n]
  }

  /** What a flow acquires after these acts. */
  function Acquired(v: Instance, acts: seq<Act>): Snapshot {
    Published(v, Ops(acts), |Ops(acts)|)
  }

  function CallOf(s: Snapshot, proxy: string, metadata: Metadata): Call {
    Call(proxy, metadata, s.info.enabled)
  }

  /** The requests an engine has seen, in order, whoever asked and through whichever snapshot. */
  function Asked(v: Instance, acts: seq<Act>, engine: nat): seq<Call> {
    if acts == [] then [] else
      var before, act := acts[..|acts| - 1], acts[|acts| - 1];
      Asked(v, before, engine)
      + if act.Ask? && act.pinned <= |Ops(before)| && Published(v, Ops(before), act.pinned).engine == engine
        then [CallOf(Published(v, Ops(before), act.pinned), act.proxy, act.metadata)] else []
  }

  /** The rules behind a snapshot after these acts. */
  function RulesBehind(v: Instance, acts: seq<Act>, s: Snapshot): (rules: Rules)
    requires Validated(s.document.config)
    ensures AllInStep(rules) && rules.Keys == Ids(s.document.config.proxies)
  {
    RulesAfter(RulesOf(s.document.config, v.gen), Asked(v, acts, s.engine), v.same)
  }

  /** Asks an engine through a snapshot, under the switch the snapshot was published with. */
  method Decide(s: Snapshot, engine: Evaluator, proxy: string, metadata: Metadata, same: SameName)
      returns (d: Decision, known: bool)
    requires AllInStep(engine.rules)
    modifies engine
    ensures known <==> proxy in old(engine.rules)
    ensures d == DecisionOf(old(engine.rules), CallOf(s, proxy, metadata), same)
    ensures engine.rules == NextRules(old(engine.rules), CallOf(s, proxy, metadata), same) && AllInStep(engine.rules)
    ensures !s.info.enabled ==> d == NoRule(proxy) && engine.rules == old(engine.rules)
  {
    d, known := engine.Decide(CallOf(s, proxy, metadata), same);
  }

  /** Operations on the service take nothing back: a published snapshot stays as it was. */
  lemma {:induction false} PlayPrefix(start: Snapshot, ops: seq<Op>, n: nat, i: nat)
    requires i <= n <= |ops|
    ensures Play(start, ops[..n]).snapshots[i] == Play(start, ops).snapshots[i]
  {
    if n == |ops| {
      assert ops[..n] == ops;
    } else {
      PlayPrefix(start, ops[..|ops| - 1], n, i);
      assert ops[..|ops| - 1][..n] == ops[..n];
    }
  }

  lemma {:induction false} OpsPrefix(acts: seq<Act>, n: nat)
    requires n <= |acts|
    ensures Ops(acts[..n]) <= Ops(acts)
  {
    if n == |acts| {
      assert acts[..n] == acts;
    } else {
      OpsPrefix(acts[..|acts| - 1], n);
      assert acts[..|acts| - 1][..n] == acts[..n];
    }
  }

  /** What was acquired at an earlier moment is one of the snapshots published by now. */
  lemma AcquiredIsPublished(v: Instance, acts: seq<Act>, n: nat)
    requires n <= |acts|
    ensures |Ops(acts[..n])| <= |Ops(acts)| && Acquired(v, acts[..n]) == Published(v, Ops(acts), |Ops(acts[..n])|)
  {
    OpsPrefix(acts, n);
    var k := |Ops(acts[..n])|;
    PlayPrefix(v.start, Ops(acts), k, k);
    assert Ops(acts)[..k] == Ops(acts[..n]);
  }

  /** Engines are never shared by two documents, so the requests of one revision never count for another. */
  lemma {:induction false} EngineNamesDocument(start: Snapshot, ops: seq<Op>, i: nat, j: nat)
    requires i <= j <= |ops|
    ensures var a, b := Play(start, ops).snapshots[i], Play(start, ops).snapshots[j];
            && a.engine <= start.engine + i
            && (a.engine == b.engine ==> a.document == b.document)
            && (a.engine == b.engine || b.engine > start.engine + i)
    decreases j
  {
    if j == 0 {
    } else if i == j {
      EngineNamesDocument(start, ops, i - 1, j - 1);
      PlayStep(start, ops, j - 1);
    } else {
      EngineNamesDocument(start, ops, i, j - 1);
      PlayStep(start, ops, j - 1);
    }
  }

  /**
   * Everything about the service's documents the theorems rely on: all were validated, and the first has these proxies.
   */
  ghost predicate Proper(v: Instance, acts: seq<Act>, hash: Hash, ids: set<string>) {
    Injective(hash) && Serves(v.start.document, hash, ids) && AllMade(Ops(acts), hash)
  }

  /**
   * The engine behind every snapshot knows exactly the startup proxies, after any interleaving of operations and
   * requests.
   */
  lemma AlwaysKnown(v: Instance, acts: seq<Act>, hash: Hash, ids: set<string>, n: nat)
    requires Proper(v, acts, hash, ids) && n <= |Ops(acts)|
    ensures var s := Published(v, Ops(acts), n);
            Validated(s.document.config) && RulesBehind(v, acts, s).Keys == ids
  {
    ProxiesNeverChange(v.start, Ops(acts), hash, ids, n);
  }

  /** One more act: a request counts for the engine behind its snapshot, and nothing else changes an engine in use. */
  lemma ActCounts(v: Instance, acts: seq<Act>, act: Act, s: Snapshot)
    requires Validated(s.document.config)
    ensures RulesBehind(v, acts + [act], s) ==
            if act.Ask? && act.pinned <= |Ops(acts)| && Published(v, Ops(acts), act.pinned).engine == s.engine
            then NextRules(RulesBehind(v, acts, s),
                           CallOf(Published(v, Ops(acts), act.pinned), act.proxy, act.metadata), v.same)
            else RulesBehind(v, acts, s)
  {
    var asked := Asked(v, acts, s.engine);
    assert (acts + [act])[..|acts|] == acts;
    if act.Ask? && act.pinned <= |Ops(acts)| && Published(v, Ops(acts), act.pinned).engine == s.engine {
      var call := CallOf(Published(v, Ops(acts), act.pinned), act.proxy, act.metadata);
      assert Asked(v, acts + [act], s.engine) == asked + [call];
      assert (asked + [call])[..|asked|] == asked;
    } else {
      assert Asked(v, acts + [act], s.engine) == asked;
    }
  }

  /** A flow that acquired its snapshot after `m` acts and asks it now is counted by the engine behind that snapshot. */
  lemma {:induction false} AskedLater(v: Instance, before: seq<Act>, m: nat, act: Act)
    requires m <= |before| && act.Ask? && act.pinned == |Ops(before[..m])|
    ensures var s := Acquired(v, before[..m]);
            Asked(v, before + [act], s.engine) == Asked(v, before, s.engine) + [CallOf(s, act.proxy, act.metadata)]
  {
    AcquiredIsPublished(v, before, m);
    assert (before + [act])[..|before|] == before;
  }

  /**
   * A request to a startup proxy through any published snapshot: the engine knows it, and has counted it afterwards.
   */
  method Request(ghost v: Instance, ghost acts: seq<Act>, ghost hash: Hash, ghost ids: set<string>, ghost n: nat,
                 s: Snapshot, engine: Evaluator, proxy: string, metadata: Metadata, same: SameName)
    returns (d: Decision, known: bool)
    requires Proper(v, acts, hash, ids) && n <= |Ops(acts)| && s == Published(v, Ops(acts), n) && same == v.same
    requires Validated(s.document.config) && engine.rules == RulesBehind(v, acts, s) && proxy in ids
    modifies engine
    ensures known
    ensures d == DecisionOf(old(engine.rules), CallOf(s, proxy, metadata), same)
    ensures engine.rules == RulesBehind(v, acts + [Ask(n, proxy, metadata)], s)
  {
    AlwaysKnown(v, acts, hash, ids, n);
    ActCounts(v, acts, Ask(n, proxy, metadata), s);
    d, known := Decide(s, engine, proxy, metadata, same);
  }

  /** The decisions one rule of a snapshot's revision has handed out. */
  function Handed(v: Instance, acts: seq<Act>, s: Snapshot, proxy: string, k: nat): seq<Decision>
    requires Validated(s.document.config)
  {
    HandedOut(RulesOf(s.document.config, v.gen), Asked(v, acts, s.engine), v.same, proxy, k)
  }

  /**
   * Replay across services: in any two interleavings, also of two processes, the `i`-th decision of a rule is the same
   * when the documents behind the snapshots are Equal; the document alone determines it.
   */
  lemma SnapshotReplay(v: Instance, w: Instance, first: seq<Act>, second: seq<Act>, s: Snapshot, t: Snapshot,
                       hash: Hash,
                       proxy: string, k: nat, i: nat)
    requires v.gen == w.gen && v.same == w.same
    requires Injective(hash) && Made(s.document, hash) && Made(t.document, hash) && Equal(s.document, t.document)
    requires proxy in Ids(s.document.config.proxies) && k < |Find(s.document.config.proxies, proxy).rules|
    requires i < |Handed(v, first, s, proxy, k)| && i < |Handed(w, second, t, proxy, k)|
    ensures Handed(v, first, s, proxy, k)[i] == Handed(w, second, t, proxy, k)[i]
            == DocumentDecision(s.document.config, v.gen, proxy, k, i + 1)
  {
    DocumentReplay(s.document, t.document, hash, v.gen, Asked(v, first, s.engine), Asked(w, second, t.engine), v.same,
                   proxy, k, i);
  }
}
