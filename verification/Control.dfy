/** The control service: publication of configuration revisions and of the injection switch. */
module Control {
  import opened Bytes
  import opened Config

  datatype Info = Info(revision: nat, enabled: bool, sequence: nat)

  /** What a flow pins: the info, the document, and the engine that holds the counters of that revision. */
  datatype Snapshot = Snapshot(info: Info, document: Document, engine: nat)

  datatype Result = Result(changed: bool, info: Info)

  datatype Error = Conflict | RestartRequired | NotPersisted | PreconditionRequired

  datatype Outcome = Done(result: Result) | Failed(error: Error)

  /** What `apply` is about to do once the document has been looked at. */
  datatype Plan = Refuse(error: Error) | Keep | Publish(info: Info)

  function PlanOf(active: Snapshot, document: Document, expected: Option<nat>): Plan {
    if expected.Some? && expected.value != active.info.revision then Refuse(Conflict)
    else if !RestartCompatible(active.document, document) then Refuse(RestartRequired)
    else if Equal(active.document, document) then Keep
    else Publish(active.info.(revision := active.info.revision + 1, sequence := active.info.sequence + 1))
  }

  /** The service object; `engines` counts the engines built so far. */
  class Service {
    const managed: bool
    var active: Snapshot
    var engines: nat

    constructor (document: Document, revision: nat, managed: bool)
      requires revision > 0
      ensures active == Snapshot(Info(revision, false, 0), document, 0) && engines == 1 && this.managed == managed
    {
      this.managed := managed;
      active, engines := Snapshot(Info(revision, false, 0), document, 0), 1;
    }

    method Acquire() returns (s: Snapshot)
      ensures s == active
    {
      return active;
    }

    method SetEnabled(enabled: bool) returns (r: Result)
      modifies this
      ensures active == Step(old(active), old(engines), Toggle(enabled)).0 && engines == old(engines)
      ensures Done(r) == Step(old(active), old(engines), Toggle(enabled)).1
    {
      if active.info.enabled == enabled {
        return Result(false, active.info);
      }
      active := active.(info := active.info.(enabled := enabled));
      active := active.(info := active.info.(sequence := active.info.sequence + 1));
      return Result(true, active.info);
    }

    /** Publishes a document; `persists` is what the persistence callback of a managed service reports. */
    method Apply(document: Document, expected: Option<nat>, persists: bool) returns (o: Outcome)
      modifies this
      ensures var op := Change(document, expected, !managed || persists, managed);
              && active == Step(old(active), old(engines), op).0
              && o == Step(old(active), old(engines), op).1
      ensures engines == old(engines) || engines == old(engines) + 1
      ensures active.engine != old(active.engine) ==> active.engine == old(engines) && engines == old(engines) + 1
    {
      if managed && expected.None? {
        return Failed(PreconditionRequired);
      }
      if expected.Some? && expected.value != active.info.revision {
        return Failed(Conflict);
      }
      if !RestartCompatible(active.document, document) {
        return Failed(RestartRequired);
      }
      if Equal(active.document, document) {
        var result := Result(false, active.info);
        if managed && !persists {
          return Failed(NotPersisted);
        }
        return Done(result);
      }
      var engine := engines;
      engines := engines + 1;
      var next := active.info;
      next := next.(revision := next.revision + 1);
      next := next.(sequence := next.sequence + 1);
      if managed && !persists {
        return Failed(NotPersisted);
      }
      active := Snapshot(next, document, engine);
      return Done(Result(true, next));
    }
  }

  /** One operation on the service; `stored`: nothing keeps the change from being stored. */
  datatype Op =
    | Toggle(enabled: bool)
    | Change(document: Document, expected: Option<nat>, stored: bool, managed: bool)

  /** The active snapshot after an operation, and what the caller is told. */
  function Step(active: Snapshot, engines: nat, op: Op): (Snapshot, Outcome) {
    match op
    case Toggle(enabled) =>
      if active.info.enabled == enabled then (active, Done(Result(false, active.info))) else
        var info := active.info.(enabled := enabled, sequence := active.info.sequence + 1);
        (active.(info := info), Done(Result(true, info)))
    case Change(document, expected, stored, managed) =>
      if managed && expected.None? then (active, Failed(PreconditionRequired)) else
        match PlanOf(active, document, expected)
        case Refuse(error) => (active, Failed(error))
        case Keep => (active, if stored then Done(Result(false, active.info)) else Failed(NotPersisted))
        case Publish(info) =>
          if stored then (Snapshot(info, document, engines), Done(Result(true, info)))
              else (active, Failed(NotPersisted))
  }

  /** A run: operations in the order they take the publication lock. */
  datatype Run = Run(snapshots: seq<Snapshot>, outcomes: seq<Outcome>)

  function Play(start: Snapshot, ops: seq<Op>): (r: Run)
    ensures |r.snapshots| == |ops| + 1 && |r.outcomes| == |ops|
    ensures r.snapshots[0] == start
  {
    if ops == [] then Run([start], []) else
      var before := Play(start, ops[..|ops| - 1]);
      var (active, outcome) := Step(before.snapshots[|ops| - 1], start.engine + |ops|, ops[|ops| - 1]);
      Run(before.snapshots + [active], before.outcomes + [outcome])
  }

  lemma {:induction false} PlayStep(start: Snapshot, ops: seq<Op>, i: nat)
    requires i < |ops|
    ensures (Play(start, ops).snapshots[i + 1], Play(start, ops).outcomes[i])
            == Step(Play(start, ops).snapshots[i], start.engine + i + 1, ops[i])
  {
    var before := ops[..|ops| - 1];
    if i == |before| {
    } else {
      PlayStep(start, before, i);
    }
  }

  /** Whether a result reports a real change. */
  predicate Changed(o: Outcome) {
    o.Done? && o.result.changed
  }

  function Changes(os: seq<Outcome>): nat {
    if os == [] then 0 else Changes(os[..|os| - 1]) + if Changed(os[|os| - 1]) then 1 else 0
  }

  /** ControlSequence counts exactly the operations that reported a change. */
  lemma {:induction false} SequenceCountsChanges(start: Snapshot, ops: seq<Op>)
    ensures Play(start, ops).snapshots[|ops|].info.sequence == start.info.sequence + Changes(Play(start, ops).outcomes)
  {
    if ops == [] {
    } else {
      SequenceCountsChanges(start, ops[..|ops| - 1]);
      PlayStep(start, ops, |ops| - 1);
      var r, before := Play(start, ops), Play(start, ops[..|ops| - 1]);
      assert r.outcomes[..|ops| - 1] == before.outcomes;
      assert r.snapshots[|ops| - 1] == before.snapshots[|ops| - 1];
    }
  }

  /**
   * From one point of a run to a later one the revision only grows, and while it stays the same so do document and
   * counters.
   */
  lemma {:induction false} RevisionNamesDocument(start: Snapshot, ops: seq<Op>, i: nat, j: nat)
    requires i <= j <= |ops|
    ensures var a, b := Play(start, ops).snapshots[i], Play(start, ops).snapshots[j];
            && a.info.revision <= b.info.revision
            && (a.info.revision == b.info.revision ==> a.document == b.document && a.engine == b.engine)
    decreases j - i
  {
    if i == j {
    } else {
      RevisionNamesDocument(start, ops, i + 1, j);
      PlayStep(start, ops, i);
    }
  }

  /** A failed or unchanged operation leaves the whole snapshot, counters included, as it was. */
  lemma UnchangedKeepsEverything(start: Snapshot, ops: seq<Op>, i: nat)
    requires i < |ops| && !Changed(Play(start, ops).outcomes[i])
    ensures Play(start, ops).snapshots[i + 1] == Play(start, ops).snapshots[i]
  {
    PlayStep(start, ops, i);
  }

  /** Operation `i` changed the document under the precondition that revision `expected` is active. */
  ghost predicate Applied(start: Snapshot, ops: seq<Op>, i: nat, expected: nat) {
    i < |ops| && ops[i].Change? && ops[i].expected == Some(expected) && Changed(Play(start, ops).outcomes[i])
  }

  /** Of all changing applies with the same expected revision at most one succeeds. */
  lemma OneWinner(start: Snapshot, ops: seq<Op>, i: nat, j: nat, expected: nat)
    requires Applied(start, ops, i, expected) && Applied(start, ops, j, expected)
    ensures i == j
  {
    PlayStep(start, ops, i);
    PlayStep(start, ops, j);
    if i < j {
      RevisionNamesDocument(start, ops, i + 1, j);
    } else if j < i {
      RevisionNamesDocument(start, ops, j + 1, i);
    }
  }

  /** The injection switch is where the last toggle put it; no apply moves it. */
  lemma {:induction false} SwitchIsLastToggle(start: Snapshot, ops: seq<Op>, i: nat, j: nat)
    requires i < j <= |ops| && ops[i].Toggle? && forall k :: i < k < j ==> ops[k].Change?
    ensures Play(start, ops).snapshots[j].info.enabled == ops[i].enabled
    decreases j
  {
    PlayStep(start, ops, j - 1);
    if j == i + 1 {
    } else {
      SwitchIsLastToggle(start, ops, i, j - 1);
    }
  }

  /** A switch nobody toggled is where it started. */
  lemma {:induction false} SwitchStays(start: Snapshot, ops: seq<Op>, j: nat)
    requires j <= |ops| && forall k :: 0 <= k < j ==> ops[k].Change?
    ensures Play(start, ops).snapshots[j].info.enabled == start.info.enabled
  {
    if j == 0 {
    } else {
      SwitchStays(start, ops, j - 1);
      PlayStep(start, ops, j - 1);
    }
  }

  /**
   * A changing apply publishes exactly its own document, at the next revision, with a new engine and the old switch.
   */
  lemma {:induction false} ApplyPublishes(start: Snapshot, ops: seq<Op>, i: nat)
    requires i < |ops| && ops[i].Change? && Changed(Play(start, ops).outcomes[i])
    ensures var a, b := Play(start, ops).snapshots[i], Play(start, ops).snapshots[i + 1];
            && b.document == ops[i].document
            && b.info.revision == a.info.revision + 1 && b.info.sequence == a.info.sequence + 1
            && b.info.enabled == a.info.enabled
            && b.engine == start.engine + i + 1
            && Play(start, ops).outcomes[i] == Done(Result(true, b.info))
  {
    PlayStep(start, ops, i);
  }

  /** A toggle changes the switch alone, and says whether it did. */
  lemma {:induction false} ToggleSwitches(start: Snapshot, ops: seq<Op>, i: nat)
    requires i < |ops| && ops[i].Toggle?
    ensures var a, b := Play(start, ops).snapshots[i], Play(start, ops).snapshots[i + 1];
            && b.document == a.document && b.engine == a.engine && b.info.revision == a.info.revision
            && b.info.enabled == ops[i].enabled
            && Play(start, ops).outcomes[i] == Done(Result(a.info.enabled != ops[i].enabled, b.info))
  {
    PlayStep(start, ops, i);
  }

  /** What needs a restart: runtime limits, TLS files, and everything about the proxies but their rules. */
  ghost predicate SameInfrastructure(a: Document, b: Document) {
    && a.config.runtime == b.config.runtime && a.tls == b.tls
    && multiset(BlankAll(a.config.proxies)) == multiset(BlankAll(b.config.proxies))
  }

  /** The same content, up to the order of proxies. */
  ghost predicate SameContent(a: Document, b: Document) {
    && a.config.seed == b.config.seed && a.config.runtime == b.config.runtime && a.tls == b.tls
    && multiset(a.config.proxies) == multiset(b.config.proxies)
  }

  /** Nothing but the document and the storage can make the apply fail. */
  predicate Proceeds(a: Snapshot, op: Op)
    requires op.Change?
  {
    if op.expected.None? then !op.managed else op.expected.value == a.info.revision
  }

  lemma {:induction false} StepEnds(a: Snapshot, engines: nat, op: Op)
    requires op.Change?
    ensures var o := Step(a, engines, op).1;
            && (o == Failed(PreconditionRequired) <==> op.managed && op.expected.None?)
            && (o == Failed(Conflict) <==> op.expected.Some? && op.expected.value != a.info.revision)
            && (o == Failed(RestartRequired) <==> Proceeds(a, op) && !RestartCompatible(a.document, op.document))
            && (o == Failed(NotPersisted) <==>
                Proceeds(a, op) && RestartCompatible(a.document, op.document) && !op.stored)
            && (o.Done? <==> Proceeds(a, op) && RestartCompatible(a.document, op.document) && op.stored)
            && (o.Done? ==> (o.result.changed <==> !Equal(a.document, op.document)))
  {
  }

  /** How every apply ends, from the revisions, the documents, the managed flag and the storage alone. */
  lemma {:induction false} ApplyEnds(start: Snapshot, ops: seq<Op>, i: nat, hash: Hash)
    requires i < |ops| && ops[i].Change? && Injective(hash)
    requires Made(Play(start, ops).snapshots[i].document, hash) && Made(ops[i].document, hash)
    ensures var a, op, o := Play(start, ops).snapshots[i], ops[i], Play(start, ops).outcomes[i];
            && (o == Failed(PreconditionRequired) <==> op.managed && op.expected.None?)
            && (o == Failed(Conflict) <==> op.expected.Some? && op.expected.value != a.info.revision)
            && (o == Failed(RestartRequired) <==> Proceeds(a, op) && !SameInfrastructure(a.document, op.document))
            && (o == Failed(NotPersisted) <==>
                Proceeds(a, op) && SameInfrastructure(a.document, op.document) && !op.stored)
            && (o.Done? <==> Proceeds(a, op) && SameInfrastructure(a.document, op.document) && op.stored)
            && (o.Done? ==> (o.result.changed <==> !SameContent(a.document, op.document)))
  {
    var a := Play(start, ops).snapshots[i];
    PlayStep(start, ops, i);
    StepEnds(a, start.engine + i + 1, ops[i]);
    InfrastructureTells(a.document, ops[i].document, hash);
  }

  lemma {:induction false} InfrastructureTells(a: Document, b: Document, hash: Hash)
    requires Injective(hash) && Made(a, hash) && Made(b, hash)
    ensures RestartCompatible(a, b) <==> SameInfrastructure(a, b)
    ensures Equal(a, b) <==> SameContent(a, b)
  {
    CompatibleIsSameInfrastructure(a, b, hash);
    EqualIsUpToOrder(a, b, hash);
  }

  ghost predicate AllMade(ops: seq<Op>, hash: Hash) {
    forall i :: 0 <= i < |ops| && ops[i].Change? ==> Made(ops[i].document, hash)
  }

  /** A document of the run: made from a validated config, with these proxy ids. */
  ghost predicate Serves(d: Document, hash: Hash, ids: set<string>) {
    Made(d, hash) && Ids(d.config.proxies) == ids
  }

  lemma CompatibleServes(a: Document, b: Document, hash: Hash, ids: set<string>)
    requires Injective(hash) && Serves(a, hash, ids) && Made(b, hash) && RestartCompatible(a, b)
    ensures Serves(b, hash, ids)
  {
    CompatibleKeepsIds(a, b, hash);
  }

  /** Where a step takes its document from. */
  lemma StepDocument(active: Snapshot, engines: nat, op: Op)
    ensures var d := Step(active, engines, op).0.document;
            d == active.document || (op.Change? && d == op.document && RestartCompatible(active.document, d))
  {
  }

  lemma {:induction false} ServedForever(docs: seq<Document>, hash: Hash, ids: set<string>, i: nat)
    requires Injective(hash) && i < |docs| && Serves(docs[0], hash, ids)
    requires forall k :: 0 < k < |docs| && docs[k] != docs[k - 1] ==>
             Made(docs[k], hash) && RestartCompatible(docs[k - 1], docs[k])
    ensures Serves(docs[i], hash, ids)
  {
    if i == 0 {
    } else {
      ServedForever(docs, hash, ids, i - 1);
      if docs[i] != docs[i - 1] {
        CompatibleServes(docs[i - 1], docs[i], hash, ids);
      }
    }
  }

  lemma {:induction false} DocumentStep(start: Snapshot, ops: seq<Op>, k: nat)
    requires k < |ops|
    ensures var d, d' := Play(start, ops).snapshots[k].document, Play(start, ops).snapshots[k + 1].document;
            d' == d || (ops[k].Change? && d' == ops[k].document && RestartCompatible(d, d'))
  {
    PlayStep(start, ops, k);
    StepDocument(Play(start, ops).snapshots[k], start.engine + k + 1, ops[k]);
  }

  function Documents(start: Snapshot, ops: seq<Op>): (docs: seq<Document>)
    ensures |docs| == |ops| + 1 && forall k :: 0 <= k < |docs| ==> docs[k] == Play(start, ops).snapshots[k].document
  {
    seq(|ops| + 1, k requires 0 <= k <= |ops| => Play(start, ops).snapshots[k].document)
  }

  /** Every published document has the startup proxies. */
  lemma {:induction false} ProxiesNeverChange(start: Snapshot, ops: seq<Op>, hash: Hash, ids: set<string>, i: nat)
    requires Injective(hash) && Serves(start.document, hash, ids) && AllMade(ops, hash) && i <= |ops|
    ensures Serves(Play(start, ops).snapshots[i].document, hash, ids)
  {
    var docs := Documents(start, ops);
    forall k | 0 < k < |docs| && docs[k] != docs[k - 1]
      ensures Made(docs[k], hash) && RestartCompatible(docs[k - 1], docs[k])
    {
      DocumentStep(start, ops, k - 1);
    }
    ServedForever(docs, hash, ids, i);
  }
}
