/** Database sessions beside a running service: which snapshot a fault decision really asks. */
module SessionControl {
  import opened Bytes
  import opened Config
  import opened Control
  import opened Engine
  import opened EngineReplay
  import opened Revision
  import opened Snapshots
  import opened Flow
  import My = MySqlSession
  import MySafe = MySqlSafety
  import Pg = PgSession
  import PgSafe = PgSafety

  /**
   * A service and one session of its proxy `proxy`: `acts` is everything that happens to the service, by whomever, and
   * `at(n)` how much of it comes before the session's step `n`.  `faults` are the commit faults the rules name.
   */
  datatype Side = Side(instance: Instance, acts: seq<Act>, at: nat -> nat, proxy: string, faults: nat -> CommitFault)

  const NO_METADATA := Metadata("", "", "", map[])

  ghost predicate ValidSide(c: Side, hash: Hash, ids: set<string>) {
    && Proper(c.instance, c.acts, hash, ids) && c.proxy in ids
    && (forall p: nat, n: nat :: p <= n ==> c.at(p) <= c.at(n))
    && (forall n: nat :: c.at(n) <= |c.acts|)
    && (forall f: nat :: ValidFault(c.faults(f)))
  }

  function Before(c: Side, n: nat): seq<Act> {
    if c.at(n) <= |c.acts| then c.acts[..c.at(n)] else c.acts
  }

  /** The snapshot the session acquires at step `p`. */
  function Pinned(c: Side, p: nat): Snapshot {
    Acquired(c.instance, Before(c, p))
  }

  /** The answer of that snapshot's engine when the session asks it at step `n`. */
  function Answer(c: Side, p: nat, n: nat): Decision
    requires Validated(Pinned(c, p).document.config)
  {
    DecisionOf(RulesBehind(c.instance, Before(c, n), Pinned(c, p)), CallOf(Pinned(c, p), c.proxy, NO_METADATA),
               c.instance.same)
  }

  /** That answer as the session sees it; every published document is validated. */
  function VerdictAt(c: Side, p: nat, n: nat): Verdict {
    if !Validated(Pinned(c, p).document.config) then Verdict(false, false, c.faults(0)) else
      var d := Answer(c, p, n);
      Verdict(d.rule != "", d.selected, c.faults(d.fault))
  }

  /** Some enabled rule of the document matches a commit. */
  ghost predicate Covers(d: Document, proxy: string, same: SameName)
    requires proxy in Ids(d.config.proxies)
  {
    var rules := Find(d.config.proxies, proxy).rules;
    exists k :: 0 <= k < |rules| && rules[k].enabled && RuleMatches(rules[k].matcher, NO_METADATA, same)
  }

  lemma PinnedIsProper(c: Side, hash: Hash, ids: set<string>, p: nat)
    requires ValidSide(c, hash, ids)
    ensures Serves(Pinned(c, p).document, hash, ids)
  {
    var k := c.at(p);
    AcquiredIsPublished(c.instance, c.acts, k);
    ProxiesNeverChange(c.instance.start, Ops(c.acts), hash, ids, |Ops(c.acts[..k])|);
  }

  /** The engine behind a snapshot has the document's rules, whatever it has counted. */
  lemma RulesStay(c: Config, gen: Generator, calls: seq<Call>, same: SameName, proxy: string, k: nat)
    requires Validated(c) && proxy in Ids(c.proxies) && k < |Find(c.proxies, proxy).rules|
    ensures RulesAfter(RulesOf(c, gen), calls, same)[proxy][k].rule == Find(c.proxies, proxy).rules[k]
  {
    RuleTranscript(RulesOf(c, gen), calls, same, proxy, k);
  }

  /** An owner is found exactly if some rule covers the request, whatever the counters. */
  lemma {:induction false} OwnerCovers(states: seq<RuleState>, rules: seq<Rule>, d: Metadata, same: SameName)
    requires |states| == |rules| && forall k :: 0 <= k < |rules| ==> states[k].rule == rules[k]
    ensures Owner(states, d, same).Some?
            <==> exists k :: 0 <= k < |rules| && rules[k].enabled && RuleMatches(rules[k].matcher, d, same)
  {
    var owner := Owner(states, d, same);
    if owner.Some? {
      assert Owns(states[owner.value], d, same);
    } else {
      assert forall k :: 0 <= k < |rules| ==> !Owns(states[k], d, same);
    }
  }

  lemma {:induction false} DecisionCovers(rules: Rules, document: seq<Rule>, call: Call, same: SameName)
    requires AllInStep(rules) && call.proxy in rules && |rules[call.proxy]| == |document|
    requires forall k :: 0 <= k < |document| ==> rules[call.proxy][k].rule == document[k] && document[k].id != ""
    ensures var d := DecisionOf(rules, call, same);
            && (d.rule != "" <==> call.enabled && exists k :: 0 <= k < |document| && document[k].enabled
                                                              && RuleMatches(document[k].matcher, call.metadata, same))
            && (d.selected ==> d.rule != "")
  {
    OwnerCovers(rules[call.proxy], document, call.metadata, same);
  }

  /**
   * Who decides: a commit is eligible exactly if injection was on when the snapshot was acquired and a rule of the
   * document published then covers it.  What the service does later does not matter.
   */
  lemma {:induction false} EligibleByPinned(c: Side, hash: Hash, ids: set<string>, p: nat, n: nat)
    requires ValidSide(c, hash, ids)
    ensures Serves(Pinned(c, p).document, hash, ids)
    ensures var v := VerdictAt(c, p, n);
            && ValidVerdict(v)
            && (v.eligible <==> Pinned(c, p).info.enabled && Covers(Pinned(c, p).document, c.proxy, c.instance.same))
  {
    PinnedIsProper(c, hash, ids, p);
    var s := Pinned(c, p);
    var config := s.document.config;
    var rules: Rules := RulesBehind(c.instance, Before(c, n), s);
    FoundAreValid(config);
    forall k | 0 <= k < |rules[c.proxy]|
      ensures rules[c.proxy][k].rule == Find(config.proxies, c.proxy).rules[k]
    {
      RulesStay(config, c.instance.gen, Asked(c.instance, Before(c, n), s.engine), c.instance.same, c.proxy, k);
    }
    DecisionCovers(rules, Find(config.proxies, c.proxy).rules, CallOf(s, c.proxy, NO_METADATA), c.instance.same);
  }

  /** The rule of the document that owns commits: the first that covers them. */
  ghost predicate Owning(d: Document, proxy: string, same: SameName, k: nat)
    requires proxy in Ids(d.config.proxies)
  {
    var rules := Find(d.config.proxies, proxy).rules;
    && k < |rules| && rules[k].enabled && RuleMatches(rules[k].matcher, NO_METADATA, same)
    && forall j :: 0 <= j < k ==> !(rules[j].enabled && RuleMatches(rules[j].matcher, NO_METADATA, same))
  }

  /** What that rule does with the `m`-th commit it owns, as the document alone determines it. */
  ghost predicate PicksCommit(c: Config, gen: Generator, proxy: string, k: nat, m: nat)
    requires Validated(c) && proxy in Ids(c.proxies) && k < |Find(c.proxies, proxy).rules| && m > 0
  {
    FoundAreValid(c);
    var rule := Find(c.proxies, proxy).rules[k];
    Picks(rule, gen(c.seed, proxy, rule.id), m)
  }

  /** The session's question at step `n`, to the snapshot of step `p`, is one of the service's acts. */
  ghost predicate OwnAsk(c: Side, p: nat, n: nat) {
    c.at(n) < |c.acts| && c.acts[c.at(n)] == Ask(|Ops(Before(c, p))|, c.proxy, NO_METADATA)
  }

  /** How many commits the rule has owned by then, this one included, over all sessions that asked its revision. */
  ghost function Owned(c: Side, p: nat, n: nat, k: nat): nat
    requires c.at(n) < |c.acts| && Validated(Pinned(c, p).document.config)
  {
    |Handed(c.instance, c.acts[..c.at(n) + 1], Pinned(c, p), c.proxy, k)|
  }

  /** One request to the engine of a document: the owner hands out its next decision. */
  lemma {:induction false} NextHanded(c: Config, gen: Generator, calls: seq<Call>, call: Call, same: SameName, k: nat)
    requires Validated(c) && call.proxy in Ids(c.proxies) && call.enabled && call.metadata == NO_METADATA
    requires var rules := Find(c.proxies, call.proxy).rules;
             && k < |rules| && rules[k].enabled && RuleMatches(rules[k].matcher, NO_METADATA, same)
             && forall j :: 0 <= j < k ==> !(rules[j].enabled && RuleMatches(rules[j].matcher, NO_METADATA, same))
    ensures var d := DecisionOf(RulesAfter(RulesOf(c, gen), calls, same), call, same);
            var handed := HandedOut(RulesOf(c, gen), calls + [call], same, call.proxy, k);
            && handed == HandedOut(RulesOf(c, gen), calls, same, call.proxy, k) + [d]
            && d.fault == Find(c.proxies, call.proxy).rules[k].fault
            && (d.selected <==> PicksCommit(c, gen, call.proxy, k, |handed|))
  {
    var rules, p := RulesOf(c, gen), Find(c.proxies, call.proxy);
    var now: Rules := RulesAfter(rules, calls, same);
    forall j | 0 <= j < |p.rules|
      ensures now[call.proxy][j].rule == p.rules[j]
    {
      RulesStay(c, gen, calls, same, call.proxy, j);
    }
    forall j | 0 <= j < k
      ensures !Owns(now[call.proxy][j], NO_METADATA, same)
    {
    }
    OwnerAt(now[call.proxy], NO_METADATA, same, k);
    RuleTranscript(rules, calls, same, call.proxy, k);
    assert (calls + [call])[..|calls|] == calls;
  }

  /** The session's own question counts for the engine of the snapshot it acquired. */
  lemma {:induction false} OwnAskCounts(c: Side, hash: Hash, ids: set<string>, p: nat, n: nat)
    requires ValidSide(c, hash, ids) && p <= n && OwnAsk(c, p, n)
    ensures var s := Pinned(c, p);
            Asked(c.instance, c.acts[..c.at(n) + 1], s.engine)
            == Asked(c.instance, Before(c, n), s.engine) + [CallOf(s, c.proxy, NO_METADATA)]
  {
    var before := c.acts[..c.at(n)];
    assert before[..c.at(p)] == c.acts[..c.at(p)];
    assert c.acts[..c.at(n) + 1] == before + [c.acts[c.at(n)]];
    AskedLater(c.instance, before, c.at(p), c.acts[c.at(n)]);
  }

  /**
   * Which commits are selected: the `m`-th commit a rule owns, counted over all sessions of its revision, is selected
   * exactly if its selector and its random stream pick number `m`.
   */
  lemma {:induction false} SelectedByCount(c: Side, hash: Hash, ids: set<string>, p: nat, n: nat, k: nat)
    requires ValidSide(c, hash, ids) && p <= n && OwnAsk(c, p, n)
    requires Serves(Pinned(c, p).document, hash, ids) && Pinned(c, p).info.enabled
    requires Owning(Pinned(c, p).document, c.proxy, c.instance.same, k)
    ensures var config, v := Pinned(c, p).document.config, VerdictAt(c, p, n);
            && Owned(c, p, n, k) > 0
            && (v.selected <==> PicksCommit(config, c.instance.gen, c.proxy, k, Owned(c, p, n, k)))
            && v.fault == c.faults(Find(config.proxies, c.proxy).rules[k].fault)
  {
    var s := Pinned(c, p);
    OwnAskCounts(c, hash, ids, p, n);
    NextHanded(s.document.config, c.instance.gen, Asked(c.instance, Before(c, n), s.engine),
               CallOf(s, c.proxy, NO_METADATA), c.instance.same, k);
  }

  /** A PostgreSQL session whose decisions are this service's. */
  ghost predicate PgBeside(c: Side, s: Pg.Scenario, hash: Hash, ids: set<string>) {
    && ValidSide(c, hash, ids)
    && forall p: nat, n: nat :: s.verdicts(p, n) == VerdictAt(c, p, n)
  }

  /** Any session, put beside a service. */
  function PgWith(c: Side, s: Pg.Scenario): Pg.Scenario {
    s.(verdicts := (p: nat, n: nat) => VerdictAt(c, p, n))
  }

  lemma {:induction false} PgPlaced(c: Side, s: Pg.Scenario, hash: Hash, ids: set<string>)
    requires ValidSide(c, hash, ids)
    ensures PgBeside(c, PgWith(c, s), hash, ids) && Pg.ValidScenario(PgWith(c, s))
  {
    forall p: nat, n: nat
      ensures ValidVerdict(VerdictAt(c, p, n))
    {
      EligibleByPinned(c, hash, ids, p, n);
    }
  }

  /** A command cycle has one first frame. */
  lemma OneCycle(steps: seq<Pg.Step>, a: nat, b: nat, i: nat)
    requires PgSafe.CycleOf(steps, a, i) && PgSafe.CycleOf(steps, b, i)
    ensures a == b
  {
  }

  /**
   * Whatever toggles, applies and requests of others interleave: a decision in a PostgreSQL session is the answer of
   * the snapshot in force at the first frame of its command cycle.  It is eligible exactly if injection was on then and
   * the document of then covers commits.
   */
  lemma {:induction false} PgDecision(c: Side, s: Pg.Scenario, hash: Hash, ids: set<string>, steps: seq<Pg.Step>,
                                      a: nat, i: nat)
    requires PgBeside(c, s, hash, ids) && Pg.Chronicle(s, steps)
    requires i < |steps| && PgSafe.CycleOf(steps, a, i) && steps[i].verdict.Some?
    ensures Serves(Pinned(c, a).document, hash, ids)
    ensures steps[i].verdict.value == VerdictAt(c, a, i)
    ensures steps[i].verdict.value.eligible
            <==> Pinned(c, a).info.enabled && Covers(Pinned(c, a).document, c.proxy, c.instance.same)
  {
    PgSafe.DecisionSafety(s, steps, i);
    var b: nat :| PgSafe.CycleOf(steps, b, i) && steps[i].verdict == Some(s.verdicts(b, i));
    OneCycle(steps, a, b, i);
    EligibleByPinned(c, hash, ids, a, i);
  }

  /**
   * A command cycle begun while injection is off never loses an acknowledgement, also if injection is on by its COMMIT.
   */
  lemma {:induction false} PgDisabledCycle(c: Side, s: Pg.Scenario, hash: Hash, ids: set<string>, steps: seq<Pg.Step>,
                                           a: nat, i: nat)
    requires PgBeside(c, s, hash, ids) && Pg.Chronicle(s, steps)
    requires i < |steps| && PgSafe.CycleOf(steps, a, i) && !Pinned(c, a).info.enabled
    ensures !steps[i].lost && (steps[i].verdict.Some? ==> !steps[i].verdict.value.eligible)
  {
    PgSafe.StepAt(s, steps, i);
    if steps[i].verdict.Some? {
      PgDecision(c, s, hash, ids, steps, a, i);
      EligibleByPinned(c, hash, ids, a, i);
    }
  }

  /** The fault takes the acknowledgement away from the client. */
  predicate Takes(f: CommitFault, timerFirst: bool) {
    f.action.Delay? ==> !timerFirst
  }

  /**
   * Which acknowledgements are lost in a PostgreSQL session: the `m`-th commit the rule owns loses its acknowledgement
   * exactly if the rule picks number `m` and its fault takes it away.
   */
  lemma {:induction false} PgLoses(c: Side, s: Pg.Scenario, hash: Hash, ids: set<string>, steps: seq<Pg.Step>, a: nat,
                                   i: nat, k: nat)
    requires PgBeside(c, s, hash, ids) && Pg.Chronicle(s, steps)
    requires i < |steps| && PgSafe.CycleOf(steps, a, i) && steps[i].verdict.Some? && OwnAsk(c, a, i)
    requires Serves(Pinned(c, a).document, hash, ids) && Pinned(c, a).info.enabled
    requires Owning(Pinned(c, a).document, c.proxy, c.instance.same, k)
    ensures var config := Pinned(c, a).document.config;
            && Owned(c, a, i, k) > 0
            && (steps[i].lost <==> PicksCommit(config, c.instance.gen, c.proxy, k, Owned(c, a, i, k))
                                   && Takes(c.faults(Find(config.proxies, c.proxy).rules[k].fault), s.timers(i)))
  {
    PgSafe.StepAt(s, steps, i);
    PgDecision(c, s, hash, ids, steps, a, i);
    SelectedByCount(c, hash, ids, a, i, k);
  }

  /**
   * A MySQL turn `n` has two moments: `2 * n` when its command arrives and acquires a snapshot, and `2 * n + 1` when
   * that snapshot is asked, after the upstream's OK was read.
   */
  function TurnVerdict(c: Side, n: nat): Verdict {
    VerdictAt(c, 2 * n, 2 * n + 1)
  }

  /** A MySQL session whose decisions are this service's. */
  ghost predicate MyBeside(c: Side, s: My.Scenario, hash: Hash, ids: set<string>) {
    && ValidSide(c, hash, ids)
    && forall n: nat :: s.verdicts(n) == TurnVerdict(c, n)
  }

  function MyWith(c: Side, s: My.Scenario): My.Scenario {
    s.(verdicts := (n: nat) => TurnVerdict(c, n))
  }

  lemma {:induction false} MyPlaced(c: Side, s: My.Scenario, hash: Hash, ids: set<string>)
    requires ValidSide(c, hash, ids) && My.ValidScenario(s)
    ensures MyBeside(c, MyWith(c, s), hash, ids) && My.ValidScenario(MyWith(c, s))
  {
    forall n: nat
      ensures ValidVerdict(TurnVerdict(c, n))
    {
      EligibleByPinned(c, hash, ids, 2 * n, 2 * n + 1);
    }
  }

  lemma {:induction false} TurnAsks(c: Side, s: My.Scenario, hash: Hash, ids: set<string>, turns: seq<My.Turn>, i: nat)
    requires MyBeside(c, s, hash, ids) && My.ValidScenario(s) && My.Chronicle(s, turns) && i < |turns|
    ensures turns[i].verdict.Some? ==> turns[i].verdict.value == TurnVerdict(c, i)
    ensures turns[i].lost <==> turns[i].verdict.Some? && Loses(TurnVerdict(c, i), s.timers(i))
  {
    MySafe.TurnAt(s, turns, i);
  }

  /**
   * Whatever happens to the service between the COMMIT and its OK, a MySQL decision is the answer of the snapshot in
   * force when the COMMIT arrived; it is eligible exactly if injection was on then and the document of then covers it.
   */
  lemma {:induction false} MyDecision(c: Side, s: My.Scenario, hash: Hash, ids: set<string>, turns: seq<My.Turn>,
                                      i: nat)
    requires MyBeside(c, s, hash, ids) && My.ValidScenario(s) && My.Chronicle(s, turns) && i < |turns|
    ensures Serves(Pinned(c, 2 * i).document, hash, ids)
    ensures turns[i].verdict.Some? ==>
              && turns[i].verdict.value == VerdictAt(c, 2 * i, 2 * i + 1)
              && (turns[i].verdict.value.eligible
                  <==> Pinned(c, 2 * i).info.enabled && Covers(Pinned(c, 2 * i).document, c.proxy, c.instance.same))
  {
    TurnAsks(c, s, hash, ids, turns, i);
    EligibleByPinned(c, hash, ids, 2 * i, 2 * i + 1);
  }

  /**
   * A COMMIT that arrives while injection is off never loses its acknowledgement, also if injection is on by its OK.
   */
  lemma {:induction false} MyDisabledCommit(c: Side, s: My.Scenario, hash: Hash, ids: set<string>, turns: seq<My.Turn>,
                                            i: nat)
    requires MyBeside(c, s, hash, ids) && My.ValidScenario(s) && My.Chronicle(s, turns) && i < |turns|
    requires !Pinned(c, 2 * i).info.enabled
    ensures !turns[i].lost && (turns[i].verdict.Some? ==> !turns[i].verdict.value.eligible)
  {
    TurnAsks(c, s, hash, ids, turns, i);
    MyDecision(c, s, hash, ids, turns, i);
    EligibleByPinned(c, hash, ids, 2 * i, 2 * i + 1);
  }

  /** Which acknowledgements are lost in a MySQL session: likewise. */
  lemma {:induction false} MyLoses(c: Side, s: My.Scenario, hash: Hash, ids: set<string>, turns: seq<My.Turn>, i: nat,
                                   k: nat)
    requires MyBeside(c, s, hash, ids) && My.ValidScenario(s) && My.Chronicle(s, turns)
    requires i < |turns| && turns[i].verdict.Some? && OwnAsk(c, 2 * i, 2 * i + 1)
    requires Serves(Pinned(c, 2 * i).document, hash, ids) && Pinned(c, 2 * i).info.enabled
    requires Owning(Pinned(c, 2 * i).document, c.proxy, c.instance.same, k)
    ensures var config := Pinned(c, 2 * i).document.config;
            && Owned(c, 2 * i, 2 * i + 1, k) > 0
            && (turns[i].lost <==> PicksCommit(config, c.instance.gen, c.proxy, k, Owned(c, 2 * i, 2 * i + 1, k))
                                   && Takes(c.faults(Find(config.proxies, c.proxy).rules[k].fault), s.timers(i)))
  {
    TurnAsks(c, s, hash, ids, turns, i);
    SelectedByCount(c, hash, ids, 2 * i, 2 * i + 1, k);
  }
}
