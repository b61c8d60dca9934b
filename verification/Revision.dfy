/** A revision: the engine built from a document, with one random stream for every rule. */
module Revision {
  import opened Config
  import opened Engine
  import opened EngineReplay

  /** The random stream of a rule, seeded by the document's seed, the proxy id and the rule id. */
  type Generator = (nat, string, string) -> (nat -> real)

  /** The states of a proxy's rules before any request. */
  function FreshStates(seed: nat, p: Proxy, gen: Generator): (states: seq<RuleState>)
    ensures |states| == |p.rules|
    ensures ValidRules(p) ==> forall k :: 0 <= k < |states| ==> InStep(states[k])
  {
    seq(|p.rules|, k requires 0 <= k < |p.rules| => RuleState(p.rules[k], gen(seed, p.id, p.rules[k].id), 0, 0, 0))
  }

  /** The proxy with this id. */
  function Find(ps: seq<Proxy>, id: string): (p: Proxy)
    requires id in Ids(ps)
    ensures p in ps && p.id == id
  {
    if ps[0].id == id then ps[0] else
      assert forall i :: 0 < i < |ps| ==> ps[1..][i - 1] == ps[i];
      Find(ps[1..], id)
  }

  lemma FindUnique(ps: seq<Proxy>, p: Proxy)
    requires DistinctIds(ps) && p in ps
    ensures p.id in Ids(ps) && Find(ps, p.id) == p
  {
    var i :| 0 <= i < |ps| && ps[i] == p;
    var j :| 0 <= j < |ps| && ps[j] == Find(ps, p.id);
  }

  lemma FoundAreValid(c: Config)
    requires Validated(c)
    ensures forall id :: id in Ids(c.proxies) ==> ValidRules(Find(c.proxies, id))
  {
    forall id | id in Ids(c.proxies)
      ensures ValidRules(Find(c.proxies, id))
    {
      var i :| 0 <= i < |c.proxies| && c.proxies[i] == Find(c.proxies, id);
    }
  }

  /** The engine's rules for a validated config. */
  function RulesOf(c: Config, gen: Generator): (rules: Rules)
    requires Validated(c)
    ensures rules.Keys == Ids(c.proxies) && AllInStep(rules)
  {
    FoundAreValid(c);
    map id | id in Ids(c.proxies) :: FreshStates(c.seed, Find(c.proxies, id), gen)
  }

  method FreshProxy(seed: nat, p: Proxy, gen: Generator) returns (states: seq<RuleState>)
    ensures states == FreshStates(seed, p, gen)
  {
    states := [];
    for k := 0 to |p.rules|
      invariant |states| == k && forall j :: 0 <= j < k ==> states[j] == FreshStates(seed, p, gen)[j]
    {
      var r := p.rules[k];
      states := states + [RuleState(r, gen(seed, p.id, r.id), 0, 0, 0)];
    }
  }

  lemma IdsStep(ps: seq<Proxy>, n: nat)
    requires n < |ps|
    ensures Ids(ps[..n + 1]) == Ids(ps[..n]) + {ps[n].id}
  {
    var before, all := ps[..n], ps[..n + 1];
    assert all[n] == ps[n] && forall i :: 0 <= i < n ==> all[i] == before[i];
    forall id | id in Ids(before) + {ps[n].id}
      ensures id in Ids(all)
    {
      if id in Ids(before) {
        var i :| 0 <= i < n && before[i].id == id;
        assert all[i].id == id;
      } else {
        assert all[n].id == id;
      }
    }
  }

  /** Builds the rules proxy by proxy. */
  method Build(c: Config, gen: Generator) returns (rules: Rules)
    requires Validated(c)
    ensures rules == RulesOf(c, gen) && AllInStep(rules)
  {
    rules := map[];
    for n := 0 to |c.proxies|
      invariant rules.Keys == Ids(c.proxies[..n])
      invariant forall i :: 0 <= i < n ==>
                c.proxies[i].id in rules && rules[c.proxies[i].id] == FreshStates(c.seed, c.proxies[i], gen)
    {
      var states := FreshProxy(c.seed, c.proxies[n], gen);
      IdsStep(c.proxies, n);
      rules := rules[c.proxies[n].id := states];
    }
    assert c.proxies[..|c.proxies|] == c.proxies;
    forall id | id in rules
      ensures rules[id] == RulesOf(c, gen)[id]
    {
      var i :| 0 <= i < |c.proxies| && c.proxies[i].id == id;
      FindUnique(c.proxies, c.proxies[i]);
    }
  }

  /** The engine of a revision, fresh for its document. */
  method New(c: Config, gen: Generator) returns (e: Evaluator)
    requires Validated(c)
    ensures fresh(e) && e.rules == RulesOf(c, gen) && AllInStep(e.rules)
  {
    var rules := Build(c, gen);
    e := new Evaluator(rules);
  }

  lemma SameFind(a: seq<Proxy>, b: seq<Proxy>, id: string)
    requires multiset(a) == multiset(b) && DistinctIds(b) && id in Ids(a)
    ensures id in Ids(b) && Find(b, id) == Find(a, id)
  {
    assert Find(a, id) in multiset(a);
    assert Find(a, id) in multiset(b);
    FindUnique(b, Find(a, id));
  }

  /** Equal documents build the same engine, streams included, whatever the order of their proxies. */
  lemma EqualBuildsSame(a: Document, b: Document, hash: Hash, gen: Generator)
    requires Injective(hash) && Made(a, hash) && Made(b, hash) && Equal(a, b)
    ensures RulesOf(a.config, gen) == RulesOf(b.config, gen)
  {
    EqualIsUpToOrder(a, b, hash);
    SameIds(a.config.proxies, b.config.proxies);
    SameIds(b.config.proxies, a.config.proxies);
    forall id | id in Ids(a.config.proxies)
      ensures Find(a.config.proxies, id) == Find(b.config.proxies, id)
    {
      SameFind(a.config.proxies, b.config.proxies, id);
    }
  }

  /** What a rule of a document decides for its `i`-th request, as the document alone determines it. */
  function DocumentDecision(c: Config, gen: Generator, proxy: string, k: nat, i: nat): Decision
    requires Validated(c) && proxy in Ids(c.proxies) && k < |Find(c.proxies, proxy).rules| && i > 0
  {
    var rule := Find(c.proxies, proxy).rules[k];
    FoundAreValid(c);
    NthDecision(proxy, rule, gen(c.seed, proxy, rule.id), i)
  }

  /** The transcript of a rule after any history of its revision, as the document determines it. */
  lemma DocumentTranscript(c: Config, gen: Generator, calls: seq<Call>, same: SameName, proxy: string, k: nat, i: nat)
    requires Validated(c) && proxy in Ids(c.proxies) && k < |Find(c.proxies, proxy).rules|
    requires i < |HandedOut(RulesOf(c, gen), calls, same, proxy, k)|
    ensures HandedOut(RulesOf(c, gen), calls, same, proxy, k)[i] == DocumentDecision(c, gen, proxy, k, i + 1)
  {
    RuleTranscript(RulesOf(c, gen), calls, same, proxy, k);
  }

  /** Replay: the `i`-th decision of a rule is the same in any two histories that start from Equal documents. */
  lemma DocumentReplay(a: Document, b: Document, hash: Hash, gen: Generator, first: seq<Call>, second: seq<Call>,
                       same: SameName,
                       proxy: string, k: nat, i: nat)
    requires Injective(hash) && Made(a, hash) && Made(b, hash) && Equal(a, b)
    requires proxy in Ids(a.config.proxies) && k < |Find(a.config.proxies, proxy).rules|
    requires i < |HandedOut(RulesOf(a.config, gen), first, same, proxy, k)|
    requires i < |HandedOut(RulesOf(b.config, gen), second, same, proxy, k)|
    ensures HandedOut(RulesOf(a.config, gen), first, same, proxy, k)[i]
            == DocumentDecision(a.config, gen, proxy, k, i + 1)
    ensures HandedOut(RulesOf(b.config, gen), second, same, proxy, k)[i]
            == DocumentDecision(a.config, gen, proxy, k, i + 1)
  {
    EqualBuildsSame(a, b, hash, gen);
    DocumentTranscript(a.config, gen, first, same, proxy, k, i);
    DocumentTranscript(a.config, gen, second, same, proxy, k, i);
  }
}
