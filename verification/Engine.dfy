/** The rule engine: the first matching rule owns a request, counts it and selects it by nth, every or probability. */
module Engine {
  import opened Bytes
  import opened PathPattern

  datatype Selector = Probability(p: real) | Nth(n: nat) | Every(k: nat)

  predicate ValidSelector(s: Selector) {
    match s
    case Probability(p) => 0.0 <= p <= 1.0
    case Nth(n) => n > 0
    case Every(k) => k > 0
  }

  /** A matcher without headers and one with an empty header map match alike but are two values. */
  datatype Matcher = Matcher(pathPattern: string, method_: string, service: string, path: string,
                             headers: Option<map<string, string>>)

  datatype Metadata = Metadata(method_: string, service: string, path: string, headers: map<string, seq<string>>)

  /** Faults are opaque to the engine; `fault` names one. */
  datatype Rule = Rule(id: string, enabled: bool, matcher: Matcher, selector: Selector, fault: nat)

  /** Case-insensitive comparison of header names is a parameter. */
  type SameName = (string, string) -> bool

  predicate HeadersMatch(expected: map<string, string>, headers: map<string, seq<string>>, same: SameName) {
    forall name :: name in expected ==>
      exists actual :: actual in headers && same(name, actual) && expected[name] in headers[actual]
  }

  predicate RuleMatches(m: Matcher, d: Metadata, same: SameName) {
    var path := Cut(d.path, '?').before;
    && (m.service != "" ==> m.service == d.service)
    && (m.method_ != "" ==> m.method_ == d.method_)
    && (m.path != "" ==> m.path == path)
    && (m.pathPattern != "" ==> Matches(m.pathPattern, path))
    && (m.headers.Some? ==> HeadersMatch(m.headers.value, d.headers, same))
  }

  /** Looks for a value under any header name that is the same. */
  method HasHeader(headers: map<string, seq<string>>, name: string, expected: string, same: SameName)
    returns (found: bool)
    ensures found <==> exists actual :: actual in headers && same(name, actual) && expected in headers[actual]
  {
    found := false;
    var left := headers.Keys;
    while left != {}
      invariant left <= headers.Keys
      invariant found <==> exists actual :: actual in headers && actual !in left && same(name, actual)
                                            && expected in headers[actual]
      decreases left
    {
      var actual :| actual in left;
      left := left - {actual};
      if same(name, actual) {
        var values := headers[actual];
        var i := 0;
        while i < |values|
          invariant i <= |values| && expected !in values[..i]
        {
          if values[i] == expected {
            found := true;
            break;
          }
          i := i + 1;
        }
      }
    }
  }

  method HasHeaders(expected: map<string, string>, headers: map<string, seq<string>>, same: SameName)
    returns (found: bool)
    ensures found <==> HeadersMatch(expected, headers, same)
  {
    var left := expected.Keys;
    while left != {}
      invariant left <= expected.Keys
      invariant forall name :: name in expected && name !in left ==>
                  exists actual :: actual in headers && same(name, actual) && expected[name] in headers[actual]
      decreases left
    {
      var name :| name in left;
      left := left - {name};
      found := HasHeader(headers, name, expected[name], same);
      if !found {
        return false;
      }
    }
    return true;
  }

  /** Field by field, then header by header. */
  method MatchRule(m: Matcher, d: Metadata, same: SameName) returns (matched: bool)
    ensures matched <==> RuleMatches(m, d, same)
  {
    var path := Cut(d.path, '?').before;
    if m.service != "" && m.service != d.service {
      return false;
    }
    if (m.method_ != "" && m.method_ != d.method_) || (m.path != "" && m.path != path) {
      return false;
    }
    if m.pathPattern != "" {
      matched := MatchesPathPattern(m.pathPattern, path);
      if !matched {
        return false;
      }
    }
    if m.headers.None? {
      return true;
    }
    matched := HasHeaders(m.headers.value, d.headers, same);
  }

  /** One rule of a revision: its counters and how many random numbers it has drawn from its own stream. */
  datatype RuleState = RuleState(rule: Rule, stream: nat -> real, eligible: nat, selected: nat, draws: nat)

  /** What the rule does with its `i`-th eligible request, counting from one. */
  predicate Picks(rule: Rule, stream: nat -> real, i: nat)
    requires ValidSelector(rule.selector) && i > 0
  {
    match rule.selector
    case Nth(n) => i == n
    case Every(k) => i % k == 0
    case Probability(p) => p == 1.0 || (p != 0.0 && stream(i - 1) < p)
  }

  function CountPicks(rule: Rule, stream: nat -> real, n: nat): nat
    requires ValidSelector(rule.selector)
  {
    if n == 0 then 0 else CountPicks(rule, stream, n - 1) + if Picks(rule, stream, n) then 1 else 0
  }

  predicate Draws(s: Selector) {
    s.Probability? && s.p != 0.0 && s.p != 1.0
  }

  /** The counters are those of `eligible` requests in a row, whatever happened to other rules in between. */
  predicate InStep(st: RuleState) {
    && ValidSelector(st.rule.selector)
    && st.selected == CountPicks(st.rule, st.stream, st.eligible)
    && st.draws == if Draws(st.rule.selector) then st.eligible else 0
  }

  datatype Decision = Decision(proxy: string, rule: string, sequence: nat, selected: bool, fault: nat)

  function NoRule(proxy: string): Decision {
    Decision(proxy, "", 0, false, 0)
  }

  type Rules = map<string, seq<RuleState>>

  predicate AllInStep(rules: Rules) {
    forall p :: p in rules ==> forall k :: 0 <= k < |rules[p]| ==> InStep(rules[p][k])
  }

  datatype Call = Call(proxy: string, metadata: Metadata, enabled: bool)

  predicate Owns(st: RuleState, d: Metadata, same: SameName) {
    st.rule.enabled && RuleMatches(st.rule.matcher, d, same)
  }

  /** The first rule that owns the request. */
  function Owner(states: seq<RuleState>, d: Metadata, same: SameName): (k: Option<nat>)
    ensures k.Some? ==> k.value < |states| && Owns(states[k.value], d, same)
                        && forall j :: 0 <= j < k.value ==> !Owns(states[j], d, same)
    ensures k.None? ==> forall j :: 0 <= j < |states| ==> !Owns(states[j], d, same)
  {
    if states == [] then None
    else if Owns(states[0], d, same) then Some(0)
    else
      var rest := Owner(states[1..], d, same);
      assert forall j :: 0 < j < |states| ==> states[j] == states[1..][j - 1];
      if rest.Some? then Some(rest.value + 1) else None
  }

  lemma {:induction false} OwnerAt(states: seq<RuleState>, d: Metadata, same: SameName, k: nat)
    requires k < |states| && Owns(states[k], d, same) && forall j :: 0 <= j < k ==> !Owns(states[j], d, same)
    ensures Owner(states, d, same) == Some(k)
  {
    var owner := Owner(states, d, same);
    assert owner.Some? && Owns(states[owner.value], d, same);
  }

  function OwnerOf(rules: Rules, call: Call, same: SameName): Option<nat> {
    if call.proxy in rules && call.enabled then Owner(rules[call.proxy], call.metadata, same) else None
  }

  function Counted(st: RuleState): RuleState
    requires ValidSelector(st.rule.selector)
  {
    var i := st.eligible + 1;
    st.(eligible := i,
        selected := st.selected + (if Picks(st.rule, st.stream, i) then 1 else 0),
        draws := st.draws + if Draws(st.rule.selector) then 1 else 0)
  }

  /** The rules after a call: only the owner's counters move. */
  function NextRules(rules: Rules, call: Call, same: SameName): (next: Rules)
    requires AllInStep(rules)
    ensures AllInStep(next) && next.Keys == rules.Keys
    ensures forall p :: p in rules ==> |next[p]| == |rules[p]|
  {
    var k := OwnerOf(rules, call, same);
    if k.None? then rules else rules[call.proxy := rules[call.proxy][k.value := Counted(rules[call.proxy][k.value])]]
  }

  function DecisionOf(rules: Rules, call: Call, same: SameName): Decision
    requires AllInStep(rules)
  {
    var k := OwnerOf(rules, call, same);
    if k.None? then NoRule(call.proxy) else
      var st := rules[call.proxy][k.value];
      Decision(call.proxy, st.rule.id, st.eligible + 1, Picks(st.rule, st.stream, st.eligible + 1), st.rule.fault)
  }

  /** The engine of one revision. */
  class Evaluator {
    var rules: Rules

    constructor (rules: Rules)
      requires forall p :: p in rules ==> forall k :: 0 <= k < |rules[p]| ==>
                 ValidSelector(rules[p][k].rule.selector)
                     && rules[p][k].eligible == rules[p][k].selected == rules[p][k].draws == 0
      ensures this.rules == rules && AllInStep(rules)
    {
      this.rules := rules;
    }

    /** Whether the rule selects its next eligible request; only a proper probability draws a random number. */
    method SelectAttempt(st: RuleState, sequence: nat) returns (selected: bool, draws: nat)
      requires InStep(st) && sequence == st.eligible + 1
      ensures selected == Picks(st.rule, st.stream, sequence)
      ensures draws == Counted(st).draws
    {
      draws := st.draws;
      match st.rule.selector
      case Nth(n) => selected := sequence == n;
      case Every(k) => selected := sequence % k == 0;
      case Probability(p) =>
        if p == 0.0 {
          return false, draws;
        }
        if p == 1.0 {
          return true, draws;
        }
        selected, draws := st.stream(draws) < p, draws + 1;
    }

    method Decide(call: Call, same: SameName) returns (d: Decision, known: bool)
      requires AllInStep(rules)
      modifies this
      ensures known <==> call.proxy in old(rules)
      ensures d == DecisionOf(old(rules), call, same)
      ensures rules == NextRules(old(rules), call, same) && AllInStep(rules)
    {
      d := NoRule(call.proxy);
      if call.proxy !in rules {
        return d, false;
      }
      known := true;
      if !call.enabled {
        return;
      }
      assert AllInStep(NextRules(rules, call, same));
      var states := rules[call.proxy];
      var i := 0;
      while i < |states|
        invariant i <= |states| && rules == old(rules)
        invariant forall j :: 0 <= j < i ==> !Owns(states[j], call.metadata, same)
      {
        var st := states[i];
        var matched := MatchRule(st.rule.matcher, call.metadata, same);
        if st.rule.enabled && matched {
          OwnerAt(states, call.metadata, same, i);
          var sequence := st.eligible + 1;
          var selected, draws := SelectAttempt(st, sequence);
          st := st.(eligible := sequence, draws := draws);
          if selected {
            st := st.(selected := st.selected + 1);
          }
          assert st == Counted(states[i]);
          rules := rules[call.proxy := states[i := st]];
          d := Decision(call.proxy, st.rule.id, sequence, selected, st.rule.fault);
          return;
        }
        i := i + 1;
      }
    }
  }
}
