/** What the engine's counters and decisions are after any history of calls. */
module EngineReplay {
  import opened Arith
  import opened Bytes
  import opened Engine

  function RulesAfter(rules: Rules, calls: seq<Call>, same: SameName): (after: Rules)
    requires AllInStep(rules)
    ensures AllInStep(after) && after.Keys == rules.Keys
    ensures forall p :: p in rules ==> |after[p]| == |rules[p]|
  {
    if calls == [] then rules else NextRules(RulesAfter(rules, calls[..|calls| - 1], same), calls[|calls| - 1], same)
  }

  /** The decisions one rule has handed out, in order. */
  function HandedOut(rules: Rules, calls: seq<Call>, same: SameName, proxy: string, k: nat): seq<Decision>
    requires AllInStep(rules)
  {
    if calls == [] then [] else
      var before, call := calls[..|calls| - 1], calls[|calls| - 1];
      var now := RulesAfter(rules, before, same);
      HandedOut(rules, before, same, proxy, k)
      + if call.proxy == proxy && OwnerOf(now, call, same) == Some(k) then [DecisionOf(now, call, same)] else []
  }

  /** A rule's `i`-th decision, as the rule and its stream alone determine it. */
  function NthDecision(proxy: string, rule: Rule, stream: nat -> real, i: nat): Decision
    requires ValidSelector(rule.selector) && i > 0
  {
    Decision(proxy, rule.id, i, Picks(rule, stream, i), rule.fault)
  }

  function Transcript(proxy: string, rule: Rule, stream: nat -> real, n: nat): (ds: seq<Decision>)
    requires ValidSelector(rule.selector)
    ensures |ds| == n && forall i :: 0 <= i < n ==> ds[i] == NthDecision(proxy, rule, stream, i + 1)
  {
    if n == 0 then [] else Transcript(proxy, rule, stream, n - 1) + [NthDecision(proxy, rule, stream, n)]
  }

  /** A call counts for the rule that owns it and leaves every other rule as it was. */
  lemma OneCall(rules: Rules, call: Call, same: SameName, proxy: string, k: nat)
    requires AllInStep(rules) && proxy in rules && k < |rules[proxy]|
    ensures var st, next := rules[proxy][k], NextRules(rules, call, same)[proxy][k];
            && next.rule == st.rule && next.stream == st.stream && ValidSelector(st.rule.selector)
            && if call.proxy == proxy && OwnerOf(rules, call, same) == Some(k)
               then next.eligible == st.eligible + 1
                    && DecisionOf(rules, call, same) == NthDecision(proxy, st.rule, st.stream, st.eligible + 1)
               else next.eligible == st.eligible
  {
    assert InStep(rules[proxy][k]);
  }

  /**
   * After any history from a fresh revision a rule has handed out the sequence numbers 1 to Eligible, once each and in
   * order, each with the selection its own selector and stream fix for that number; requests owned by other rules
   * leave no trace.
   */
  lemma {:induction false} RuleTranscript(rules: Rules, calls: seq<Call>, same: SameName, proxy: string, k: nat)
    requires AllInStep(rules) && proxy in rules && k < |rules[proxy]| && rules[proxy][k].eligible == 0
    ensures var st, now := rules[proxy][k], RulesAfter(rules, calls, same)[proxy][k];
            && now.rule == st.rule && now.stream == st.stream && ValidSelector(st.rule.selector)
            && HandedOut(rules, calls, same, proxy, k) == Transcript(proxy, st.rule, st.stream, now.eligible)
  {
    if calls == [] {
      assert InStep(rules[proxy][k]);
    } else {
      var before := calls[..|calls| - 1];
      RuleTranscript(rules, before, same, proxy, k);
      OneCall(RulesAfter(rules, before, same), calls[|calls| - 1], same, proxy, k);
    }
  }

  /** Replay: the `i`-th decision of a rule is the same in any two histories of the same revision. */
  lemma Replay(rules: Rules, a: seq<Call>, b: seq<Call>, same: SameName, proxy: string, k: nat, i: nat)
    requires AllInStep(rules) && proxy in rules && k < |rules[proxy]| && rules[proxy][k].eligible == 0
    requires i < |HandedOut(rules, a, same, proxy, k)| && i < |HandedOut(rules, b, same, proxy, k)|
    ensures HandedOut(rules, a, same, proxy, k)[i] == HandedOut(rules, b, same, proxy, k)[i]
  {
    RuleTranscript(rules, a, same, proxy, k);
    RuleTranscript(rules, b, same, proxy, k);
  }

  lemma {:induction false} PicksClosedForm(rule: Rule, stream: nat -> real, n: nat)
    requires ValidSelector(rule.selector)
    ensures match rule.selector
            case Every(k) => CountPicks(rule, stream, n) == n / k
            case Nth(m) => CountPicks(rule, stream, n) == if n >= m then 1 else 0
            case Probability(p) =>
              (p == 0.0 ==> CountPicks(rule, stream, n) == 0) && (p == 1.0 ==> CountPicks(rule, stream, n) == n)
  {
    if n > 0 {
      PicksClosedForm(rule, stream, n - 1);
      if rule.selector.Every? {
        NextMultiple(n - 1, rule.selector.k);
      }
    } else if rule.selector.Every? {
      Quotient(0, 0, rule.selector.k);
    }
  }

  /** The counters of every rule after any history from a fresh revision. */
  lemma SelectorCounts(rules: Rules, calls: seq<Call>, same: SameName, proxy: string, k: nat)
    requires AllInStep(rules) && proxy in rules && k < |rules[proxy]| && rules[proxy][k].eligible == 0
    ensures var now := RulesAfter(rules, calls, same)[proxy][k];
            && now.eligible == |HandedOut(rules, calls, same, proxy, k)|
            && match now.rule.selector
               case Every(m) => ValidSelector(now.rule.selector) && now.selected == now.eligible / m
               case Nth(m) => now.selected == if now.eligible >= m then 1 else 0
               case Probability(p) => (p == 0.0 ==> now.selected == 0) && (p == 1.0 ==> now.selected == now.eligible)
  {
    RuleTranscript(rules, calls, same, proxy, k);
    var now := RulesAfter(rules, calls, same)[proxy][k];
    assert InStep(now);
    PicksClosedForm(now.rule, now.stream, now.eligible);
  }
}
