/** What a matcher asks of a request, field by field. */
module EngineMatching {
  import opened Bytes
  import opened PathPattern
  import opened Engine

  /** A matcher that sets only the method matches exactly the requests with that method. */
  lemma {:induction false} MethodOnly(verb: string, d: Metadata, same: SameName)
    requires verb != ""
    ensures RuleMatches(Matcher("", verb, "", "", None), d, same) <==> d.method_ == verb
  {
  }

  lemma {:induction false} ServiceOnly(service: string, d: Metadata, same: SameName)
    requires service != ""
    ensures RuleMatches(Matcher("", "", service, "", None), d, same) <==> d.service == service
  {
  }

  /** One that sets only the path matches exactly that path, alone or followed by a query. */
  lemma {:induction false} PathOnly(path: string, d: Metadata, same: SameName)
    requires path != ""
    ensures RuleMatches(Matcher("", "", "", path, None), d, same) <==>
            '?' !in path && (d.path == path || exists query :: d.path == path + "?" + query)
  {
    WithoutQuery(path, d.path);
  }

  /** The path of a request is its text up to the first question mark. */
  lemma {:induction false} WithoutQuery(path: string, text: string)
    ensures Cut(text, '?').before == path <==>
            '?' !in path && (text == path || exists query :: text == path + "?" + query)
  {
    var cut := Cut(text, '?');
    if cut.found {
      assert text == cut.before + "?" + cut.after && text[|cut.before|] == '?';
    }
    if '?' !in path {
      forall query | text == path + "?" + query
        ensures cut.before == path
      {
        CutAtFirst(path, '?', query);
      }
    }
  }

  /** One that sets only a pattern matches exactly the paths that fill it, alone or followed by a query. */
  lemma {:induction false} PatternOnly(pattern: string, d: Metadata, same: SameName)
    requires pattern != ""
    ensures RuleMatches(Matcher(pattern, "", "", "", None), d, same) <==>
            exists path :: '?' !in path && Matches(pattern, path)
                           && (d.path == path || exists query :: d.path == path + "?" + query)
  {
    var cut := Cut(d.path, '?');
    WithoutQuery(cut.before, d.path);
    forall path | '?' !in path && (d.path == path || exists query :: d.path == path + "?" + query)
      ensures path == cut.before
    {
      WithoutQuery(path, d.path);
    }
  }

  /** One that sets only a header needs one equal value under a name that is the same. */
  lemma {:induction false} HeaderOnly(name: string, value: string, d: Metadata, same: SameName)
    ensures RuleMatches(Matcher("", "", "", "", Some(map[name := value])), d, same) <==>
            exists actual :: actual in d.headers && same(name, actual) && value in d.headers[actual]
  {
    var expected := map[name := value];
    assert name in expected && expected[name] == value;
  }

  /** A matcher that sets nothing matches everything. */
  lemma {:induction false} NothingSet(d: Metadata, same: SameName)
    ensures RuleMatches(Matcher("", "", "", "", None), d, same)
    ensures RuleMatches(Matcher("", "", "", "", Some(map[])), d, same)
  {
  }

  /** A matcher matches exactly if each of its parts does. */
  lemma {:induction false} PartByPart(m: Matcher, d: Metadata, same: SameName)
    ensures RuleMatches(m, d, same) <==>
            && RuleMatches(Matcher(m.pathPattern, "", "", "", None), d, same)
            && RuleMatches(Matcher("", m.method_, "", "", None), d, same)
            && RuleMatches(Matcher("", "", m.service, "", None), d, same)
            && RuleMatches(Matcher("", "", "", m.path, None), d, same)
            && (m.headers.Some? ==>
                  forall name :: name in m.headers.value ==>
                    RuleMatches(Matcher("", "", "", "", Some(map[name := m.headers.value[name]])), d, same))
  {
    if m.headers.Some? {
      forall name | name in m.headers.value
        ensures RuleMatches(Matcher("", "", "", "", Some(map[name := m.headers.value[name]])), d, same) <==>
                exists actual :: actual in d.headers && same(name, actual)
                                 && m.headers.value[name] in d.headers[actual]
      {
        HeaderOnly(name, m.headers.value[name], d, same);
      }
    }
  }

  /**
   * The shortcuts for zero and one save a draw and nothing else: with draws from [0, 1) a request is picked exactly
   * below the probability.
   */
  lemma {:induction false} PicksBelow(rule: Rule, stream: nat -> real, i: nat)
    requires ValidSelector(rule.selector) && rule.selector.Probability? && i > 0 && 0.0 <= stream(i - 1) < 1.0
    ensures Picks(rule, stream, i) <==> stream(i - 1) < rule.selector.p
  {
  }
}
