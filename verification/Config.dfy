/** Configuration documents: the canonical form behind equality, the restart view, and merging a draft of rules. */
module Config {
  import opened Bytes
  import Engine

  /** Runtime limits and the infrastructure of a proxy (protocol, addresses, TLS files) are opaque here. */
  datatype Proxy = Proxy(id: string, infra: nat, rules: seq<Engine.Rule>)

  datatype Config = Config(seed: nat, runtime: nat, proxies: seq<Proxy>)

  /** What is hashed: a config and the digests of its TLS files. */
  datatype View = View(config: Config, tls: map<string, nat>)

  predicate DistinctIds(ps: seq<Proxy>) {
    forall i, j :: 0 <= i < j < |ps| ==> ps[i].id != ps[j].id
  }

  predicate ValidRules(p: Proxy) {
    forall k :: 0 <= k < |p.rules| ==> Engine.ValidSelector(p.rules[k].selector) && p.rules[k].id != ""
  }

  /**
   * What validation guarantees about a config: distinct proxy ids, and for every rule an id and a selector in range.
   */
  predicate Validated(c: Config) {
    DistinctIds(c.proxies) && forall i :: 0 <= i < |c.proxies| ==> ValidRules(c.proxies[i])
  }

  /** Byte-wise order of identifiers. */
  predicate Less(a: string, b: string) {
    b != "" && (a == "" || a[0] < b[0] || (a[0] == b[0] && Less(a[1..], b[1..])))
  }

  lemma {:induction false} LessTotal(a: string, b: string)
    ensures !(Less(a, b) && Less(b, a)) && (a != b ==> Less(a, b) || Less(b, a)) && !Less(a, a)
  {
    if a != "" && b != "" {
      LessTotal(a[1..], b[1..]);
      assert a[0] == b[0] && a[1..] == b[1..] ==> a == [a[0]] + a[1..] == [b[0]] + b[1..] == b;
    }
    if a == "" {
    } else {
      LessTotal(a[1..], a[1..]);
    }
  }

  lemma {:induction false} LessTransitive(a: string, b: string, c: string)
    requires Less(a, b) && Less(b, c)
    ensures Less(a, c)
  {
    if a != "" && a[0] == b[0] && b[0] == c[0] {
      LessTransitive(a[1..], b[1..], c[1..]);
    }
  }

  predicate Ascending(ps: seq<Proxy>) {
    forall i, j :: 0 <= i < j < |ps| ==> Less(ps[i].id, ps[j].id)
  }

  function Insert(p: Proxy, sorted: seq<Proxy>): (r: seq<Proxy>)
    ensures multiset(r) == multiset(sorted) + multiset{p}
  {
    if sorted == [] || Less(p.id, sorted[0].id) then
      assert [p] + sorted == [p] + sorted;
      [p] + sorted
    else
      assert sorted == [sorted[0]] + sorted[1..];
      [sorted[0]] + Insert(p, sorted[1..])
  }

  /** Proxies in the order of their ids. */
  function Sort(ps: seq<Proxy>): (r: seq<Proxy>)
    ensures multiset(r) == multiset(ps)
  {
    if ps == [] then [] else
      assert ps == [ps[0]] + ps[1..];
      Insert(ps[0], Sort(ps[1..]))
  }

  lemma {:induction false} InsertAscending(p: Proxy, sorted: seq<Proxy>)
    requires Ascending(sorted) && forall i :: 0 <= i < |sorted| ==> sorted[i].id != p.id
    ensures Ascending(Insert(p, sorted))
  {
    var r := Insert(p, sorted);
    if sorted == [] || Less(p.id, sorted[0].id) {
      forall j | 1 <= j < |r| ensures Less(r[0].id, r[j].id) {
        if j > 1 {
          LessTransitive(p.id, sorted[0].id, sorted[j - 1].id);
        }
      }
    } else {
      LessTotal(p.id, sorted[0].id);
      InsertAscending(p, sorted[1..]);
      var rest := Insert(p, sorted[1..]);
      forall j | 0 <= j < |rest| ensures Less(sorted[0].id, rest[j].id) {
        assert rest[j] in multiset(rest);
        assert rest[j] in sorted[1..] || rest[j] == p;
      }
    }
  }

  lemma {:induction false} SortAscending(ps: seq<Proxy>)
    requires DistinctIds(ps)
    ensures Ascending(Sort(ps))
  {
    if ps == [] {
    } else {
      SortAscending(ps[1..]);
      var rest := Sort(ps[1..]);
      forall i | 0 <= i < |rest| ensures rest[i].id != ps[0].id {
        assert rest[i] in multiset(rest);
        assert rest[i] in ps[1..];
      }
      InsertAscending(ps[0], rest);
    }
  }

  lemma RemoveAt(s: seq<Proxy>, i: nat)
    requires i < |s|
    ensures multiset(s[..i] + s[i + 1..]) == multiset(s) - multiset{s[i]}
    ensures i == 0 ==> s[..i] + s[i + 1..] == s[1..]
  {
    assert s == s[..i] + [s[i]] + s[i + 1..];
  }

  /** With distinct ids there is one ascending order, so the canonical form does not depend on the sorting algorithm. */
  lemma {:induction false} AscendingUnique(a: seq<Proxy>, b: seq<Proxy>)
    requires Ascending(a) && Ascending(b) && multiset(a) == multiset(b)
    ensures a == b
  {
    if a == [] {
      assert |multiset(b)| == 0;
    } else {
      assert |multiset(a)| == |multiset(b)|;
      assert a[0] in multiset(b) && b[0] in multiset(a);
      var i :| 0 <= i < |b| && b[i] == a[0];
      var j :| 0 <= j < |a| && a[j] == b[0];
      if i > 0 && j > 0 {
        LessTotal(a[0].id, b[0].id);
      }
      assert a[0] == b[0];
      RemoveAt(a, 0);
      RemoveAt(b, 0);
      AscendingUnique(a[1..], b[1..]);
    }
  }

  lemma SameOrder(a: seq<Proxy>, b: seq<Proxy>)
    requires DistinctIds(a) && DistinctIds(b)
    ensures Sort(a) == Sort(b) <==> multiset(a) == multiset(b)
  {
    SortAscending(a);
    SortAscending(b);
    if multiset(a) == multiset(b) {
      AscendingUnique(Sort(a), Sort(b));
    }
  }

  function Blank(p: Proxy): Proxy {
    p.(rules := [])
  }

  function BlankAll(ps: seq<Proxy>): (r: seq<Proxy>)
    ensures |r| == |ps| && forall i :: 0 <= i < |ps| ==> r[i] == Blank(ps[i])
  {
    if ps == [] then [] else [Blank(ps[0])] + BlankAll(ps[1..])
  }

  /** Digests: as many as there are views, so that a hash without collisions exists. */
  datatype Digest = Digest(of: View)

  datatype Document = Document(config: Config, tls: map<string, nat>, fingerprint: Digest, restartFingerprint: Digest)

  /** The canonical views behind the two fingerprints. */
  function FullView(c: Config, tls: map<string, nat>): View {
    View(c.(proxies := Sort(c.proxies)), tls)
  }

  function RestartView(c: Config, tls: map<string, nat>): View {
    View(Config(0, c.runtime, BlankAll(Sort(c.proxies))), tls)
  }

  /** A hash without collisions: every digest has at most one view behind it, which `view` finds. */
  datatype Hash = Hash(digest: View -> Digest, view: Digest -> View)

  ghost predicate Injective(hash: Hash) {
    forall v :: hash.view(hash.digest(v)) == v
  }

  lemma HashExists()
    ensures Injective(Hash((v: View) => Digest(v), (d: Digest) => d.of))
  {
  }

  /** A document made from a validated config. */
  ghost predicate Made(d: Document, hash: Hash) {
    && Validated(d.config)
    && d.fingerprint == hash.digest(FullView(d.config, d.tls))
    && d.restartFingerprint == hash.digest(RestartView(d.config, d.tls))
  }

  method NewDocument(c: Config, tls: map<string, nat>, hash: Hash) returns (d: Document)
    requires Validated(c)
    ensures Made(d, hash) && d.config == c && d.tls == tls
  {
    var canonical := c.(proxies := Sort(c.proxies));
    var full := hash.digest(View(canonical, tls));
    canonical := canonical.(seed := 0);
    var i := 0;
    ghost var sorted := canonical.proxies;
    while i < |canonical.proxies|
      invariant 0 <= i <= |canonical.proxies| == |sorted|
      invariant canonical == Config(0, c.runtime, canonical.proxies)
      invariant forall k :: 0 <= k < i ==> canonical.proxies[k] == Blank(sorted[k])
      invariant forall k :: i <= k < |sorted| ==> canonical.proxies[k] == sorted[k]
    {
      canonical := canonical.(proxies := canonical.proxies[i := canonical.proxies[i].(rules := [])]);
      i := i + 1;
    }
    assert canonical.proxies == BlankAll(sorted);
    d := Document(c, tls, full, hash.digest(View(canonical, tls)));
  }

  predicate Equal(a: Document, b: Document) {
    a.fingerprint == b.fingerprint
  }

  predicate RestartCompatible(a: Document, b: Document) {
    a.restartFingerprint == b.restartFingerprint
  }

  /** Two documents are equal exactly when they agree up to the order of their proxies; the order of rules matters. */
  lemma EqualIsUpToOrder(a: Document, b: Document, hash: Hash)
    requires Injective(hash) && Made(a, hash) && Made(b, hash)
    ensures Equal(a, b) <==>
              a.config.seed == b.config.seed && a.config.runtime == b.config.runtime && a.tls == b.tls
              && multiset(a.config.proxies) == multiset(b.config.proxies)
  {
    SameOrder(a.config.proxies, b.config.proxies);
    var va, vb := FullView(a.config, a.tls), FullView(b.config, b.tls);
    assert Equal(a, b) <==> va == vb;
  }

  /** Sorting looks at ids only, so it commutes with blanking the rules. */
  lemma {:induction false} SortBlank(ps: seq<Proxy>)
    ensures BlankAll(Sort(ps)) == Sort(BlankAll(ps))
  {
    if ps == [] {
    } else {
      SortBlank(ps[1..]);
      InsertBlank(ps[0], Sort(ps[1..]));
      assert BlankAll(ps)[1..] == BlankAll(ps[1..]);
    }
  }

  lemma {:induction false} InsertBlank(p: Proxy, sorted: seq<Proxy>)
    ensures BlankAll(Insert(p, sorted)) == Insert(Blank(p), BlankAll(sorted))
  {
    if !(sorted == [] || Less(p.id, sorted[0].id)) {
      InsertBlank(p, sorted[1..]);
      assert BlankAll(sorted)[1..] == BlankAll(sorted[1..]);
    } else {
      assert ([p] + sorted)[1..] == sorted;
    }
  }

  /** Compatible without a restart: the same runtime, TLS files and proxies, whatever the seed and the rules. */
  lemma CompatibleIsSameInfrastructure(a: Document, b: Document, hash: Hash)
    requires Injective(hash) && Made(a, hash) && Made(b, hash)
    ensures RestartCompatible(a, b) <==>
              a.config.runtime == b.config.runtime && a.tls == b.tls
              && multiset(BlankAll(a.config.proxies)) == multiset(BlankAll(b.config.proxies))
  {
    SortBlank(a.config.proxies);
    SortBlank(b.config.proxies);
    SameOrder(BlankAll(a.config.proxies), BlankAll(b.config.proxies));
    assert RestartCompatible(a, b) <==> RestartView(a.config, a.tls) == RestartView(b.config, b.tls);
  }

  function Ids(ps: seq<Proxy>): set<string> {
    set i | 0 <= i < |ps| :: ps[i].id
  }

  /** Documents compatible without a restart have the same proxy ids. */
  lemma CompatibleKeepsIds(a: Document, b: Document, hash: Hash)
    requires Injective(hash) && Made(a, hash) && Made(b, hash) && RestartCompatible(a, b)
    ensures Ids(a.config.proxies) == Ids(b.config.proxies)
  {
    CompatibleIsSameInfrastructure(a, b, hash);
    BlankIds(a.config.proxies);
    BlankIds(b.config.proxies);
    SameIds(BlankAll(a.config.proxies), BlankAll(b.config.proxies));
    SameIds(BlankAll(b.config.proxies), BlankAll(a.config.proxies));
  }

  lemma SameIds(a: seq<Proxy>, b: seq<Proxy>)
    requires multiset(a) == multiset(b)
    ensures Ids(a) <= Ids(b)
  {
    forall id | id in Ids(a)
      ensures id in Ids(b)
    {
      var i :| 0 <= i < |a| && a[i].id == id;
      assert a[i] in multiset(b);
      var j :| 0 <= j < |b| && b[j] == a[i];
      assert b[j].id == id;
    }
  }

  lemma BlankIds(ps: seq<Proxy>)
    ensures Ids(BlankAll(ps)) == Ids(ps)
  {
    forall id | id in Ids(ps)
      ensures id in Ids(BlankAll(ps))
    {
      var i :| 0 <= i < |ps| && ps[i].id == id;
      assert BlankAll(ps)[i].id == id;
    }
  }

  /** A tester's edit: new rules for one proxy. */
  datatype ProxyDraft = ProxyDraft(id: string, rules: seq<Engine.Rule>)

  predicate DistinctEdits(ds: seq<ProxyDraft>) {
    forall i, j :: 0 <= i < j < |ds| ==> ds[i].id != ds[j].id
  }

  function Edited(ds: seq<ProxyDraft>): set<string> {
    set i | 0 <= i < |ds| :: ds[i].id
  }

  /** What makes a draft acceptable: one edit for every proxy and no other. */
  predicate Acceptable(ps: seq<Proxy>, ds: seq<ProxyDraft>) {
    |ds| == |ps| && DistinctEdits(ds) && Edited(ds) <= Ids(ps)
  }

  lemma {:induction false} DistinctCount(ids: seq<string>)
    requires forall i, j :: 0 <= i < j < |ids| ==> ids[i] != ids[j]
    ensures |set id | id in ids| == |ids|
  {
    if ids == [] {
    } else {
      var rest, last := ids[..|ids| - 1], ids[|ids| - 1];
      DistinctCount(rest);
      assert last !in rest;
      assert (set id | id in ids) == (set id | id in rest) + {last} by {
        assert ids == rest + [last];
      }
    }
  }

  lemma IdCount(ps: seq<Proxy>)
    requires DistinctIds(ps)
    ensures |Ids(ps)| == |ps|
  {
    var ids := seq(|ps|, i requires 0 <= i < |ps| => ps[i].id);
    DistinctCount(ids);
    assert Ids(ps) == set id | id in ids by {
      assert forall i :: 0 <= i < |ps| ==> ids[i] == ps[i].id;
    }
  }

  lemma EditedCount(ds: seq<ProxyDraft>)
    requires DistinctEdits(ds)
    ensures |Edited(ds)| == |ds|
  {
    var ids := seq(|ds|, i requires 0 <= i < |ds| => ds[i].id);
    DistinctCount(ids);
    assert Edited(ds) == set id | id in ids by {
      assert forall i :: 0 <= i < |ds| ==> ids[i] == ds[i].id;
    }
  }

  lemma SubsetOfSameSize(a: set<string>, b: set<string>)
    requires a <= b && |a| == |b|
    ensures a == b
  {
    if x :| x in b && x !in a {
      assert a <= b - {x};
      SubsetIsSmaller(a, b - {x});
    }
  }

  lemma {:induction false} SubsetIsSmaller(a: set<string>, b: set<string>)
    requires a <= b
    ensures |a| <= |b|
  {
    if x :| x in a {
      SubsetIsSmaller(a - {x}, b - {x});
    }
  }

  /** A draft is acceptable exactly if it names every active proxy, each once, and nothing else. */
  lemma AcceptableIsPermutation(ps: seq<Proxy>, ds: seq<ProxyDraft>)
    requires DistinctIds(ps)
    ensures Acceptable(ps, ds) <==>
            && (forall i, j :: 0 <= i < j < |ds| ==> ds[i].id != ds[j].id)
            && (set i | 0 <= i < |ds| :: ds[i].id) == (set i | 0 <= i < |ps| :: ps[i].id)
  {
    IdCount(ps);
    if DistinctEdits(ds) {
      EditedCount(ds);
      if Acceptable(ps, ds) {
        SubsetOfSameSize(Edited(ds), Ids(ps));
      }
    }
  }

  /** The proxy with the rules of the edit that names it, if one does. */
  function Merged(p: Proxy, ds: seq<ProxyDraft>): Proxy {
    if ds == [] then p
    else if ds[|ds| - 1].id == p.id then p.(rules := ds[|ds| - 1].rules)
    else Merged(p, ds[..|ds| - 1])
  }

  ghost predicate AllMerged(ps: seq<Proxy>, ds: seq<ProxyDraft>, r: seq<Proxy>) {
    |r| == |ps| && forall i :: 0 <= i < |ps| ==> r[i] == Merged(ps[i], ds)
  }

  /** Puts one edit in place; `found` unless no proxy has its id. */
  method ApplyEdit(ps: seq<Proxy>, edit: ProxyDraft) returns (r: seq<Proxy>, found: bool)
    requires DistinctIds(ps)
    ensures found <==> edit.id in Ids(ps)
    ensures |r| == |ps| && forall i :: 0 <= i < |ps| ==>
            r[i] == if ps[i].id == edit.id then ps[i].(rules := edit.rules) else ps[i]
  {
    var i := 0;
    while i < |ps|
      invariant i <= |ps| && forall k :: 0 <= k < i ==> ps[k].id != edit.id
    {
      if ps[i].id == edit.id {
        return ps[i := ps[i].(rules := edit.rules)], true;
      }
      i := i + 1;
    }
    return ps, false;
  }

  /** Merges a draft into the active config; refuses an incomplete, repeated or unknown proxy. */
  method MergeDraft(c: Config, ds: seq<ProxyDraft>) returns (merged: Option<Config>)
    requires DistinctIds(c.proxies)
    ensures merged.Some? <==> Acceptable(c.proxies, ds)
    ensures merged.Some? ==>
            merged.value == c.(proxies := merged.value.proxies) && AllMerged(c.proxies, ds, merged.value.proxies)
  {
    if |ds| != |c.proxies| {
      return None;
    }
    var seen: set<string>, ps, n := {}, c.proxies, 0;
    while n < |ds|
      invariant n <= |ds| && seen == Edited(ds[..n]) && seen <= Ids(c.proxies)
      invariant DistinctEdits(ds[..n]) && DistinctIds(ps)
      invariant AllMerged(c.proxies, ds[..n], ps)
    {
      var edit := ds[n];
      if edit.id in seen {
        NotAcceptable(c.proxies, ds, n);
        return None;
      }
      assert Ids(ps) == Ids(c.proxies) by { MergedIds(c.proxies, ds[..n], ps); }
      var found;
      ps, found := ApplyEdit(ps, edit);
      if !found {
        assert edit.id in Edited(ds);
        return None;
      }
      seen := seen + {edit.id};
      assert ds[..n + 1] == ds[..n] + [edit];
      assert Edited(ds[..n + 1]) == Edited(ds[..n]) + {edit.id};
      MergeStep(c.proxies, ds, n);
      n := n + 1;
    }
    assert ds[..n] == ds;
    return Some(c.(proxies := ps));
  }

  lemma NotAcceptable(ps: seq<Proxy>, ds: seq<ProxyDraft>, n: nat)
    requires n < |ds| && ds[n].id in Edited(ds[..n])
    ensures !Acceptable(ps, ds)
  {
    var i :| 0 <= i < n && ds[..n][i].id == ds[n].id;
    assert ds[i].id == ds[n].id;
  }

  lemma {:induction false} MergedKeeps(p: Proxy, ds: seq<ProxyDraft>)
    ensures Merged(p, ds).id == p.id && Blank(Merged(p, ds)) == Blank(p)
  {
    if ds == [] {
    } else {
      MergedKeeps(p, ds[..|ds| - 1]);
    }
  }

  lemma MergedIds(ps: seq<Proxy>, ds: seq<ProxyDraft>, r: seq<Proxy>)
    requires AllMerged(ps, ds, r)
    ensures Ids(r) == Ids(ps)
  {
    forall i | 0 <= i < |ps| ensures r[i].id == ps[i].id { MergedKeeps(ps[i], ds); }
    forall id | id in Ids(ps) ensures id in Ids(r) {
      var i :| 0 <= i < |ps| && ps[i].id == id;
      assert r[i].id == id;
    }
  }

  lemma MergeStep(ps: seq<Proxy>, ds: seq<ProxyDraft>, n: nat)
    requires n < |ds|
    ensures forall i :: 0 <= i < |ps| ==>
              var before := Merged(ps[i], ds[..n]);
              before.id == ps[i].id
              && Merged(ps[i], ds[..n + 1]) == if before.id == ds[n].id then before.(rules := ds[n].rules) else before
  {
    assert ds[..n + 1][..n] == ds[..n];
    forall i | 0 <= i < |ps|
      ensures var before := Merged(ps[i], ds[..n]);
              before.id == ps[i].id
              && Merged(ps[i], ds[..n + 1]) == if before.id == ds[n].id then before.(rules := ds[n].rules) else before
    {
      MergedKeeps(ps[i], ds[..n]);
      assert ps[i].(rules := ds[n].rules) == Merged(ps[i], ds[..n]).(rules := ds[n].rules);
    }
  }

  /** Each proxy ends up with the rules of its own edit; an acceptable draft has one for each. */
  lemma DraftRules(ps: seq<Proxy>, ds: seq<ProxyDraft>, r: seq<Proxy>, i: nat)
    requires DistinctIds(ps) && Acceptable(ps, ds) && AllMerged(ps, ds, r) && i < |ps|
    ensures exists k :: 0 <= k < |ds| && ds[k].id == ps[i].id && r[i] == ps[i].(rules := ds[k].rules)
  {
    AcceptableIsPermutation(ps, ds);
    assert ps[i].id in Edited(ds);
    var k :| 0 <= k < |ds| && ds[k].id == ps[i].id;
    MergedBy(ps[i], ds, k);
  }

  /** Nothing that needs a restart changes. */
  lemma DraftKeepsRestartView(c: Config, ds: seq<ProxyDraft>, merged: Config, tls: map<string, nat>)
    requires merged == c.(proxies := merged.proxies) && AllMerged(c.proxies, ds, merged.proxies)
    ensures RestartView(merged, tls) == RestartView(c, tls)
  {
    forall i | 0 <= i < |c.proxies| ensures Blank(merged.proxies[i]) == Blank(c.proxies[i]) {
      MergedKeeps(c.proxies[i], ds);
    }
    assert BlankAll(merged.proxies) == BlankAll(c.proxies);
    SortBlank(c.proxies);
    SortBlank(merged.proxies);
  }

  lemma {:induction false} MergedBy(p: Proxy, ds: seq<ProxyDraft>, k: nat)
    requires k < |ds| && ds[k].id == p.id && DistinctEdits(ds)
    ensures Merged(p, ds) == p.(rules := ds[k].rules)
  {
    if k == |ds| - 1 {
    } else {
      MergedBy(p, ds[..|ds| - 1], k);
    }
  }
}
