/** Path patterns: literal segments and whole-segment parameters, matched by cutting both strings at each slash. */
module PathPattern {

  /** The text before the first `c`, the text after it, and whether there is one. */
  datatype CutResult = CutResult(before: string, after: string, found: bool)

  function Cut(s: string, c: char): (r: CutResult)
    ensures r.found ==> s == r.before + [c] + r.after
    ensures !r.found ==> r.before == s && c !in s
    ensures c !in r.before
  {
    if s == "" then CutResult("", "", false)
    else if s[0] == c then CutResult("", s[1..], true)
    else
      var rest := Cut(s[1..], c);
      CutResult([s[0]] + rest.before, rest.after, rest.found)
  }

  function Split(s: string): (parts: seq<string>)
    ensures |parts| > 0
    decreases |s|
  {
    var cut := Cut(s, '/');
    if cut.found then [cut.before] + Split(cut.after) else [s]
  }

  function Join(parts: seq<string>): string
    requires parts != []
  {
    if |parts| == 1 then parts[0] else parts[0] + "/" + Join(parts[1..])
  }

  predicate Slashless(parts: seq<string>) {
    forall i :: 0 <= i < |parts| ==> '/' !in parts[i]
  }

  lemma {:induction false} JoinSplit(s: string)
    ensures Join(Split(s)) == s && Slashless(Split(s))
    decreases |s|
  {
    var cut := Cut(s, '/');
    if !cut.found {
    } else {
      JoinSplit(cut.after);
      assert Split(s)[1..] == Split(cut.after);
    }
  }

  lemma {:induction false} CutAtFirst(before: string, c: char, after: string)
    requires c !in before
    ensures Cut(before + [c] + after, c) == CutResult(before, after, true)
  {
    var s := before + [c] + after;
    if before == "" {
      assert s[1..] == after;
    } else {
      CutAtFirst(before[1..], c, after);
      assert before[0] in before;
      assert s[1..] == before[1..] + [c] + after;
    }
  }

  lemma {:induction false} SplitJoin(parts: seq<string>)
    requires parts != [] && Slashless(parts)
    ensures Split(Join(parts)) == parts
  {
    if |parts| == 1 {
    } else {
      SplitJoin(parts[1..]);
      CutAtFirst(parts[0], '/', Join(parts[1..]));
    }
  }

  predicate IsParameter(segment: string) {
    segment != "" && segment[0] == ':'
  }

  predicate SegmentMatches(want: string, got: string) {
    if IsParameter(want) then got != "" else want == got
  }

  predicate SegmentsMatch(want: seq<string>, got: seq<string>) {
    |want| == |got| && forall i :: 0 <= i < |want| ==> SegmentMatches(want[i], got[i])
  }

  /** Splitting both strings and matching segment by segment. */
  predicate Matches(pattern: string, path: string) {
    SegmentsMatch(Split(pattern), Split(path))
  }

  lemma SplitFirst(pattern: string, path: string)
    ensures var p, q := Cut(pattern, '/'), Cut(path, '/');
            Matches(pattern, path) <==> SegmentMatches(p.before, q.before) && p.found == q.found
                                        && (p.found && q.found ==> Matches(p.after, q.after))
  {
    var p, q := Cut(pattern, '/'), Cut(path, '/');
    var ps, qs := Split(pattern), Split(path);
    assert ps[0] == p.before && qs[0] == q.before;
    if p.found && q.found {
      assert ps[1..] == Split(p.after) && qs[1..] == Split(q.after);
      if SegmentMatches(p.before, q.before) && Matches(p.after, q.after) {
        forall i | 0 <= i < |ps| ensures SegmentMatches(ps[i], qs[i]) {
          if i > 0 {
            assert ps[i] == ps[1..][i - 1] && qs[i] == qs[1..][i - 1];
          }
        }
      }
      if Matches(pattern, path) {
        forall i | 0 <= i < |ps| - 1 ensures SegmentMatches(ps[1..][i], qs[1..][i]) {
          assert SegmentMatches(ps[i + 1], qs[i + 1]);
        }
      }
    }
  }

  /** The cut loop; it terminates on every pair of strings and decides exactly the segment-wise match. */
  method MatchesPathPattern(pattern: string, path: string) returns (matched: bool)
    ensures matched <==> Matches(pattern, path)
  {
    var pattern', path' := pattern, path;
    while true
      invariant Matches(pattern, path) <==> Matches(pattern', path')
      decreases |pattern'|
    {
      SplitFirst(pattern', path');
      var want := Cut(pattern', '/');
      var got := Cut(path', '/');
      if IsParameter(want.before) {
        if got.before == "" {
          return false;
        }
      } else if want.before != got.before {
        return false;
      }
      if want.found != got.found {
        return false;
      }
      if !want.found {
        return true;
      }
      pattern', path' := want.after, got.after;
    }
  }

  /** The pattern with its parameters replaced, position by position. */
  function Fill(segments: seq<string>, values: seq<string>): (filled: seq<string>)
    requires |values| == |segments|
    ensures |filled| == |segments|
  {
    seq(|segments|, i requires 0 <= i < |segments| => if IsParameter(segments[i]) then values[i] else segments[i])
  }

  /**
   * Meaning: a path matches when some nonempty slash-free values in place of the parameters turn the pattern into it.
   */
  lemma MatchesIsFilling(pattern: string, path: string)
    ensures Matches(pattern, path) <==>
              exists values :: |values| == |Split(pattern)| && Slashless(values)
                               && (forall i :: 0 <= i < |values| && IsParameter(Split(pattern)[i]) ==> values[i] != "")
                               && path == Join(Fill(Split(pattern), values))
  {
    var segments := Split(pattern);
    JoinSplit(pattern);
    JoinSplit(path);
    if Matches(pattern, path) {
      assert Fill(segments, Split(path)) == Split(path);
    }
    forall values | |values| == |segments| && Slashless(values)
                    && (forall i :: 0 <= i < |values| && IsParameter(segments[i]) ==> values[i] != "")
                    && path == Join(Fill(segments, values))
      ensures Matches(pattern, path)
    {
      SplitJoin(Fill(segments, values));
    }
  }

  /** One segment: behind a colon anything but nothing, otherwise itself. */
  lemma {:induction false} OneSegment(name: string, segment: string)
    requires '/' !in name && '/' !in segment
    ensures Matches(":" + name, segment) <==> segment != ""
    ensures name != "" && name[0] != ':' ==> (Matches(name, segment) <==> segment == name)
  {
    assert ":" + name == [':'] + name && '/' !in ":" + name;
    SplitJoin([":" + name]);
    SplitJoin([name]);
    SplitJoin([segment]);
  }

  /** A pattern without parameters matches only itself. */
  lemma LiteralPattern(pattern: string, path: string)
    requires forall i :: 0 <= i < |Split(pattern)| ==> !IsParameter(Split(pattern)[i])
    ensures Matches(pattern, path) <==> path == pattern
  {
    JoinSplit(pattern);
    JoinSplit(path);
    if Matches(pattern, path) {
      assert Split(pattern) == Split(path);
    }
  }

  /** Every pattern, valid or not, matches itself. */
  lemma SelfMatch(pattern: string)
    ensures Matches(pattern, pattern)
  {
  }
}
