/** Exclusion rules: the `**` matcher over path segments, and the rule that a match covers what lies below. */
module ScopeMatch {
  import opened Wrappers

  type Segments = seq<string>

  /** Whether one pattern segment without `**` matches one path segment (`path.Match`; false on a bad pattern). */
  type Glob = (string, string) -> bool

  const ANY := "**"

  function MatchSegments(glob: Glob, pattern: Segments, value: Segments): bool
    decreases |pattern| + |value|
  {
    if pattern == [] then value == []
    else if pattern[0] == ANY then
      MatchSegments(glob, pattern[1..], value) || (value != [] && MatchSegments(glob, pattern, value[1..]))
    else
      value != [] && glob(pattern[0], value[0]) && MatchSegments(glob, pattern[1..], value[1..])
  }

  /** What a pattern means: the path can be cut into consecutive runs, one per pattern segment, where `**`
      stands for any run and any other segment for a single segment it matches. `cuts[i]` is where run i starts. */
  ghost predicate Fits(glob: Glob, pattern: Segments, value: Segments, cuts: seq<nat>) {
    && |cuts| == |pattern| + 1 && cuts[0] == 0 && cuts[|pattern|] == |value|
    && forall i :: 0 <= i < |pattern| ==> FitsAt(glob, pattern[i], value, cuts[i], cuts[i + 1])
  }

  ghost predicate FitsAt(glob: Glob, segment: string, value: Segments, from: nat, to: nat) {
    && from <= to <= |value|
    && (segment != ANY ==> to == from + 1 && glob(segment, value[from]))
  }

  ghost predicate Means(glob: Glob, pattern: Segments, value: Segments) {
    exists cuts :: Fits(glob, pattern, value, cuts)
  }

  function Shift(cuts: seq<nat>, d: nat): (s: seq<nat>)
    ensures |s| == |cuts| && forall i :: 0 <= i < |cuts| ==> s[i] == cuts[i] + d
  {
    seq(|cuts|, i requires 0 <= i < |cuts| => cuts[i] + d)
  }

  lemma {:induction false} MatchMeans(glob: Glob, pattern: Segments, value: Segments) returns (cuts: seq<nat>)
    requires MatchSegments(glob, pattern, value)
    ensures Fits(glob, pattern, value, cuts)
    decreases |pattern| + |value|
  {
    if pattern == [] {
      cuts := [0];
    } else if pattern[0] == ANY && MatchSegments(glob, pattern[1..], value) {
      var rest := MatchMeans(glob, pattern[1..], value);
      cuts := [0] + rest;
      forall i | 0 <= i < |pattern|
        ensures FitsAt(glob, pattern[i], value, cuts[i], cuts[i + 1])
      {
        if i > 0 {
          assert FitsAt(glob, pattern[1..][i - 1], value, rest[i - 1], rest[i]);
        }
      }
    } else if pattern[0] == ANY {
      var rest := MatchMeans(glob, pattern, value[1..]);
      cuts := [0] + Shift(rest[1..], 1);
      forall i | 0 <= i < |pattern|
        ensures FitsAt(glob, pattern[i], value, cuts[i], cuts[i + 1])
      {
        assert FitsAt(glob, pattern[i], value[1..], rest[i], rest[i + 1]);
      }
    } else {
      var rest := MatchMeans(glob, pattern[1..], value[1..]);
      cuts := [0] + Shift(rest, 1);
      forall i | 0 <= i < |pattern|
        ensures FitsAt(glob, pattern[i], value, cuts[i], cuts[i + 1])
      {
        if i > 0 {
          assert FitsAt(glob, pattern[1..][i - 1], value[1..], rest[i - 1], rest[i]);
        }
      }
    }
  }

  lemma {:induction false} MeansMatch(glob: Glob, pattern: Segments, value: Segments, cuts: seq<nat>)
    requires Fits(glob, pattern, value, cuts)
    ensures MatchSegments(glob, pattern, value)
    decreases |pattern| + |value|
  {
    if pattern != [] {
      var n := cuts[1];
      assert FitsAt(glob, pattern[0], value, cuts[0], cuts[1]);
      CutsAreOrdered(glob, pattern, value, cuts, 1);
      if pattern[0] == ANY && n > 0 {
        var rest := [0] + seq(|pattern|, i requires 0 <= i < |pattern| => cuts[i + 1] - 1);
        forall i | 0 <= i < |pattern|
          ensures FitsAt(glob, pattern[i], value[1..], rest[i], rest[i + 1])
        {
          assert FitsAt(glob, pattern[i], value, cuts[i], cuts[i + 1]);
        }
        MeansMatch(glob, pattern, value[1..], rest);
      } else {
        var rest := seq(|pattern|, i requires 0 <= i < |pattern| => cuts[i + 1] - n);
        forall i | 0 <= i < |pattern| - 1
          ensures FitsAt(glob, pattern[1..][i], value[n..], rest[i], rest[i + 1])
        {
          assert FitsAt(glob, pattern[i + 1], value, cuts[i + 1], cuts[i + 2]);
        }
        MeansMatch(glob, pattern[1..], value[n..], rest);
      }
    }
  }

  lemma {:induction false} CutsAreOrdered(glob: Glob, pattern: Segments, value: Segments, cuts: seq<nat>, k: nat)
    requires Fits(glob, pattern, value, cuts) && k <= |pattern|
    ensures forall i :: k <= i <= |pattern| ==> cuts[k] <= cuts[i]
    decreases |pattern| - k
  {
    if k < |pattern| {
      assert FitsAt(glob, pattern[k], value, cuts[k], cuts[k + 1]);
      CutsAreOrdered(glob, pattern, value, cuts, k + 1);
    }
  }

  /** The recursive matcher decides exactly the declarative meaning. */
  lemma MatcherIsTheMeaning(glob: Glob, pattern: Segments, value: Segments)
    ensures MatchSegments(glob, pattern, value) <==> Means(glob, pattern, value)
  {
    if MatchSegments(glob, pattern, value) {
      var cuts := MatchMeans(glob, pattern, value);
    }
    if Means(glob, pattern, value) {
      var cuts :| Fits(glob, pattern, value, cuts);
      MeansMatch(glob, pattern, value, cuts);
    }
  }

  /** A trailing `**` matches every path one of whose prefixes the pattern matches, the empty prefix included. */
  lemma {:induction false} TrailingAny(glob: Glob, pattern: Segments, value: Segments)
    ensures MatchSegments(glob, pattern + [ANY], value) <==> exists k :: 0 <= k <= |value| && MatchSegments(glob, pattern, value[..k])
    decreases |pattern| + |value|
  {
    var longer := pattern + [ANY];
    if pattern == [] {
      AnyMatchesAll(glob, value);
      assert longer == [ANY] && value[..0] == [];
    } else {
      assert longer[1..] == pattern[1..] + [ANY];
      TrailingAny(glob, pattern[1..], value);
      if value != [] {
        TrailingAny(glob, pattern, value[1..]);
        TrailingAny(glob, pattern[1..], value[1..]);
      }
      assert value[..0] == [];
      forall k | 0 < k <= |value|
        ensures value[..k] != [] && value[..k][0] == value[0] && value[..k][1..] == value[1..][..k - 1]
      {
      }
      if MatchSegments(glob, longer, value) {
        TrailingAnyForward(glob, pattern, value);
      } else {
        forall k | 0 <= k <= |value|
          ensures !MatchSegments(glob, pattern, value[..k])
        {
        }
      }
    }
  }

  lemma TrailingAnyForward(glob: Glob, pattern: Segments, value: Segments)
    requires pattern != [] && MatchSegments(glob, pattern + [ANY], value)
    requires (pattern + [ANY])[1..] == pattern[1..] + [ANY]
    requires MatchSegments(glob, pattern[1..] + [ANY], value) ==> exists k :: 0 <= k <= |value| && MatchSegments(glob, pattern[1..], value[..k])
    requires value != [] ==>
               && (MatchSegments(glob, pattern + [ANY], value[1..]) ==> exists k :: 0 <= k < |value| && MatchSegments(glob, pattern, value[1..][..k]))
               && (MatchSegments(glob, pattern[1..] + [ANY], value[1..]) ==> exists k :: 0 <= k < |value| && MatchSegments(glob, pattern[1..], value[1..][..k]))
    ensures exists k :: 0 <= k <= |value| && MatchSegments(glob, pattern, value[..k])
  {
    if pattern[0] == ANY && MatchSegments(glob, pattern[1..] + [ANY], value) {
      var k :| 0 <= k <= |value| && MatchSegments(glob, pattern[1..], value[..k]);
      assert MatchSegments(glob, pattern, value[..k]);
    } else if pattern[0] == ANY {
      var k :| 0 <= k < |value| && MatchSegments(glob, pattern, value[1..][..k]);
      assert value[..k + 1][1..] == value[1..][..k];
      assert MatchSegments(glob, pattern, value[..k + 1]);
    } else {
      var k :| 0 <= k < |value| && MatchSegments(glob, pattern[1..], value[1..][..k]);
      assert value[..k + 1][1..] == value[1..][..k];
      assert MatchSegments(glob, pattern, value[..k + 1]);
    }
  }

  lemma {:induction false} AnyMatchesAll(glob: Glob, value: Segments)
    ensures MatchSegments(glob, [ANY], value)
  {
    if value != [] {
      AnyMatchesAll(glob, value[1..]);
    }
  }

  /** A pattern that matches the empty path consists of `**` only, and so matches everything if it is not empty. */
  lemma {:induction false} MatchesEmptyMatchesAll(glob: Glob, pattern: Segments, value: Segments)
    requires pattern != [] && MatchSegments(glob, pattern, [])
    ensures MatchSegments(glob, pattern, value)
    decreases |pattern| + |value|
  {
    if value != [] {
      MatchesEmptyMatchesAll(glob, pattern, value[1..]);
    }
  }

  /** Path-or-ancestor matching, on segments: some non-empty prefix matches. */
  ghost predicate Covers(glob: Glob, pattern: Segments, value: Segments) {
    exists k :: 0 < k <= |value| && MatchSegments(glob, pattern, value[..k])
  }

  /** For non-empty patterns and paths it is matching with `**` appended. */
  lemma CoversIsTrailingAny(glob: Glob, pattern: Segments, value: Segments)
    requires pattern != [] && value != []
    ensures Covers(glob, pattern, value) <==> MatchSegments(glob, pattern + [ANY], value)
  {
    TrailingAny(glob, pattern, value);
    if exists k :: 0 <= k <= |value| && MatchSegments(glob, pattern, value[..k]) {
      var k :| 0 <= k <= |value| && MatchSegments(glob, pattern, value[..k]);
      if k == 0 {
        assert value[..0] == [];
        MatchesEmptyMatchesAll(glob, pattern, value[..1]);
      }
    }
  }

  /** Exclusion is closed under descent: whatever covers a path covers everything below it. */
  lemma CoversDescendants(glob: Glob, pattern: Segments, value: Segments, below: Segments)
    requires Covers(glob, pattern, value)
    ensures Covers(glob, pattern, value + below)
  {
    var k :| 0 < k <= |value| && MatchSegments(glob, pattern, value[..k]);
    assert (value + below)[..k] == value[..k];
  }

  /** Adjacent `**` collapse without changing the meaning. */
  lemma {:induction false} AdjacentAnyCollapse(glob: Glob, before: Segments, after: Segments, value: Segments)
    ensures MatchSegments(glob, before + [ANY, ANY] + after, value) <==> MatchSegments(glob, before + [ANY] + after, value)
    decreases |before| + |value|
  {
    var two, one := before + [ANY, ANY] + after, before + [ANY] + after;
    if before == [] {
      assert two[1..] == one && one[1..] == after;
      if value != [] {
        AdjacentAnyCollapse(glob, before, after, value[1..]);
      }
    } else {
      assert two[1..] == before[1..] + [ANY, ANY] + after && one[1..] == before[1..] + [ANY] + after;
      AdjacentAnyCollapse(glob, before[1..], after, value);
      if value != [] {
        AdjacentAnyCollapse(glob, before, after, value[1..]);
        AdjacentAnyCollapse(glob, before[1..], after, value[1..]);
      }
    }
  }
}
