/** Exclusion rules on path text: the candidate loop over a path and its ancestors. */
module ScopePath {
  import opened Wrappers
  import opened ScopeMatch

  /** `strings.Split(s, "/")` */
  function Split(s: string): (r: Segments)
    ensures |r| > 0
  {
    if s == "" then [""] else Push(Split(s[..|s| - 1]), s[|s| - 1])
  }

  /** One more character: a slash starts a segment, anything else lengthens the last one. */
  function Push(segments: Segments, c: char): (r: Segments)
    requires |segments| > 0
    ensures |r| > 0
  {
    var last := |segments| - 1;
    if c == '/' then segments + [""] else segments[..last] + [segments[last] + [c]]
  }

  lemma PushConcat(a: Segments, b: Segments, c: char)
    requires |b| > 0
    ensures Push(a + b, c) == a + Push(b, c)
  {
    assert (a + b)[..|a + b| - 1] == a + b[..|b| - 1];
  }

  /** `strings.Trim(s, "/")` */
  function Trim(s: string): (t: string)
    ensures t != "" ==> t[0] != '/' && t[|t| - 1] != '/'
    ensures s != "" && s[0] != '/' && s[|s| - 1] != '/' ==> t == s
    decreases |s|
  {
    if s == "" then ""
    else if s[0] == '/' then Trim(s[1..])
    else if s[|s| - 1] == '/' then Trim(s[..|s| - 1])
    else s
  }

  function TrimPrefix(s: string, prefix: string): string {
    if prefix <= s then s[|prefix|..] else s
  }

  /** The rule as it is matched; blanks around it are taken to be gone already. */
  function Rule(pattern: string): string {
    TrimPrefix(TrimPrefix(pattern, "./"), "/")
  }

  function MatchScopePattern(glob: Glob, pattern: string, value: string): bool {
    var p, v := Rule(pattern), Trim(value);
    if p == "" || v == "" then p == v else MatchSegments(glob, Split(p), Split(v))
  }

  /** The path itself, or what stands before one of its slashes. */
  predicate Cut(s: string, n: nat) {
    0 < n <= |s| && (n == |s| || s[n] == '/')
  }

  /** The rule matches the path or one of its ancestors. */
  ghost predicate SomeCutMatches(glob: Glob, pattern: string, s: string) {
    exists n: nat :: CutMatches(glob, pattern, s, n)
  }

  predicate CutMatches(glob: Glob, pattern: string, s: string, n: nat) {
    Cut(s, n) && MatchScopePattern(glob, pattern, s[..n])
  }

  method LastSlash(s: string) returns (n: int)
    ensures n < 0 ==> '/' !in s
    ensures n >= 0 ==> n < |s| && s[n] == '/' && '/' !in s[n + 1..]
  {
    n := |s| - 1;
    while n >= 0 && s[n] != '/'
      invariant -1 <= n < |s| && '/' !in s[n + 1..]
    {
      n := n - 1;
    }
  }

  /** Tries the path, then its parent, and so on: the answer is whether the rule matches any of them. */
  method MatchScopePathOrAncestor(glob: Glob, pattern: string, value: string) returns (matched: bool)
    ensures matched <==> SomeCutMatches(glob, pattern, Trim(value))
  {
    var candidate := Trim(value);
    ghost var whole := candidate;
    while candidate != ""
      invariant candidate <= whole
      invariant candidate == "" || Cut(whole, |candidate|)
      invariant forall n: nat :: n > |candidate| ==> !CutMatches(glob, pattern, whole, n)
      decreases |candidate|
    {
      assert candidate == whole[..|candidate|];
      if MatchScopePattern(glob, pattern, candidate) {
        assert CutMatches(glob, pattern, whole, |candidate|);
        return true;
      }
      var separator := LastSlash(candidate);
      forall n: nat | Cut(whole, n) && n < |candidate|
        ensures n <= separator
      {
        assert candidate[n] == '/';
      }
      if separator < 0 {
        break;
      }
      candidate := candidate[..separator];
    }
    return false;
  }

  // ----- From text to segments

  /** The pattern matches the segments up to one that is a name. */
  ghost predicate CoversName(glob: Glob, pattern: Segments, value: Segments) {
    exists k :: 0 < k <= |value| && value[k - 1] != "" && MatchSegments(glob, pattern, value[..k])
  }

  lemma {:induction false} SplitAt(s: string, n: nat)
    requires n < |s| && s[n] == '/'
    ensures Split(s) == Split(s[..n]) + Split(s[n + 1..])
  {
    var init, tail := s[..|s| - 1], s[n + 1..];
    if n == |s| - 1 {
      assert tail == "";
    } else {
      SplitAt(init, n);
      assert init[..n] == s[..n] && tail[..|tail| - 1] == init[n + 1..];
      PushConcat(Split(s[..n]), Split(init[n + 1..]), s[|s| - 1]);
    }
  }

  /** Every non-empty proper prefix of the segments ends at a slash. */
  lemma {:induction false} SegmentsCut(s: string, k: nat) returns (n: nat)
    requires 0 < k < |Split(s)|
    ensures n < |s| && s[n] == '/' && Split(s[..n]) == Split(s)[..k]
  {
    var init := s[..|s| - 1];
    if s[|s| - 1] == '/' && k == |Split(init)| {
      n := |s| - 1;
      assert Split(s)[..k] == Split(init);
    } else {
      n := SegmentsCut(init, k);
      assert init[..n] == s[..n];
      assert Split(s)[..k] == Split(init)[..k];
    }
  }

  lemma LastSegment(s: string)
    ensures Split(s)[|Split(s)| - 1] != "" <==> s != "" && s[|s| - 1] != '/'
  {}

  /** What does not start with a slash loses slashes at its end only. */
  lemma {:induction false} TrimsEnd(s: string)
    requires s != "" && s[0] != '/'
    ensures Trim(s) != "" && Trim(s) <= s && (Trim(s) == s || s[|Trim(s)|] == '/')
    decreases |s|
  {
    if s[|s| - 1] == '/' { TrimsEnd(s[..|s| - 1]); }
  }

  /** A trimmed path keeps the segments up to its last name. */
  lemma SplitTrimmed(s: string) returns (k: nat)
    requires s != "" && s[0] != '/'
    ensures 0 < k <= |Split(s)| && Split(Trim(s)) == Split(s)[..k] && Split(s)[k - 1] != ""
  {
    hide Split;
    TrimsEnd(s);
    var t := Trim(s);
    LastSegment(t);
    k := |Split(t)|;
    if t == s {
      assert Split(s)[..k] == Split(s);
    } else {
      SplitAt(s, |t|);
      assert s[..|t|] == t;
    }
  }

  /** The loop decides by segments, whatever slashes the path has; an empty rule covers nothing. */
  lemma AncestorLoopCovers(glob: Glob, pattern: string, value: string)
    ensures SomeCutMatches(glob, pattern, Trim(value)) <==> Rule(pattern) != "" && CoversName(glob, Split(Rule(pattern)), Split(Trim(value)))
  {
    hide CutMatches, Split, Rule;
    var path := Trim(value);
    if SomeCutMatches(glob, pattern, path) {
      var n: nat :| CutMatches(glob, pattern, path, n);
      CutCovers(glob, pattern, path, n);
    }
    if Rule(pattern) != "" && CoversName(glob, Split(Rule(pattern)), Split(path)) {
      var n := CoversCut(glob, pattern, path);
    }
  }

  lemma CutCovers(glob: Glob, pattern: string, path: string, n: nat)
    requires (path != "" ==> path[0] != '/') && CutMatches(glob, pattern, path, n)
    ensures Rule(pattern) != "" && CoversName(glob, Split(Rule(pattern)), Split(path))
  {
    hide Split, Rule, MatchSegments, Trim;
    var (v, cut) := (Split(path), path[..n]);
    TrimsEnd(cut);
    var k := SplitTrimmed(cut);
    if n == |path| {
      assert cut == path;
    } else {
      SplitAt(path, n);
      assert v[..k] == Split(cut)[..k] && v[k - 1] == Split(cut)[k - 1];
    }
  }

  lemma CoversCut(glob: Glob, pattern: string, path: string) returns (n: nat)
    requires path != "" ==> path[0] != '/' && path[|path| - 1] != '/'
    requires Rule(pattern) != "" && CoversName(glob, Split(Rule(pattern)), Split(path))
    ensures CutMatches(glob, pattern, path, n)
  {
    hide Split, Rule, MatchSegments;
    var v := Split(path);
    var k :| 0 < k <= |v| && v[k - 1] != "" && MatchSegments(glob, Split(Rule(pattern)), v[..k]);
    n := |path|;
    if k < |v| {
      n := SegmentsCut(path, k);
      LastSegment(path[..n]);
    } else {
      LastSegment(path);
      assert path[..n] == path && v[..k] == v;
    }
  }

  /** A path without empty segments, as a directory walk reports them. */
  predicate Clean(s: string) {
    s != "" && s[0] != '/' && s[|s| - 1] != '/' && forall i :: 0 < i < |s| && s[i] == '/' ==> s[i - 1] != '/'
  }

  lemma {:induction false} CleanSegments(s: string)
    requires s != "" && s[0] != '/' && forall i :: 0 < i < |s| && s[i] == '/' ==> s[i - 1] != '/'
    ensures forall k :: 0 <= k < |Split(s)| - 1 ==> Split(s)[k] != ""
  {
    hide Split;
    var init := s[..|s| - 1];
    if init == "" {
      OneSegment(s);
    } else {
      CleanSegments(init);
      LastSegment(init);
      LastPushed(s);
    }
  }

  lemma OneSegment(s: string)
    requires |s| == 1 && s[0] != '/'
    ensures |Split(s)| == 1
  {
    assert s[..0] == "" && Split("") == [""];
  }

  lemma LastPushed(s: string)
    requires s != ""
    ensures Split(s) == Push(Split(s[..|s| - 1]), s[|s| - 1])
  {}

  /** A path is excluded as its names say; a clean one exactly when the rule with `**` appended means it. */
  method Excludes(glob: Glob, pattern: string, value: string) returns (excluded: bool)
    ensures excluded <==> Rule(pattern) != "" && CoversName(glob, Split(Rule(pattern)), Split(Trim(value)))
    ensures Clean(value) ==> (excluded <==> Rule(pattern) != "" && MatchSegments(glob, Split(Rule(pattern)) + [ANY], Split(value)))
    ensures Clean(value) ==> (excluded <==> Rule(pattern) != "" && Means(glob, Split(Rule(pattern)) + [ANY], Split(value)))
  {
    AncestorLoopCovers(glob, pattern, value);
    if Clean(value) { CleanCovers(glob, Split(Rule(pattern)), value); }
    CoversIsTrailingAny(glob, Split(Rule(pattern)), Split(value));
    MatcherIsTheMeaning(glob, Split(Rule(pattern)) + [ANY], Split(value));
    excluded := MatchScopePathOrAncestor(glob, pattern, value);
  }

  lemma CleanCovers(glob: Glob, pattern: Segments, value: string)
    requires Clean(value)
    ensures Trim(value) == value && (CoversName(glob, pattern, Split(value)) <==> Covers(glob, pattern, Split(value)))
  {
    hide Split, MatchSegments;
    CleanSegments(value);
    LastSegment(value);
    if Covers(glob, pattern, Split(value)) {
      var k :| 0 < k <= |Split(value)| && MatchSegments(glob, pattern, Split(value)[..k]);
      assert Split(value)[k - 1] != "";
    }
  }

  /** What excludes a directory excludes everything in it, whatever slashes the paths have. */
  lemma ExclusionDescends(glob: Glob, pattern: string, directory: string, below: string)
    requires SomeCutMatches(glob, pattern, Trim(directory))
    ensures SomeCutMatches(glob, pattern, Trim(directory + "/" + below))
  {
    hide Trim, MatchScopePattern;
    var n: nat :| CutMatches(glob, pattern, Trim(directory), n);
    TrimExtends(directory, below);
    var (inner, outer) := (Trim(directory), Trim(directory + "/" + below));
    assert outer[..n] == inner[..n];
    assert CutMatches(glob, pattern, outer, n);
  }

  lemma {:induction false} TrimExtends(directory: string, below: string)
    requires Trim(directory) != ""
    ensures var (inner, outer) := (Trim(directory), Trim(directory + "/" + below));
            inner <= outer && (inner == outer || outer[|inner|] == '/')
    decreases |directory|, |below|
  {
    var whole := directory + "/" + below;
    if directory[0] == '/' {
      assert whole[1..] == directory[1..] + "/" + below;
      TrimExtends(directory[1..], below);
    } else if below == "" {
      assert whole[..|whole| - 1] == directory;
    } else if below[|below| - 1] == '/' {
      assert whole[..|whole| - 1] == directory + "/" + below[..|below| - 1];
      TrimExtends(directory, below[..|below| - 1]);
    } else {
      TrimsEnd(directory);
    }
  }
}
