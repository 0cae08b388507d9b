/** The accounting of a scope preview: what the summary says about the entries it reports. */
module ScopeScan {
  import opened ScopeMatch
  import opened ScopePath
  import opened Wrappers

  const MAX_SCOPE_ITEMS := 100_000

  datatype Kind = File | Directory | Symlink | Special | Unknown

  datatype Disposition = Included | Excluded | Unreadable | Attention

  datatype Entry = Entry(ordinal: int, path: string, kind: Kind, disposition: Disposition, size: int, reason: string, rules: seq<nat>)

  // One callback of the directory walk, with what the file system answered.
  datatype Node =
    | Cancelled
    | Root(failed: bool)
    | Unlocated
    | Broken(path: string, directory: bool, denied: bool)
    | Unstated(path: string, kind: Kind)
    | Seen(path: string, kind: Kind, size: int, unreadable: bool, denied: bool)

  datatype Impact = Impact(files: int, bytes: int)

  datatype Summary = Summary(scanned: int, total: int, included: int, includedBytes: int, excluded: int, excludedBytes: int,
                             unreadable: int, attention: int, truncated: bool, rules: seq<Impact>)

  function ReadReason(denied: bool): string {
    if denied then "permission_denied" else "unreadable"
  }

  // ----- The entry a callback reports

  ghost predicate Matches(glob: Glob, rule: string, path: string) {
    SomeCutMatches(glob, rule, Trim(path))
  }

  /** The positions of the exclusions that match, in order. */
  ghost function Matching(glob: Glob, exclusions: seq<string>, path: string): (r: seq<nat>)
    ensures forall i :: i in r <==> 0 <= i < |exclusions| && Matches(glob, exclusions[i], path)
    ensures forall i, j :: 0 <= i < j < |r| ==> r[i] < r[j]
  {
    if exclusions == [] then []
    else
      var n := |exclusions| - 1;
      var rest := Matching(glob, exclusions[..n], path);
      assert forall k :: 0 <= k < |rest| ==> rest[k] in rest;
      if Matches(glob, exclusions[n], path) then rest + [n] else rest
  }

  predicate Emits(node: Node) {
    node.Broken? || node.Unstated? || node.Seen?
  }

  ghost function EntryOf(glob: Glob, exclusions: seq<string>, node: Node, ordinal: int): Entry
    requires Emits(node)
  {
    match node
    case Broken(path, directory, denied) =>
      Entry(ordinal, path, if directory then Directory else Unknown, Unreadable, 0, ReadReason(denied), [])
    case Unstated(path, kind) => Entry(ordinal, path, kind, Unreadable, 0, "metadata_unavailable", [])
    case Seen(path, kind, size, unreadable, denied) =>
      var matched := Matching(glob, exclusions, path);
      if kind == Directory && unreadable then Entry(ordinal, path, kind, Unreadable, 0, ReadReason(denied), [])
      else if matched != [] then Entry(ordinal, path, kind, Excluded, size, "exclusion_rule", matched)
      else if kind == Special then Entry(ordinal, path, kind, Attention, size, "special_file", [])
      else if kind == File && unreadable then Entry(ordinal, path, kind, Unreadable, size, ReadReason(denied), [])
      else Entry(ordinal, path, kind, Included, size, "", [])
  }

  /** Some exclusion covers the path. */
  ghost predicate IsExcluded(glob: Glob, exclusions: seq<string>, path: string) {
    exists i :: 0 <= i < |exclusions| && Matches(glob, exclusions[i], path)
  }

  /** What an entry says of the item it was reported for. */
  ghost predicate Describes(e: Entry, glob: Glob, exclusions: seq<string>, node: Node, ordinal: int)
    requires Emits(node)
  {
    && e.ordinal == ordinal && e.path == node.path
    && match node {
      case Broken(_, directory, denied) =>
        && e.kind == (if directory then Directory else Unknown) && e.disposition == Unreadable && e.size == 0 && e.rules == []
        && e.reason == if denied then "permission_denied" else "unreadable"
      case Unstated(_, kind) =>
        e.kind == kind && e.disposition == Unreadable && e.size == 0 && e.rules == [] && e.reason == "metadata_unavailable"
      case Seen(path, kind, size, unreadable, denied) =>
        var excluded := IsExcluded(glob, exclusions, path);
        && e.kind == kind && e.size == (if kind == Directory && unreadable then 0 else size)
        && (e.disposition == Unreadable <==> unreadable && (kind == Directory || (kind == File && !excluded)))
        && (e.disposition == Excluded <==> excluded && !(kind == Directory && unreadable))
        && (e.disposition == Attention <==> kind == Special && !excluded)
        && (forall i :: i in e.rules <==> e.disposition == Excluded && 0 <= i < |exclusions| && Matches(glob, exclusions[i], path))
        && e.reason == match e.disposition
                       case Unreadable => if denied then "permission_denied" else "unreadable"
                       case Excluded => "exclusion_rule"
                       case Attention => "special_file"
                       case Included => ""
    }
  }

  lemma EntryDescribes(glob: Glob, exclusions: seq<string>, node: Node, ordinal: int)
    requires Emits(node)
    ensures Describes(EntryOf(glob, exclusions, node, ordinal), glob, exclusions, node, ordinal)
  {
    hide Matches, Matching;
    if node.Seen? {
      var matched := Matching(glob, exclusions, node.path);
      if matched != [] { assert matched[0] in matched; }
    }
  }

  // ----- Tallies over the reported entries

  // The files, which are all entries but directories, of some sort.
  datatype Sort = AnyFile | With(disposition: Disposition) | MatchedBy(rule: nat)

  predicate IsA(e: Entry, sort: Sort) {
    e.kind != Directory && match sort {
      case AnyFile => true
      case With(d) => e.disposition == d
      case MatchedBy(i) => i in e.rules
    }
  }

  ghost function Files(entries: seq<Entry>, sort: Sort): nat {
    if entries == [] then 0 else Files(entries[..|entries| - 1], sort) + if IsA(entries[|entries| - 1], sort) then 1 else 0
  }

  ghost function Bytes(entries: seq<Entry>, sort: Sort): int {
    if entries == [] then 0
    else Bytes(entries[..|entries| - 1], sort) + if IsA(entries[|entries| - 1], sort) then entries[|entries| - 1].size else 0
  }

  ghost function UnreadableEntries(entries: seq<Entry>): nat {
    if entries == [] then 0
    else UnreadableEntries(entries[..|entries| - 1]) + if entries[|entries| - 1].disposition == Unreadable then 1 else 0
  }

  /** An entry names the rules that exclude it, and only an excluded one names any. */
  ghost predicate WellFormed(e: Entry, rules: nat) {
    && (e.rules != [] <==> e.disposition == Excluded)
    && (forall i :: i in e.rules ==> i < rules)
    && (forall i, j :: 0 <= i < j < |e.rules| ==> e.rules[i] < e.rules[j])
  }

  ghost predicate Reported(entries: seq<Entry>, rules: nat) {
    forall k :: 0 <= k < |entries| ==> entries[k].ordinal == k + 1 && WellFormed(entries[k], rules)
  }

  /** Every count of the summary is a count over the reported entries; `lost` items had no entry. */
  ghost predicate Accounts(s: Summary, entries: seq<Entry>, lost: nat, rules: nat) {
    && s.total == Files(entries, AnyFile)
    && s.included == Files(entries, With(Included)) && s.includedBytes == Bytes(entries, With(Included))
    && s.excluded == Files(entries, With(Excluded)) && s.excludedBytes == Bytes(entries, With(Excluded))
    && s.attention == Files(entries, With(Attention))
    && s.unreadable == UnreadableEntries(entries) + lost
    && |s.rules| == rules
    && forall i :: 0 <= i < rules ==> s.rules[i] == Impact(Files(entries, MatchedBy(i)), Bytes(entries, MatchedBy(i)))
  }

  lemma FilesMore(entries: seq<Entry>, e: Entry, sort: Sort)
    ensures Files(entries + [e], sort) == Files(entries, sort) + if IsA(e, sort) then 1 else 0
    ensures Bytes(entries + [e], sort) == Bytes(entries, sort) + if IsA(e, sort) then e.size else 0
    ensures UnreadableEntries(entries + [e]) == UnreadableEntries(entries) + if e.disposition == Unreadable then 1 else 0
  {
    assert (entries + [e])[..|entries|] == entries;
  }

  /** The files are the included, the excluded, those that need attention and the unreadable ones. */
  lemma {:induction false} FilesPartition(entries: seq<Entry>)
    ensures Files(entries, AnyFile) == Files(entries, With(Included)) + Files(entries, With(Excluded))
                                       + Files(entries, With(Attention)) + Files(entries, With(Unreadable))
  {
    if entries != [] {
      FilesPartition(entries[..|entries| - 1]);
    }
  }

  ghost function MatchesInAll(entries: seq<Entry>, rules: nat): nat {
    if rules == 0 then 0 else MatchesInAll(entries, rules - 1) + Files(entries, MatchedBy(rules - 1))
  }

  /** No rule matches more files than are excluded, and together the rules match at least all those. */
  lemma {:induction false} RulesCoverExcluded(entries: seq<Entry>, rules: nat)
    requires forall e :: e in entries ==> WellFormed(e, rules)
    ensures forall i: nat :: i < rules ==> Files(entries, MatchedBy(i)) <= Files(entries, With(Excluded))
    ensures Files(entries, With(Excluded)) <= MatchesInAll(entries, rules)
  {
    if entries == [] {
      NoMatches(rules);
    } else {
      var n := |entries| - 1;
      var e := entries[n];
      assert e in entries;
      RulesCoverExcluded(entries[..n], rules);
      MatchesMore(entries[..n], e, rules, if e.rules == [] then 0 else e.rules[0]);
      assert entries == entries[..n] + [e];
      if IsA(e, With(Excluded)) {
        assert e.rules[0] in e.rules;
      }
      forall i: nat | i < rules
        ensures Files(entries, MatchedBy(i)) <= Files(entries, With(Excluded))
      {
        assert Files(entries[..n], MatchedBy(i)) <= Files(entries[..n], With(Excluded));
        assert i in e.rules ==> e.rules != [];
      }
    }
  }

  lemma {:induction false} NoMatches(rules: nat)
    ensures MatchesInAll([], rules) == 0
  {
    if rules > 0 {
      NoMatches(rules - 1);
    }
  }

  lemma {:induction false} MatchesMore(entries: seq<Entry>, e: Entry, rules: nat, hit: nat)
    ensures MatchesInAll(entries + [e], rules) >= MatchesInAll(entries, rules)
    ensures e.kind != Directory && hit in e.rules && hit < rules ==> MatchesInAll(entries + [e], rules) > MatchesInAll(entries, rules)
  {
    hide Files;
    if rules > 0 {
      MatchesMore(entries, e, rules - 1, hit);
      FilesMore(entries, e, MatchedBy(rules - 1));
    }
  }

  // ----- The walk

  datatype Ending = Going | Truncated | Stopped

  // What a walk has reported, and how many items it counted or lost on the way.
  datatype Walk = Walk(entries: seq<Entry>, scanned: nat, lost: nat, ending: Ending)

  ghost function Advance(glob: Glob, exclusions: seq<string>, limit: nat, w: Walk, node: Node): Walk {
    if !w.ending.Going? then w
    else if node.Cancelled? then w.(ending := Stopped)
    else if node.Root? then w.(lost := w.lost + if node.failed then 1 else 0)
    else if limit <= w.scanned then w.(ending := Truncated)
    else if node.Unlocated? then w.(scanned := w.scanned + 1, lost := w.lost + 1)
    else w.(scanned := w.scanned + 1, entries := w.entries + [EntryOf(glob, exclusions, node, |w.entries| + 1)])
  }

  ghost function WalkOver(glob: Glob, exclusions: seq<string>, limit: nat, nodes: seq<Node>): Walk {
    if nodes == [] then Walk([], 0, 0, Going)
    else Advance(glob, exclusions, limit, WalkOver(glob, exclusions, limit, nodes[..|nodes| - 1]), nodes[|nodes| - 1])
  }

  lemma {:induction false} WalkIsReported(glob: Glob, exclusions: seq<string>, limit: nat, nodes: seq<Node>)
    ensures var w := WalkOver(glob, exclusions, limit, nodes);
            Reported(w.entries, |exclusions|) && w.scanned <= limit && |w.entries| <= w.scanned
  {
    if nodes != [] {
      WalkIsReported(glob, exclusions, limit, nodes[..|nodes| - 1]);
      var w := WalkOver(glob, exclusions, limit, nodes[..|nodes| - 1]);
      if Emits(nodes[|nodes| - 1]) {
        EntryIsWellFormed(glob, exclusions, nodes[|nodes| - 1], |w.entries| + 1);
      }
    }
  }

  /** The callbacks that stand for an item below the root, those that report an entry, and how many have none. */
  function Items(nodes: seq<Node>): seq<Node> {
    if nodes == [] then []
    else
      var n := |nodes| - 1;
      Items(nodes[..n]) + if nodes[n].Root? || nodes[n].Cancelled? then [] else [nodes[n]]
  }

  function Reporting(nodes: seq<Node>): (r: seq<Node>)
    ensures forall k :: 0 <= k < |r| ==> Emits(r[k])
  {
    if nodes == [] then []
    else
      var n := |nodes| - 1;
      Reporting(nodes[..n]) + if nodes[n].Broken? || nodes[n].Unstated? || nodes[n].Seen? then [nodes[n]] else []
  }

  function WithoutEntry(nodes: seq<Node>): nat {
    if nodes == [] then 0
    else
      var n := |nodes| - 1;
      WithoutEntry(nodes[..n]) + if nodes[n].Unlocated? || (nodes[n].Root? && nodes[n].failed) then 1 else 0
  }

  /** The walk has taken in all of these callbacks: one entry for each item that reports one, in order. */
  ghost predicate TookIn(w: Walk, glob: Glob, exclusions: seq<string>, nodes: seq<Node>) {
    && w.scanned == |Items(nodes)| && w.lost == WithoutEntry(nodes) && |w.entries| == |Reporting(nodes)|
    && forall k :: 0 <= k < |w.entries| ==> Describes(w.entries[k], glob, exclusions, Reporting(nodes)[k], k + 1)
  }

  /**
   * A walk goes on as long as it is not cancelled and has met no more items than the limit. One that has ended took
   * in everything before the callback that ended it, which is a cancellation or an item past the limit.
   */
  lemma {:induction false} WalkTakesIn(glob: Glob, exclusions: seq<string>, limit: nat, nodes: seq<Node>) returns (m: nat)
    ensures var w := WalkOver(glob, exclusions, limit, nodes);
      && m <= |nodes| && TookIn(w, glob, exclusions, nodes[..m])
      && |Items(nodes[..m])| <= limit && (forall k :: 0 <= k < m ==> !nodes[k].Cancelled?)
      && (w.ending.Going? <==> m == |nodes|)
      && (w.ending.Stopped? <==> m < |nodes| && nodes[m].Cancelled?)
      && (w.ending.Truncated? ==> !nodes[m].Root? && |Items(nodes[..m])| == limit)
  {
    if nodes == [] {
      m := 0;
    } else {
      var n := |nodes| - 1;
      m := WalkTakesIn(glob, exclusions, limit, nodes[..n]);
      var w := WalkOver(glob, exclusions, limit, nodes[..n]);
      assert nodes[..n][..m] == nodes[..m];
      if w.ending.Going? && Advance(glob, exclusions, limit, w, nodes[n]).ending.Going? {
        TakesOneMore(glob, exclusions, limit, w, nodes[..n], nodes[n]);
        assert nodes == nodes[..n] + [nodes[n]] && nodes[..|nodes|] == nodes;
        m := |nodes|;
      }
    }
  }

  lemma TakesOneMore(glob: Glob, exclusions: seq<string>, limit: nat, w: Walk, nodes: seq<Node>, node: Node)
    requires w.ending.Going? && TookIn(w, glob, exclusions, nodes) && Advance(glob, exclusions, limit, w, node).ending.Going?
    ensures !node.Cancelled? && TookIn(Advance(glob, exclusions, limit, w, node), glob, exclusions, nodes + [node])
    ensures |Items(nodes)| <= limit ==> |Items(nodes + [node])| <= limit
  {
    hide Describes, EntryOf;
    assert (nodes + [node])[..|nodes|] == nodes;
    if Emits(node) { EntryDescribes(glob, exclusions, node, |w.entries| + 1); }
  }

  lemma EntryIsWellFormed(glob: Glob, exclusions: seq<string>, node: Node, ordinal: int)
    requires Emits(node)
    ensures WellFormed(EntryOf(glob, exclusions, node, ordinal), |exclusions|)
  {}

  lemma {:induction false} WalkGrows(glob: Glob, exclusions: seq<string>, limit: nat, nodes: seq<Node>, n: nat)
    requires n <= |nodes|
    ensures WalkOver(glob, exclusions, limit, nodes[..n]).entries <= WalkOver(glob, exclusions, limit, nodes).entries
    ensures !WalkOver(glob, exclusions, limit, nodes[..n]).ending.Going? ==>
      WalkOver(glob, exclusions, limit, nodes[..n]) == WalkOver(glob, exclusions, limit, nodes)
  {
    if n < |nodes| {
      var m := |nodes| - 1;
      assert nodes[..m][..n] == nodes[..n];
      WalkGrows(glob, exclusions, limit, nodes[..m], n);
    } else {
      assert nodes[..n] == nodes;
    }
  }
}
