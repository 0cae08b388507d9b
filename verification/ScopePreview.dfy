/** A scope preview from walk to upload: the scan counts each item and hands its entry to the uploader. */
module ScopePreview {
  import opened ScopeMatch
  import opened ScopePath
  import opened ScopeScan
  import opened ScopeUpload

  const EMPTY := Summary(0, 0, 0, 0, 0, 0, 0, 0, false, [])

  method MatchedRules(glob: Glob, exclusions: seq<string>, path: string) returns (matched: seq<nat>)
    ensures matched == Matching(glob, exclusions, path)
  {
    hide SomeCutMatches, Trim;
    matched := [];
    for i := 0 to |exclusions|
      invariant matched == Matching(glob, exclusions[..i], path)
    {
      assert exclusions[..i + 1][..i] == exclusions[..i];
      var hit := MatchScopePathOrAncestor(glob, exclusions[i], path);
      if hit { matched := matched + [i]; }
    }
    assert exclusions[..|exclusions|] == exclusions;
  }

  // What the walk does after a callback.
  datatype Next = Continue | SkipAll | Cancel | VisitorFailed

  class Scan {
    const glob: Glob
    const exclusions: seq<string>
    const limit: nat
    var summary: Summary
    var ordinal: nat
    ghost var entries: seq<Entry>   // reported so far
    ghost var lost: nat             // items without an entry

    ghost predicate Valid()
      reads this
    {
      && ordinal == |entries| && Reported(entries, |exclusions|)
      && Accounts(summary, entries, lost, |exclusions|) && 0 <= summary.scanned
    }

    ghost function Walked(): Walk
      reads this
      requires summary.scanned >= 0
    {
      Walk(entries, summary.scanned, lost, if summary.truncated then Truncated else Going)
    }

    constructor (glob: Glob, exclusions: seq<string>, limit: int)
      ensures Valid() && Walked() == Walk([], 0, 0, Going)
      ensures this.glob == glob && this.exclusions == exclusions
      ensures this.limit == if limit <= 0 then MAX_SCOPE_ITEMS else limit
    {
      this.glob, this.exclusions := glob, exclusions;
      this.limit := if limit <= 0 then MAX_SCOPE_ITEMS else limit;
      summary := EMPTY.(rules := seq(|exclusions|, i => Impact(0, 0)));
      ordinal, entries, lost := 0, [], 0;
    }

    /** Count an entry. */
    method Count(e: Entry)
      requires Valid() && e.ordinal == ordinal + 1 && WellFormed(e, |exclusions|)
      modifies this
      ensures Valid() && entries == old(entries) + [e] && lost == old(lost)
      ensures summary.scanned == old(summary.scanned) && summary.truncated == old(summary.truncated)
    {
      hide Files, Bytes, UnreadableEntries, Accounts;
      ghost var (before, already) := (summary, entries);
      var rules := summary.rules;
      AccountsHasRules(summary, entries, lost, |exclusions|);
      if e.kind != Directory { rules := CountRules(rules, e); }
      var s := summary.(rules := rules);
      if e.disposition == Unreadable { s := s.(unreadable := s.unreadable + 1); }
      if e.kind != Directory {
        s := s.(total := s.total + 1);
        match e.disposition
        case Excluded => s := s.(excluded := s.excluded + 1, excludedBytes := s.excludedBytes + e.size);
        case Included => s := s.(included := s.included + 1, includedBytes := s.includedBytes + e.size);
        case Attention => s := s.(attention := s.attention + 1);
        case Unreadable =>
      }
      summary := s;
      ordinal := ordinal + 1;
      entries := entries + [e];
      AccountsMore(before, s, already, lost, e, |exclusions|);
    }

    method CountRules(before: seq<Impact>, e: Entry) returns (rules: seq<Impact>)
      requires WellFormed(e, |before|)
      ensures RulesCounted(before, rules, e)
    {
      rules := before;
      for k := 0 to |e.rules|
        invariant |rules| == |before|
        invariant forall i: nat :: i < |before| ==>
          rules[i] == if i in e.rules[..k] then Impact(before[i].files + 1, before[i].bytes + e.size) else before[i]
      {
        var i := e.rules[k];
        assert i in e.rules && i !in e.rules[..k];
        assert e.rules[..k + 1] == e.rules[..k] + [i];
        rules := rules[i := Impact(rules[i].files + 1, rules[i].bytes + e.size)];
      }
      assert e.rules[..|e.rules|] == e.rules;
    }

    /** The entry a callback reports, put together from what the file system answered. */
    method Describe(node: Node) returns (e: Entry)
      requires Emits(node)
      ensures e == EntryOf(glob, exclusions, node, ordinal + 1)
      ensures Describes(e, glob, exclusions, node, ordinal + 1)
    {
      EntryDescribes(glob, exclusions, node, ordinal + 1);
      match node
      case Broken(path, directory, denied) =>
        e := Entry(ordinal + 1, path, if directory then Directory else Unknown, Unreadable, 0, ReadReason(denied), []);
      case Unstated(path, kind) => e := Entry(ordinal + 1, path, kind, Unreadable, 0, "metadata_unavailable", []);
      case Seen(path, kind, size, unreadable, denied) =>
        var matched := MatchedRules(glob, exclusions, path);
        var disposition, reason := Included, "";
        if |matched| > 0 { disposition, reason := Excluded, "exclusion_rule"; }
        if kind == Directory {
          if unreadable { return Entry(ordinal + 1, path, Directory, Unreadable, 0, ReadReason(denied), []); }
        } else if |matched| == 0 && kind == Special {
          disposition, reason := Attention, "special_file";
        } else if |matched| == 0 && kind == File && unreadable {
          disposition, reason := Unreadable, ReadReason(denied);
        }
        e := Entry(ordinal + 1, path, kind, disposition, size, reason, matched);
    }

    /** One callback of the walk. */
    method Visit(node: Node, uploader: Uploader) returns (next: Next)
      requires Valid() && uploader.Valid() && uploader.Taken() == entries && !summary.truncated
      modifies this, uploader
      ensures Valid() && uploader.Valid()
      ensures next != Cancel ==> Walked() == Advance(glob, exclusions, limit, old(Walked()), node)
      ensures next == Cancel <==> node.Cancelled?
      ensures next == Cancel ==> Walked() == old(Walked())
      ensures next == SkipAll <==> summary.truncated
      ensures next != VisitorFailed ==> uploader.Taken() == entries
      ensures next == VisitorFailed ==>
        uploader.Taken() == old(uploader.Taken()) < entries && uploader.Refused()
    {
      hide Accounts, EntryOf, Describes, Reported, WellFormed, Delivered, WellSent, ValidChunk, Estimate, Files, Bytes;
      if node.Cancelled? { return Cancel; }
      if node.Root? {
        if node.failed { CountLost(false); }
        return Continue;
      }
      if summary.scanned >= limit {
        AccountsOnlyTallies(summary, summary.(truncated := true), entries, lost, |exclusions|);
        summary := summary.(truncated := true);
        return SkipAll;
      }
      if node.Unlocated? {
        CountLost(true);
        return Continue;
      }
      AccountsOnlyTallies(summary, summary.(scanned := summary.scanned + 1), entries, lost, |exclusions|);
      summary := summary.(scanned := summary.scanned + 1);
      var ok := Report(node, uploader);
      next := if ok then Continue else VisitorFailed;
    }

    /** The entry of a callback, counted and handed over. */
    method Report(node: Node, uploader: Uploader) returns (ok: bool)
      requires Emits(node) && Valid() && uploader.Valid() && uploader.Taken() == entries
      modifies this, uploader
      ensures Valid() && uploader.Valid()
      ensures entries == old(entries) + [EntryOf(glob, exclusions, node, |old(entries)| + 1)] && lost == old(lost)
      ensures summary.scanned == old(summary.scanned) && summary.truncated == old(summary.truncated)
      ensures ok ==> uploader.Taken() == entries
      ensures !ok ==> uploader.Taken() == old(uploader.Taken()) < entries && uploader.Refused()
    {
      hide Accounts, EntryOf, Describes, Reported, WellFormed, Delivered, WellSent, ValidChunk, Estimate, EntryBytes, Files, Bytes;
      var entry := Describe(node);
      EntryIsWellFormed(glob, exclusions, node, ordinal + 1);
      OrdinalOfEntry(glob, exclusions, node, ordinal + 1);
      Count(entry);
      ok := uploader.Visit(entry);
    }

    method CountLost(scanned: bool)
      requires Valid()
      modifies this
      ensures Valid() && entries == old(entries) && lost == old(lost) + 1 && ordinal == old(ordinal)
      ensures summary.truncated == old(summary.truncated)
      ensures summary.scanned == old(summary.scanned) + if scanned then 1 else 0
    {
      if scanned { summary := summary.(scanned := summary.scanned + 1); }
      summary := summary.(unreadable := summary.unreadable + 1);
      lost := lost + 1;
    }
  }

  lemma OrdinalOfEntry(glob: Glob, exclusions: seq<string>, node: Node, ordinal: int)
    requires Emits(node)
    ensures EntryOf(glob, exclusions, node, ordinal).ordinal == ordinal
  {}

  lemma AccountsOnlyTallies(s: Summary, t: Summary, entries: seq<Entry>, lost: nat, rules: nat)
    requires Accounts(s, entries, lost, rules)
    requires t == s.(scanned := t.scanned, truncated := t.truncated)
    ensures Accounts(t, entries, lost, rules)
  {}

  /** Each rule the entry names has counted it, and no other. */
  ghost predicate RulesCounted(before: seq<Impact>, after: seq<Impact>, e: Entry) {
    && |after| == |before|
    && forall i: nat :: i < |before| ==>
      after[i] == if i in e.rules then Impact(before[i].files + 1, before[i].bytes + e.size) else before[i]
  }

  lemma AccountsHasRules(s: Summary, entries: seq<Entry>, lost: nat, rules: nat)
    requires Accounts(s, entries, lost, rules)
    ensures |s.rules| == rules
  {}

  /** A summary that accounts for some entries accounts for one more when it has been counted so. */
  lemma AccountsMore(s: Summary, t: Summary, entries: seq<Entry>, lost: nat, e: Entry, rules: nat)
    requires Accounts(s, entries, lost, rules)
    requires if e.kind != Directory then RulesCounted(s.rules, t.rules, e) else t.rules == s.rules
    requires t.unreadable == s.unreadable + if e.disposition == Unreadable then 1 else 0
    requires var file := e.kind != Directory;
      && t.total == s.total + (if file then 1 else 0)
      && t.included == s.included + (if file && e.disposition == Included then 1 else 0)
      && t.includedBytes == s.includedBytes + (if file && e.disposition == Included then e.size else 0)
      && t.excluded == s.excluded + (if file && e.disposition == Excluded then 1 else 0)
      && t.excludedBytes == s.excludedBytes + (if file && e.disposition == Excluded then e.size else 0)
      && t.attention == s.attention + (if file && e.disposition == Attention then 1 else 0)
    ensures Accounts(t, entries + [e], lost, rules)
  {
    hide Files, Bytes, UnreadableEntries;
    TalliesMore(entries, e);
  }

  lemma TalliesMore(entries: seq<Entry>, e: Entry)
    ensures forall sort :: Files(entries + [e], sort) == Files(entries, sort) + if IsA(e, sort) then 1 else 0
    ensures forall sort :: Bytes(entries + [e], sort) == Bytes(entries, sort) + if IsA(e, sort) then e.size else 0
    ensures UnreadableEntries(entries + [e]) == UnreadableEntries(entries) + if e.disposition == Unreadable then 1 else 0
  {
    hide *;
    FilesMore(entries, e, AnyFile);
    forall sort
      ensures Files(entries + [e], sort) == Files(entries, sort) + if IsA(e, sort) then 1 else 0
      ensures Bytes(entries + [e], sort) == Bytes(entries, sort) + if IsA(e, sort) then e.size else 0
    {
      FilesMore(entries, e, sort);
    }
  }

  // ----- The whole preview

  /** Every entry the walk reports passes the receiver's check by itself. */
  ghost predicate AllAcceptable(entries: seq<Entry>) {
    forall e :: e in entries ==> Acceptable(e)
  }

  /**
   * A preview with upload. Whatever happens, the chunks uploaded are well formed, numbered in turn and hold a
   * beginning of the walk's entries; on success they hold all of them and the summary accounts for them. If every
   * upload goes through, it succeeds exactly when the walk is not cancelled, the identities are valid and every
   * entry is acceptable.
   */
  method Preview(glob: Glob, exclusions: seq<string>, requested: int, nodes: seq<Node>,
                 assignmentId: string, agentId: string, accepts: nat -> bool)
    returns (succeeded: bool, summary: Summary, sent: seq<Chunk>)
    ensures WellSent(sent, assignmentId, agentId)
    ensures var limit := if requested <= 0 then MAX_SCOPE_ITEMS else requested;
            var walk := WalkOver(glob, exclusions, limit, nodes);
            && Delivered(sent) <= walk.entries
            && (succeeded ==> Delivered(sent) == walk.entries && Accounts(summary, walk.entries, walk.lost, |exclusions|)
                              && summary.scanned == walk.scanned <= limit && summary.truncated == walk.ending.Truncated?)
            && ((forall k: nat :: accepts(k)) ==>
                  (succeeded <==> !walk.ending.Stopped? && AllAcceptable(walk.entries)
                                  && (walk.entries != [] ==> ValidIdentity(assignmentId, agentId))))
  {
    hide Accounts, Advance, WellSent, Acceptable, ValidIdentity, ValidChunk, Reported, WalkOver, Delivered;
    var scan := new Scan(glob, exclusions, requested);
    var uploader := new Uploader(assignmentId, agentId, accepts);
    ghost var limit := scan.limit;
    ghost var walk := WalkOver(glob, exclusions, limit, nodes);
    EmptyWalk(glob, exclusions, limit);
    assert nodes[..0] == [];
    var next, i := Continue, 0;
    while i < |nodes| && next == Continue
      invariant i <= |nodes|
      invariant scan.glob == glob && scan.exclusions == exclusions && scan.limit == limit
      invariant uploader.assignmentId == assignmentId && uploader.agentId == agentId && uploader.accepts == accepts
      invariant scan.Valid() && uploader.Valid()
      invariant next == SkipAll <==> scan.summary.truncated
      invariant next != Cancel ==> scan.Walked() == WalkOver(glob, exclusions, limit, nodes[..i])
      invariant next == Cancel ==> WalkOver(glob, exclusions, limit, nodes[..i]) == Walk(scan.entries, scan.summary.scanned, scan.lost, Stopped)
      invariant next != VisitorFailed ==> uploader.Taken() == scan.entries
      invariant next == VisitorFailed ==> uploader.Taken() <= scan.entries && uploader.Refused()
    {
      WalkStep(glob, exclusions, limit, nodes, i);
      next := scan.Visit(nodes[i], uploader);
      i := i + 1;
    }
    WalkGrows(glob, exclusions, limit, nodes, i);
    assert nodes[..|nodes|] == nodes;
    summary := scan.summary;
    if next == Continue || next == SkipAll {
      succeeded := uploader.Flush();
      WalkIsReported(glob, exclusions, limit, nodes);
    } else {
      succeeded := false;
    }
    sent := uploader.sent;
    if succeeded {
      DeliveredIsAcceptable(sent, assignmentId, agentId);
    } else if next != Cancel {
      RefusedIsUnacceptable(uploader, scan.entries, |exclusions|);
    }
  }

  lemma EmptyWalk(glob: Glob, exclusions: seq<string>, limit: nat)
    ensures WalkOver(glob, exclusions, limit, []) == Walk([], 0, 0, Going)
  {}

  lemma WalkStep(glob: Glob, exclusions: seq<string>, limit: nat, nodes: seq<Node>, i: nat)
    requires i < |nodes|
    ensures WalkOver(glob, exclusions, limit, nodes[..i + 1]) == Advance(glob, exclusions, limit, WalkOver(glob, exclusions, limit, nodes[..i]), nodes[i])
    ensures WalkOver(glob, exclusions, limit, nodes[..i]).ending.Going? && nodes[i].Cancelled? ==>
      WalkOver(glob, exclusions, limit, nodes[..i + 1]) == WalkOver(glob, exclusions, limit, nodes[..i]).(ending := Stopped)
  {
    assert nodes[..i + 1][..i] == nodes[..i];
  }

  lemma RefusedIsUnacceptable(u: Uploader, entries: seq<Entry>, rules: nat)
    requires u.Valid() && u.Refused() && u.Taken() <= entries && Reported(entries, rules)
    ensures (forall k: nat :: u.accepts(k)) ==> entries != [] && (!ValidIdentity(u.assignmentId, u.agentId) || !AllAcceptable(entries))
  {
    hide Acceptable, ValidIdentity, ValidChunk, Reported, Delivered, WellSent;
    var from := |Delivered(u.sent)|;
    assert u.entries == entries[from..from + |u.entries|];
    AcceptableRunIsValid(entries, from, u.entries, |u.sent|, u.assignmentId, u.agentId, rules);
    assert forall e :: e in u.entries ==> e in entries;
  }
}
