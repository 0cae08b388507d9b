/** Browsing a snapshot page by page, and comparing two snapshots. */
module SnapshotBrowser {
  import opened Wrappers
  import opened Text

  datatype Node = Node(path: string, kind: string, size: int, modTime: string)

  // ----- Queries

  const MAXIMUM_ITEMS := 500
  const DEFAULT_PAGE_SIZE := 200
  const DEFAULT_EXAMPLES := 100
  const MAXIMUM_NODES := 1_000_000

  // A cursor is the offset it stands for; what a listing that cannot be read or decoded gives is `Unreadable`.
  datatype Error = InvalidSnapshot | InvalidPath | InvalidSearch | InvalidLimit | InvalidCursor | Unreadable

  datatype Result<+T> = Ok(value: T) | Err(error: Error)

  // A query, and which nodes its path and its search text ask for.
  datatype Query = Query(path: string, search: string, limit: int, matches: Node -> bool)

  predicate Alphanumeric(c: char) {
    'a' <= c <= 'z' || 'A' <= c <= 'Z' || '0' <= c <= '9'
  }

  /** One to 128 letters and digits, so that it cannot be taken for an option. */
  predicate SafeSnapshotId(id: string) {
    1 <= |id| <= 128 && forall c :: c in id ==> Alphanumeric(c)
  }

  /** The check as it is made: on the length in bytes, a leading dash and then each character. */
  method CheckSnapshotId(value: string) returns (ok: bool)
    ensures ok <==> SafeSnapshotId(value)
  {
    hide Size;
    PlainSize(value);
    assert forall i :: 0 <= i < |value| ==> value[i] in value;
    if value == "" || value[0] == '-' || Size(value) > 128 { return false; }
    for i := 0 to |value|
      invariant forall c :: c in value[..i] ==> Alphanumeric(c)
    {
      assert value[..i + 1] == value[..i] + [value[i]];
      if !('a' <= value[i] <= 'z' || 'A' <= value[i] <= 'Z' || '0' <= value[i] <= '9') { return false; }
    }
    assert value[..|value|] == value;
    ok := true;
  }

  lemma {:induction false} PlainSize(s: string)
    ensures (forall c :: c in s ==> Alphanumeric(c)) ==> Size(s) == |s|
  {
    if s != "" {
      PlainSize(s[..|s| - 1]);
      assert (forall c :: c in s ==> Alphanumeric(c)) ==> Alphanumeric(s[|s| - 1]);
    }
  }

  predicate OneLine(text: string) {
    forall c :: c in text ==> c != '\0' && c != '\r' && c != '\n'
  }

  /** A path to look under, none if empty; blanks around it are taken to be gone already. */
  predicate AllowedPath(path: string) {
    OneLine(path) && (path != "" ==> path[0] == '/')
  }

  /** How many items a query gets: a default for zero, and an error outside the bounds. */
  function ItemLimit(limit: int, default: nat): (size: Result<nat>)
    requires 1 <= default <= MAXIMUM_ITEMS
    ensures size == if limit == 0 then Ok(default) else if 0 < limit <= 500 then Ok(limit) else Err(InvalidLimit)
  {
    var n := if limit == 0 then default else limit;
    if n < 1 || n > MAXIMUM_ITEMS then Err(InvalidLimit) else Ok(n)
  }

  predicate AllowedSearch(search: string) {
    OneLine(search) && Size(search) <= 256
  }

  /** The queries that are answered if the listing can be read. */
  predicate Allowed(snapshotId: string, query: Query) {
    SafeSnapshotId(snapshotId) && AllowedPath(query.path) && AllowedSearch(query.search) && 0 <= query.limit <= MAXIMUM_ITEMS
  }

  // ----- Pages

  datatype Page = Page(items: seq<Node>, truncated: bool, next: Option<int>)

  /** The nodes a query asks for, in the order restic lists them. */
  function Matching(nodes: seq<Node>, matches: Node -> bool): seq<Node> {
    if nodes == [] then []
    else
      var (init, last) := (Matching(nodes[..|nodes| - 1], matches), nodes[|nodes| - 1]);
      if matches(last) then init + [last] else init
  }

  function Min(a: int, b: int): int {
    if a <= b then a else b
  }

  /** The page a query and its cursor ask for, or the first objection to them. */
  method Browse(snapshotId: string, query: Query, cursor: Option<int>, listing: Option<seq<Node>>) returns (r: Result<Page>)
    ensures r.Ok? <==> Allowed(snapshotId, query) && (cursor.Some? ==> cursor.value >= 1) && listing.Some?
    ensures r.Err? ==> r.error == if !SafeSnapshotId(snapshotId) then InvalidSnapshot
                                  else if !AllowedPath(query.path) then InvalidPath
                                  else if !AllowedSearch(query.search) then InvalidSearch
                                  else if query.limit < 0 || query.limit > 500 then InvalidLimit
                                  else if cursor.Some? && cursor.value < 1 then InvalidCursor
                                  else Unreadable
    ensures r.Ok? ==>
      var all, offset, limit := Matching(listing.value, query.matches), Offset(cursor), if query.limit == 0 then 200 else query.limit;
      && r.value.items == PageOf(all, offset, limit)
      && (r.value.truncated <==> offset + limit < |all|)
      && r.value.next == if r.value.truncated then Some(offset + limit) else None
  {
    hide Matching, PageOf, SafeSnapshotId, AllowedPath, AllowedSearch;
    var safe := CheckSnapshotId(snapshotId);
    if !safe { return Err(InvalidSnapshot); }
    if !AllowedPath(query.path) { return Err(InvalidPath); }
    if !AllowedSearch(query.search) { return Err(InvalidSearch); }
    var limit := ItemLimit(query.limit, DEFAULT_PAGE_SIZE);
    if limit.Err? { return Err(limit.error); }
    if cursor.Some? && cursor.value < 1 { return Err(InvalidCursor); }
    if listing.None? { return Err(Unreadable); }
    var page := BrowseListing(listing.value, query.matches, Offset(cursor), limit.value);
    r := Ok(page);
  }

  function Offset(cursor: Option<int>): nat {
    if cursor.Some? && cursor.value >= 1 then cursor.value else 0
  }

  /** One page: the listing is streamed once, matches before the offset are counted past, matches after the page seen. */
  method BrowseListing(nodes: seq<Node>, matches: Node -> bool, offset: nat, limit: nat) returns (page: Page)
    requires limit >= 1
    ensures var all := Matching(nodes, matches);
            && page.items == PageOf(all, offset, limit)
            && (page.truncated <==> offset + limit < |all|)
            && page.next == if page.truncated then Some(offset + limit) else None
  {
    hide Matching, PageOf;
    var items: seq<Node>, matched, truncated := [], 0, false;
    NothingMatches(nodes, matches, offset, limit);
    for i := 0 to |nodes|
      invariant var some := Matching(nodes[..i], matches);
                && matched == Min(|some|, offset + limit) && (truncated <==> offset + limit < |some|)
                && items == PageOf(some, offset, limit) && |items| == Min(|some|, offset + limit) - Min(offset, |some|)
    {
      var node := nodes[i];
      OneMoreMatch(nodes, i, matches, offset, limit);
      if !matches(node) { continue; }
      if matched < offset {
        matched := matched + 1;
        continue;
      }
      if |items| < limit {
        items := items + [node];
        matched := matched + 1;
        continue;
      }
      truncated := true;
    }
    assert nodes[..|nodes|] == nodes;
    page := Page(items, truncated, if truncated then Some(offset + |items|) else None);
  }

  function PageOf(all: seq<Node>, offset: nat, limit: nat): (items: seq<Node>)
    ensures |items| == Min(offset + limit, |all|) - Min(offset, |all|)
  {
    all[Min(offset, |all|)..Min(offset + limit, |all|)]
  }

  lemma NothingMatches(nodes: seq<Node>, matches: Node -> bool, offset: nat, limit: nat)
    ensures Matching(nodes[..0], matches) == [] && PageOf([], offset, limit) == []
  {}

  lemma OneMoreMatch(nodes: seq<Node>, i: nat, matches: Node -> bool, offset: nat, limit: nat)
    requires i < |nodes|
    ensures var (some, more) := (Matching(nodes[..i], matches), Matching(nodes[..i + 1], matches));
            && more == (if matches(nodes[i]) then some + [nodes[i]] else some)
            && PageOf(more, offset, limit)
               == PageOf(some, offset, limit) + if matches(nodes[i]) && offset <= |some| < offset + limit then [nodes[i]] else []
  {
    assert nodes[..i + 1][..i] == nodes[..i];
  }

  /** Following the cursors from the first page on shows every match exactly once, in order, and comes to an end. */
  method BrowseAll(snapshotId: string, query: Query, listing: Option<seq<Node>>) returns (r: Result<seq<Node>>, pages: nat)
    ensures r.Ok? <==> Allowed(snapshotId, query) && listing.Some?
    ensures r.Ok? ==> r.value == Matching(listing.value, query.matches)
    ensures r.Ok? ==> var limit := if query.limit == 0 then 200 else query.limit;
                      pages >= 1 && (pages - 1) * limit <= |r.value| <= pages * limit
  {
    hide Matching, SafeSnapshotId, AllowedPath, AllowedSearch;
    var page := Browse(snapshotId, query, None, listing);
    if page.Err? { return Err(page.error), 0; }
    var shown := page.value.items;
    pages := 1;
    ghost var (all, limit) := (Matching(listing.value, query.matches), ItemLimit(query.limit, DEFAULT_PAGE_SIZE).value);
    while page.value.next.Some?
      invariant page.Ok? && |shown| <= |all| && shown == all[..|shown|]
      invariant page.value.next.Some? ==> page.value.next.value == |shown| == pages * limit < |all|
      invariant page.value.next.None? ==> |shown| == |all|
      invariant pages >= 1 && (pages - 1) * limit <= |shown| <= pages * limit
      decreases |all| - |shown|, page.value.next.Some?
    {
      page := Browse(snapshotId, query, page.value.next, listing);
      shown := shown + page.value.items;
      pages := pages + 1;
    }
    r := Ok(shown);
  }

  // ----- The order of paths

  predicate Less(a: string, b: string) {
    if b == "" then false
    else if a == "" then true
    else a[0] < b[0] || (a[0] == b[0] && Less(a[1..], b[1..]))
  }

  lemma {:induction false} LessIsTotal(a: string, b: string)
    ensures Less(a, b) || a == b || Less(b, a)
    ensures !(Less(a, b) && Less(b, a)) && !Less(a, a)
    decreases |a|
  {
    if a != "" {
      LessIsTotal(a[1..], a[1..]);
      if b != "" {
        LessIsTotal(a[1..], b[1..]);
        assert a == [a[0]] + a[1..] && b == [b[0]] + b[1..];
      }
    }
  }

  lemma {:induction false} LessIsTransitive(a: string, b: string, c: string)
    requires Less(a, b) && Less(b, c)
    ensures Less(a, c)
    decreases |a|
  {
    if a != "" && a[0] == b[0] == c[0] {
      LessIsTransitive(a[1..], b[1..], c[1..]);
    }
  }

  // ----- The comparison

  datatype Kind = Added | Modified | Removed

  datatype Change = Change(path: string, kind: Kind, nodeKind: string, size: int, previous: int)

  type Index = map<string, Node>

  predicate Same(a: Node, b: Node) {
    a.kind == b.kind && a.size == b.size && a.modTime == b.modTime
  }

  /** What happened to a path between two listings. */
  function ChangeAt(before: Index, after: Index, path: string): Option<Change> {
    if path in after then
      var now := after[path];
      if path !in before then Some(Change(path, Added, now.kind, now.size, 0))
      else if !Same(before[path], now) then Some(Change(path, Modified, now.kind, now.size, before[path].size))
      else None
    else if path in before then Some(Change(path, Removed, before[path].kind, 0, before[path].size))
    else None
  }

  /** The change at a path that is not the same in both. */
  function ChangeOf(before: Index, after: Index, path: string): (c: Change)
    requires path in before.Keys + after.Keys
    requires path in after && path in before ==> !Same(before[path], after[path])
    ensures ChangeAt(before, after, path) == Some(c)
  {
    if path in after && path !in before then Change(path, Added, after[path].kind, after[path].size, 0)
    else if path in after then Change(path, Modified, after[path].kind, after[path].size, before[path].size)
    else Change(path, Removed, before[path].kind, 0, before[path].size)
  }

  function Changed(before: Index, after: Index, kind: Kind): set<string> {
    set path | path in before.Keys + after.Keys && ChangeAt(before, after, path).Some? && ChangeAt(before, after, path).value.kind == kind
  }

  ghost predicate Ascending(changes: seq<Change>) {
    forall i, j :: 0 <= i < j < |changes| ==> Less(changes[i].path, changes[j].path)
  }

  /** All changes between two listings, and nothing else, by path. */
  ghost predicate Lists(changes: seq<Change>, before: Index, after: Index) {
    && Ascending(changes)
    && (forall c :: c in changes ==> ChangeAt(before, after, c.path) == Some(c))
    && (forall path :: ChangeAt(before, after, path).Some? ==> ChangeAt(before, after, path).value in changes)
  }

  /** There is one such list, whatever order the maps are walked in. */
  lemma {:induction false} ListIsUnique(a: seq<Change>, b: seq<Change>)
    requires Ascending(a) && Ascending(b) && forall c :: c in a <==> c in b
    ensures a == b
    decreases |a|
  {
    if a == [] || b == [] {
      HeadIsMember(a);
      HeadIsMember(b);
    } else {
      FirstIsLeast(a, b);
      FirstIsLeast(b, a);
      LessIsTotal(a[0].path, b[0].path);
      OneOfEachPath(a, b);
      forall c ensures c in a[1..] <==> c in b[1..] {
        TailMember(a, c);
        TailMember(b, c);
      }
      ListIsUnique(a[1..], b[1..]);
    }
  }

  lemma HeadIsMember(a: seq<Change>)
    ensures a == [] || a[0] in a
  {}

  lemma FirstIsLeast(a: seq<Change>, b: seq<Change>)
    requires Ascending(a) && a != [] && b != [] && b[0] in a
    ensures a[0].path == b[0].path || Less(a[0].path, b[0].path)
  {
    var i :| 0 <= i < |a| && a[i] == b[0];
  }

  lemma OneOfEachPath(a: seq<Change>, b: seq<Change>)
    requires Ascending(a) && a != [] && b != [] && b[0] in a && a[0].path == b[0].path
    ensures a[0] == b[0]
  {
    var i :| 0 <= i < |a| && a[i] == b[0];
    LessIsTotal(a[0].path, a[0].path);
  }

  lemma TailMember(a: seq<Change>, c: Change)
    requires Ascending(a) && a != []
    ensures c in a[1..] <==> c in a && c != a[0]
  {
    if c in a[1..] {
      var i :| 0 <= i < |a[1..]| && a[1..][i] == c;
      assert a[i + 1] == c && Less(a[0].path, a[i + 1].path);
      LessIsTotal(c.path, c.path);
    }
    assert a == [a[0]] + a[1..];
  }

  /** Put one change into an ascending list that has none for its path. */
  method Insert(sorted: seq<Change>, c: Change) returns (more: seq<Change>)
    requires Ascending(sorted) && forall d :: d in sorted ==> d.path != c.path
    ensures Ascending(more) && |more| == |sorted| + 1
    ensures forall d :: d in more <==> d in sorted || d == c
  {
    var i := |sorted|;
    while i > 0 && Less(c.path, sorted[i - 1].path)
      invariant 0 <= i <= |sorted|
      invariant forall j :: i <= j < |sorted| ==> Less(c.path, sorted[j].path)
    {
      i := i - 1;
    }
    if i > 0 { assert sorted[i - 1] in sorted; }
    more := sorted[..i] + [c] + sorted[i..];
    InsertedBetween(sorted, c, i);
  }

  lemma InsertedBetween(sorted: seq<Change>, c: Change, i: nat)
    requires Ascending(sorted) && i <= |sorted|
    requires i > 0 ==> sorted[i - 1].path != c.path && !Less(c.path, sorted[i - 1].path)
    requires forall j :: i <= j < |sorted| ==> Less(c.path, sorted[j].path)
    ensures var more := sorted[..i] + [c] + sorted[i..]; Ascending(more) && forall d :: d in more <==> d in sorted || d == c
  {
    hide Less;
    forall j | 0 <= j < i
      ensures Less(sorted[j].path, c.path)
    {
      LessIsTotal(sorted[i - 1].path, c.path);
      if j < i - 1 { LessIsTransitive(sorted[j].path, sorted[i - 1].path, c.path); }
    }
    var (low, high) := (sorted[..i], sorted[i..]);
    AscendingJoin(low, [c] + high, c);
    SameMembers(sorted, c, i);
  }

  lemma SameMembers(sorted: seq<Change>, c: Change, i: nat)
    requires i <= |sorted|
    ensures sorted[..i] + [c] + sorted[i..] == sorted[..i] + ([c] + sorted[i..])
    ensures forall d :: d in sorted[..i] + [c] + sorted[i..] <==> d in sorted || d == c
  {
    assert sorted == sorted[..i] + sorted[i..];
  }

  /** Two ascending lists, the second starting at `c` and the first staying below it. */
  lemma AscendingJoin(low: seq<Change>, high: seq<Change>, c: Change)
    requires Ascending(low) && high != [] && high[0] == c && Ascending(high[1..])
    requires forall j :: 0 <= j < |low| ==> Less(low[j].path, c.path)
    requires forall j :: 1 <= j < |high| ==> Less(c.path, high[j].path)
    ensures Ascending(low + high)
  {
    var more := low + high;
    forall j, k | 0 <= j < k < |more|
      ensures Less(more[j].path, more[k].path)
    {
      if |low| <= j {
        var (a, b) := (j - |low|, k - |low|);
        if a > 0 { assert high[1..][a - 1] == high[a] && high[1..][b - 1] == high[b]; }
      } else if |low| < k {
        LessIsTransitive(low[j].path, c.path, high[k - |low|].path);
      }
    }
  }

  method Sort(changes: seq<Change>) returns (sorted: seq<Change>)
    requires OnePerPath(changes)
    ensures Ascending(sorted) && |sorted| == |changes|
    ensures forall c :: c in sorted <==> c in changes
  {
    hide Ascending;
    sorted := [];
    NothingToSort();
    for i := 0 to |changes|
      invariant Ascending(sorted) && |sorted| == i
      invariant forall c :: c in sorted <==> c in changes[..i]
    {
      assert changes[..i + 1] == changes[..i] + [changes[i]];
      sorted := Insert(sorted, changes[i]);
    }
    assert changes[..|changes|] == changes;
  }

  lemma NothingToSort()
    ensures Ascending([])
  {}

  datatype Diff = Diff(added: nat, removed: nat, modified: nat, items: seq<Change>, truncated: bool)

  /** What a comparison says of two listings. */
  ghost predicate Compares(diff: Diff, before: Index, after: Index, limit: nat) {
    exists all :: Describes(diff, all, before, after, limit)
  }

  /** The same in terms of the nodes: what counts as a change, and what is told of each example. */
  ghost predicate Reports(diff: Diff, before: Index, after: Index, limit: nat) {
    && diff.added == |after.Keys - before.Keys| && diff.removed == |before.Keys - after.Keys|
    && diff.modified == |set path | path in before.Keys * after.Keys && Differs(before[path], after[path])|
    && |diff.items| <= limit && (diff.truncated <==> diff.added + diff.removed + diff.modified > limit)
    && (forall c :: c in diff.items ==> Tells(c, before, after))
  }

  predicate Differs(a: Node, b: Node) {
    a.kind != b.kind || a.size != b.size || a.modTime != b.modTime
  }

  /** A change names its path, what happened to it, the kind of node and its size now and before. */
  predicate Tells(c: Change, before: Index, after: Index) {
    match c.kind
    case Added => c.path !in before && c.path in after && c.nodeKind == after[c.path].kind && c.size == after[c.path].size && c.previous == 0
    case Removed => c.path in before && c.path !in after && c.nodeKind == before[c.path].kind && c.size == 0 && c.previous == before[c.path].size
    case Modified =>
      && c.path in before && c.path in after && Differs(before[c.path], after[c.path])
      && c.nodeKind == after[c.path].kind && c.size == after[c.path].size && c.previous == before[c.path].size
  }

  lemma DescribesReports(diff: Diff, all: seq<Change>, before: Index, after: Index, limit: nat)
    requires Describes(diff, all, before, after, limit)
    ensures Reports(diff, before, after, limit)
  {
    hide Ascending, ChangeAt, Changed, Differs, Tells;
    ChangedMeans(before, after);
    forall c | c in diff.items ensures Tells(c, before, after) {
      assert c in all;
      ChangeTells(c, before, after);
    }
  }

  lemma ChangedMeans(before: Index, after: Index)
    ensures Changed(before, after, Added) == after.Keys - before.Keys && Changed(before, after, Removed) == before.Keys - after.Keys
    ensures Changed(before, after, Modified) == set path | path in before.Keys * after.Keys && Differs(before[path], after[path])
  {}

  lemma ChangeTells(c: Change, before: Index, after: Index)
    requires ChangeAt(before, after, c.path) == Some(c)
    ensures Tells(c, before, after)
  {}

  /** The same, given the one list of their changes. */
  ghost predicate Describes(diff: Diff, all: seq<Change>, before: Index, after: Index, limit: nat) {
    && Lists(all, before, after)
    && diff.items == all[..Min(limit, |all|)] && (diff.truncated <==> |all| > limit)
    && diff.added == |Changed(before, after, Added)| && diff.removed == |Changed(before, after, Removed)|
    && diff.modified == |Changed(before, after, Modified)|
    && |all| == diff.added + diff.removed + diff.modified
  }

  /**
   * The comparison walks both maps in any order and sorts what it found. The counts are those of the paths that
   * were added, removed and modified, and the examples are the first ones of the one sorted list of changes.
   */
  method Compare(before: Index, after: Index, limit: nat) returns (diff: Diff)
    ensures Compares(diff, before, after, limit)
    ensures Reports(diff, before, after, limit)
  {
    hide Reports, Found, ChangeAt, Changed, Lists, Ascending, OnePerPath, Same;
    NothingFound(before, after);
    var changes, added, modified := CompareAfter(before, after);
    var removed;
    changes, removed := CompareBefore(before, after, changes, added, modified);
    FoundOnce(changes, before, after, added, removed, modified);
    var sorted := Sort(changes);
    AllFound(changes, sorted, before, after, added, removed, modified);
    diff := Diff(added, removed, modified, sorted[..Min(limit, |sorted|)], |sorted| > limit);
    assert Describes(diff, sorted, before, after, limit);
    DescribesReports(diff, sorted, before, after, limit);
  }

  lemma FoundOnce(changes: seq<Change>, before: Index, after: Index, added: nat, removed: nat, modified: nat)
    requires Found(changes, before, after, before.Keys + after.Keys, added, removed, modified)
    ensures OnePerPath(changes)
  {}

  // The loop over the later listing.
  method CompareAfter(before: Index, after: Index) returns (changes: seq<Change>, added: nat, modified: nat)
    ensures Found(changes, before, after, after.Keys, added, 0, modified)
  {
    hide Found, ChangeAt, Changed, Same;
    changes, added, modified := [], 0, 0;
    NothingFound(before, after);
    var rest := after.Keys;
    assert after.Keys - rest == {};
    while rest != {}
      invariant rest <= after.Keys
      invariant Found(changes, before, after, after.Keys - rest, added, 0, modified)
      decreases |rest|
    {
      var path :| path in rest;
      ghost var (known, done) := (changes, after.Keys - rest);
      rest := rest - {path};
      assert after.Keys - rest == done + {path};
      if path !in before {
        changes := changes + [Change(path, Added, after[path].kind, after[path].size, 0)];
        FoundMore(known, before, after, done, added, 0, modified, path);
        added := added + 1;
      } else if !Same(before[path], after[path]) {
        changes := changes + [Change(path, Modified, after[path].kind, after[path].size, before[path].size)];
        FoundMore(known, before, after, done, added, 0, modified, path);
        modified := modified + 1;
      } else {
        FoundNothingMore(known, before, after, done, added, 0, modified, path);
      }
    }
    assert after.Keys - rest == after.Keys;
  }

  // The loop over the earlier listing.
  method CompareBefore(before: Index, after: Index, found: seq<Change>, added: nat, modified: nat)
    returns (changes: seq<Change>, removed: nat)
    requires Found(found, before, after, after.Keys, added, 0, modified)
    ensures Found(changes, before, after, before.Keys + after.Keys, added, removed, modified)
  {
    hide Found, ChangeAt, Changed, Same, Seen;
    AllSeen(before, after);
    changes, removed := found, 0;
    var rest := before.Keys;
    ghost var done := Seen(before, after, rest);
    while rest != {}
      invariant rest <= before.Keys && done == Seen(before, after, rest)
      invariant Found(changes, before, after, done, added, removed, modified)
      decreases |rest|
    {
      var path :| path in rest;
      OneMoreSeen(before, after, rest, path);
      rest := rest - {path};
      if path in after { continue; }
      ghost var known := changes;
      changes := changes + [Change(path, Removed, before[path].kind, 0, before[path].size)];
      FoundMore(known, before, after, done, added, removed, modified, path);
      removed := removed + 1;
      done := done + {path};
    }
  }

  /** The paths looked at when `rest` is left of the earlier listing. */
  ghost function Seen(before: Index, after: Index, rest: set<string>): set<string> {
    after.Keys + (before.Keys - rest)
  }

  lemma AllSeen(before: Index, after: Index)
    ensures Seen(before, after, before.Keys) == after.Keys && Seen(before, after, {}) == before.Keys + after.Keys
  {}

  lemma OneMoreSeen(before: Index, after: Index, rest: set<string>, path: string)
    requires path in rest && rest <= before.Keys
    ensures Seen(before, after, rest - {path}) == Seen(before, after, rest) + if path in after then {} else {path}
    ensures path in Seen(before, after, rest) <==> path in after
  {}

  ghost predicate OnePerPath(changes: seq<Change>) {
    forall i, j :: 0 <= i < j < |changes| ==> changes[i].path != changes[j].path
  }

  /** What has been found among the paths looked at so far. */
  ghost predicate Found(changes: seq<Change>, before: Index, after: Index, paths: set<string>, added: nat,
       removed: nat, modified: nat) {
    && OnePerPath(changes)
    && (forall c :: c in changes ==> c.path in paths && ChangeAt(before, after, c.path) == Some(c))
    && (forall path :: path in paths && ChangeAt(before, after, path).Some? ==> ChangeAt(before, after, path).value in changes)
    && added == |Changed(before, after, Added) * paths| && removed == |Changed(before, after, Removed) * paths|
    && modified == |Changed(before, after, Modified) * paths| && |changes| == added + removed + modified
  }

  lemma NothingFound(before: Index, after: Index)
    ensures Found([], before, after, {}, 0, 0, 0)
  {
    assert forall k :: Changed(before, after, k) * {} == {};
  }

  /** Which kind of change one more path adds to its count. */
  lemma CountMore(before: Index, after: Index, paths: set<string>, path: string, kind: Kind)
    requires path !in paths && path in before.Keys + after.Keys
    ensures |Changed(before, after, kind) * (paths + {path})|
            == |Changed(before, after, kind) * paths| + if ChangeAt(before, after, path).Some? && ChangeAt(before, after, path).value.kind == kind then 1 else 0
  {
    hide ChangeAt;
    var all := Changed(before, after, kind);
    if path in all {
      assert all * (paths + {path}) == all * paths + {path};
    } else {
      assert all * (paths + {path}) == all * paths;
    }
  }

  lemma FoundMore(changes: seq<Change>, before: Index, after: Index, paths: set<string>,
                  added: nat, removed: nat, modified: nat, path: string)
    requires Found(changes, before, after, paths, added, removed, modified) && path !in paths && path in before.Keys + after.Keys
    requires path in after && path in before ==> !Same(before[path], after[path])
    ensures var kind := ChangeOf(before, after, path).kind;
            Found(changes + [ChangeOf(before, after, path)], before, after, paths + {path}, added + (if kind == Added then 1 else 0),
                  removed + (if kind == Removed then 1 else 0), modified + (if kind == Modified then 1 else 0))
  {
    hide Same, Changed;
    CountMore(before, after, paths, path, Added);
    CountMore(before, after, paths, path, Removed);
    CountMore(before, after, paths, path, Modified);
    var (c, more) := (ChangeOf(before, after, path), changes + [ChangeOf(before, after, path)]);
    assert forall d :: d in more <==> d in changes || d == c;
    forall i, j | 0 <= i < j < |more| ensures more[i].path != more[j].path {
      assert more[i] in changes;
    }
  }

  lemma FoundNothingMore(changes: seq<Change>, before: Index, after: Index, paths: set<string>, added: nat,
       removed: nat, modified: nat, path: string)
    requires Found(changes, before, after, paths, added, removed, modified) && path !in paths
    requires path in before && path in after && Same(before[path], after[path])
    ensures Found(changes, before, after, paths + {path}, added, removed, modified)
  {
    hide OnePerPath, Same, Changed;
    CountMore(before, after, paths, path, Added);
    CountMore(before, after, paths, path, Removed);
    CountMore(before, after, paths, path, Modified);
  }

  lemma AllFound(changes: seq<Change>, sorted: seq<Change>, before: Index, after: Index, added: nat, removed: nat,
       modified: nat)
    requires Found(changes, before, after, before.Keys + after.Keys, added, removed, modified)
    requires Ascending(sorted) && |sorted| == |changes| && forall c :: c in sorted <==> c in changes
    ensures Lists(sorted, before, after)
    ensures added == |Changed(before, after, Added)| && removed == |Changed(before, after, Removed)|
    ensures modified == |Changed(before, after, Modified)| && |sorted| == added + removed + modified
  {
    hide Ascending, OnePerPath, Same;
    assert forall k :: Changed(before, after, k) * (before.Keys + after.Keys) == Changed(before, after, k);
  }

  /** A comparison is fixed by its two listings, in whatever order their maps are walked. */
  lemma ComparisonIsUnique(a: Diff, b: Diff, before: Index, after: Index, limit: nat)
    requires Compares(a, before, after, limit) && Compares(b, before, after, limit)
    ensures a == b
  {
    hide ChangeAt, Changed, Ascending;
    var all :| Describes(a, all, before, after, limit);
    var same :| Describes(b, same, before, after, limit);
    ListedAlike(all, same, before, after);
    ListIsUnique(all, same);
  }

  lemma ListedAlike(a: seq<Change>, b: seq<Change>, before: Index, after: Index)
    requires Lists(a, before, after) && Lists(b, before, after)
    ensures forall c :: c in a <==> c in b
  {
    hide ChangeAt, Ascending;
    forall c ensures c in a <==> c in b {
      assert c in a || c in b ==> ChangeAt(before, after, c.path) == Some(c);
    }
  }

  /** Comparing the other way round exchanges what was added and what was removed. */
  lemma ComparisonIsSymmetric(before: Index, after: Index)
    ensures Changed(after, before, Added) == Changed(before, after, Removed)
    ensures Changed(after, before, Modified) == Changed(before, after, Modified)
  {}

  /** A comparison finds nothing exactly when both listings agree. */
  lemma NothingChangedIff(changes: seq<Change>, before: Index, after: Index)
    requires Lists(changes, before, after)
    ensures changes == [] <==> before.Keys == after.Keys && forall path :: path in before.Keys * after.Keys ==> !Differs(before[path], after[path])
  {
    if changes == [] {
      forall path ensures path in before <==> path in after {
        assert ChangeAt(before, after, path).None?;
      }
      forall path | path in before.Keys * after.Keys ensures !Differs(before[path], after[path]) {
        assert ChangeAt(before, after, path).None?;
      }
    } else {
      assert changes[0] in changes;
    }
  }

  // ----- The index of one listing

  function Paths(nodes: seq<Node>): set<string> {
    set n | n in nodes :: n.path
  }

  /** The last node listed under a path. */
  function LastAt(nodes: seq<Node>, path: string): Option<Node> {
    if nodes == [] then None
    else if nodes[|nodes| - 1].path == path then Some(nodes[|nodes| - 1])
    else LastAt(nodes[..|nodes| - 1], path)
  }

  /** Exact as long as there are no more different paths than the limit; past that, the index is called incomplete. */
  method IndexNodes(nodes: seq<Node>, within: Node -> bool, maximum: nat) returns (index: Index, incomplete: bool)
    ensures Indexes(index, incomplete, Matching(nodes, within), maximum)
  {
    hide Indexed, Paths, LastAt, Matching;
    index, incomplete := map[], false;
    NothingIndexed(maximum);
    NothingMatches(nodes, within, 0, 0);
    for i := 0 to |nodes|
      invariant Indexed(index, incomplete, Matching(nodes[..i], within), maximum)
    {
      var node := nodes[i];
      OneMoreMatch(nodes, i, within, 0, 0);
      if !within(node) { continue; }
      if node.path !in index && |index.Keys| >= maximum {
        NodeTurnedAway(index, incomplete, Matching(nodes[..i], within), node, maximum);
        incomplete := true;
        continue;
      }
      NodeTaken(index, incomplete, Matching(nodes[..i], within), node, maximum);
      index := index[node.path := node];
    }
    assert nodes[..|nodes|] == nodes;
    IndexedMeans(index, incomplete, Matching(nodes, within), maximum);
  }

  /** What an index says of the nodes listed. */
  ghost predicate Indexes(index: Index, incomplete: bool, nodes: seq<Node>, maximum: nat) {
    && |index| <= maximum && index.Keys <= Paths(nodes)
    && (incomplete <==> |Paths(nodes)| > maximum)
    && (forall path :: path in index ==> Some(index[path]) == LastAt(nodes, path))
    && (!incomplete ==> index.Keys == Paths(nodes))
  }

  ghost predicate Indexed(index: Index, incomplete: bool, nodes: seq<Node>, maximum: nat) {
    && |index.Keys| <= maximum && index.Keys <= Paths(nodes)
    && (incomplete <==> |Paths(nodes)| > maximum)
    && (incomplete ==> |index.Keys| == maximum)
    && (!incomplete ==> index.Keys == Paths(nodes))
    && (forall path :: path in index ==> Some(index[path]) == LastAt(nodes, path))
  }

  lemma NothingIndexed(maximum: nat)
    ensures Indexed(map[], false, [], maximum)
  {
    assert Paths([]) == {};
  }

  lemma IndexedMeans(index: Index, incomplete: bool, nodes: seq<Node>, maximum: nat)
    requires Indexed(index, incomplete, nodes, maximum)
    ensures Indexes(index, incomplete, nodes, maximum)
  {
    hide Paths, LastAt;
    assert |index| == |index.Keys|;
  }

  /** A node that brings a path too many is turned away. */
  lemma NodeTurnedAway(index: Index, incomplete: bool, nodes: seq<Node>, node: Node, maximum: nat)
    requires Indexed(index, incomplete, nodes, maximum) && node.path !in index && |index.Keys| >= maximum
    ensures Indexed(index, true, nodes + [node], maximum)
  {
    hide Paths, LastAt;
    PathsMore(nodes, node);
    forall path | path in index
      ensures LastAt(nodes + [node], path) == LastAt(nodes, path)
    {
      LastAtMore(nodes, node, path);
    }
  }

  /** Any other node is the last one listed under its path. */
  lemma NodeTaken(index: Index, incomplete: bool, nodes: seq<Node>, node: Node, maximum: nat)
    requires Indexed(index, incomplete, nodes, maximum) && (node.path in index || |index.Keys| < maximum)
    ensures Indexed(index[node.path := node], incomplete, nodes + [node], maximum)
  {
    hide Paths, LastAt;
    PathsMore(nodes, node);
    KeysMore(index, node);
    var more := index[node.path := node];
    assert node.path in index ==> node.path in Paths(nodes);
    forall path | path in more
      ensures Some(more[path]) == LastAt(nodes + [node], path)
    {
      LastAtMore(nodes, node, path);
      assert path != node.path ==> Some(index[path]) == LastAt(nodes, path);
    }
  }

  lemma KeysMore(index: Index, node: Node)
    ensures index[node.path := node].Keys == index.Keys + {node.path}
    ensures |index.Keys + {node.path}| == |index.Keys| + if node.path in index then 0 else 1
  {
    if node.path in index { assert index.Keys + {node.path} == index.Keys; }
  }

  lemma LastAtMore(nodes: seq<Node>, node: Node, path: string)
    ensures LastAt(nodes + [node], path) == if path == node.path then Some(node) else LastAt(nodes, path)
  {
    var more := nodes + [node];
    assert more[..|more| - 1] == nodes && more[|more| - 1] == node;
  }

  lemma PathsMore(nodes: seq<Node>, node: Node)
    ensures Paths(nodes + [node]) == Paths(nodes) + {node.path}
    ensures |Paths(nodes + [node])| == |Paths(nodes)| + if node.path in Paths(nodes) then 0 else 1
  {
    if node.path in Paths(nodes) { assert Paths(nodes) + {node.path} == Paths(nodes); }
  }

  // ----- Comparing two snapshots

  datatype Comparison = Comparison(diff: Diff, incomplete: bool)

  /** The pairs of snapshots and the queries that are compared if both listings can be read. */
  predicate Comparable(fromId: string, toId: string, query: Query) {
    && SafeSnapshotId(fromId) && SafeSnapshotId(toId) && fromId != toId && AllowedPath(query.path)
    && 0 <= query.limit <= MAXIMUM_ITEMS
  }

  /**
   * Two listings, indexed and compared. The flag says exactly when a listing held too many paths; without it the
   * comparison is about all the nodes listed below the path, each as it was listed last.
   */
  method CompareSnapshots(fromId: string, toId: string, query: Query, before: Option<seq<Node>>, after: Option<seq<Node>>)
    returns (r: Result<Comparison>)
    ensures r.Ok? <==> Comparable(fromId, toId, query) && before.Some? && after.Some?
    ensures r.Err? ==> r.error == if !SafeSnapshotId(fromId) || !SafeSnapshotId(toId) || fromId == toId then InvalidSnapshot
                                  else if !AllowedPath(query.path) then InvalidPath
                                  else if query.limit < 0 || query.limit > 500 then InvalidLimit
                                  else Unreadable
    ensures r.Ok? ==>
      var (b, a) := (Matching(before.value, query.matches), Matching(after.value, query.matches));
      && (r.value.incomplete <==> |Paths(b)| > 1_000_000 || |Paths(a)| > 1_000_000)
      && (!r.value.incomplete ==>
            && Compares(r.value.diff, Latest(b), Latest(a), if query.limit == 0 then 100 else query.limit)
            && Reports(r.value.diff, Latest(b), Latest(a), if query.limit == 0 then 100 else query.limit))
  {
    hide Matching, SafeSnapshotId, AllowedPath, Paths, Compares, Reports, Latest, Indexes;
    var safe := CheckSnapshotId(fromId);
    if safe { safe := CheckSnapshotId(toId); }
    if !safe || fromId == toId { return Err(InvalidSnapshot); }
    if !AllowedPath(query.path) { return Err(InvalidPath); }
    var limit := ItemLimit(query.limit, DEFAULT_EXAMPLES);
    if limit.Err? { return Err(limit.error); }
    if before.None? { return Err(Unreadable); }
    var earlier, earlierIncomplete := IndexNodes(before.value, query.matches, MAXIMUM_NODES);
    if after.None? { return Err(Unreadable); }
    var later, laterIncomplete := IndexNodes(after.value, query.matches, MAXIMUM_NODES);
    CompleteIsLatest(earlier, earlierIncomplete, Matching(before.value, query.matches), MAXIMUM_NODES);
    CompleteIsLatest(later, laterIncomplete, Matching(after.value, query.matches), MAXIMUM_NODES);
    var diff := Compare(earlier, later, limit.value);
    r := Ok(Comparison(diff, earlierIncomplete || laterIncomplete));
  }

  /** Each path with the node listed last under it. */
  ghost function Latest(nodes: seq<Node>): Index {
    map path | path in Paths(nodes) && LastAt(nodes, path).Some? :: LastAt(nodes, path).value
  }

  lemma {:induction false} LastAtIsListed(nodes: seq<Node>, path: string)
    ensures LastAt(nodes, path).Some? <==> path in Paths(nodes)
    ensures LastAt(nodes, path).Some? ==> LastAt(nodes, path).value in nodes && LastAt(nodes, path).value.path == path
  {
    if nodes != [] {
      var (init, last) := (nodes[..|nodes| - 1], nodes[|nodes| - 1]);
      assert nodes == init + [last];
      PathsMore(init, last);
      LastAtIsListed(init, path);
    }
  }

  lemma CompleteIsLatest(index: Index, incomplete: bool, nodes: seq<Node>, maximum: nat)
    requires Indexes(index, incomplete, nodes, maximum)
    ensures incomplete <==> |Paths(nodes)| > maximum
    ensures !incomplete ==> index == Latest(nodes)
  {
    hide Paths, LastAt;
    if !incomplete {
      forall path ensures path in index <==> path in Latest(nodes) {
        LastAtIsListed(nodes, path);
      }
    }
  }
}
