/** The protection of partial snapshots: local backups, Agent backups and maintenance share one status
    field, one tag and one retention rule, while any restic call may fail. */
module Protection {
  import opened Wrappers
  import Text

  const READY := "ready"
  const ABNORMAL := "abnormal"
  const PREFIX := "unprotected-partial:"

  /** A snapshot ever taken. `tagged` is the tag `rc:protected-partial`; `present` ends when it is forgotten. */
  datatype Snapshot = Snapshot(id: string, partial: bool, tagged: bool, present: bool)

  /** The stored status and every snapshot ever taken, oldest first. */
  datatype Repo = Repo(status: string, history: seq<Snapshot>)

  datatype Backup = Broken(temporary: bool) | Complete(id: string) | Partial(id: string)

  /** What the calls of one backup run come to: material, tagging the pending snapshot, the status write
      after it, the backup, tagging a new partial snapshot, recording it as unprotected, clearing tags. */
  datatype Fate = Fate(material: bool, tagPending: bool, writeReady: bool, backup: Backup, tagNew: bool, writeUnprotected: bool, untag: bool)

  datatype Reply = Fine | Temporary | Permanent

  /** The snapshot a status names as unprotected, or "". */
  function Pending(status: string): string {
    if PREFIX <= status then status[|PREFIX|..] else ""
  }

  predicate Writable(status: string) {
    status == READY || Pending(status) != ""
  }

  function Tag(h: seq<Snapshot>, id: string): (h': seq<Snapshot>)
    ensures |h'| == |h|
    ensures forall i :: 0 <= i < |h| ==> h'[i] == if h[i].id == id then h[i].(tagged := true) else h[i]
  {
    seq(|h|, i requires 0 <= i < |h| => if h[i].id == id then h[i].(tagged := true) else h[i])
  }

  function UntagAll(h: seq<Snapshot>): (h': seq<Snapshot>)
    ensures |h'| == |h|
    ensures forall i :: 0 <= i < |h| ==> h'[i] == h[i].(tagged := false)
  {
    seq(|h|, i requires 0 <= i < |h| => h[i].(tagged := false))
  }

  function Take(h: seq<Snapshot>, id: string, partial: bool): seq<Snapshot> {
    h + [Snapshot(id, partial, false, true)]
  }

  predicate SupersededAt(h: seq<Snapshot>, i: nat) {
    exists j :: i < j < |h| && !h[j].partial
  }

  /** A partial snapshot that no complete one has followed. */
  predicate Needed(h: seq<Snapshot>, i: nat) {
    i < |h| && h[i].partial && !SupersededAt(h, i)
  }

  /** Every partial snapshot with no later complete one is still there, and tagged or named in the status. */
  ghost predicate Protected(r: Repo) {
    forall i: nat :: Needed(r.history, i) ==> r.history[i].present && (r.history[i].tagged || r.status == PREFIX + r.history[i].id)
  }

  /** A snapshot the status alone protects. */
  predicate Owed(r: Repo) {
    exists i :: 0 <= i < |r.history| && Needed(r.history, i) && !r.history[i].tagged
  }

  /** A backup draws a snapshot id that neither the history nor a status names yet. */
  predicate Fresh(r: Repo, loaded: string, f: Fate) {
    !f.backup.Broken? && f.backup.id != "" ==>
      && (forall i :: 0 <= i < |r.history| ==> r.history[i].id != f.backup.id)
      && Pending(r.status) != f.backup.id && Pending(loaded) != f.backup.id
  }

  // ----- One local run

  predicate ReachesPending(loaded: string, f: Fate) {
    Writable(loaded) && f.material && Pending(loaded) != ""
  }

  predicate ReachesBackup(loaded: string, f: Fate) {
    Writable(loaded) && f.material && (Pending(loaded) != "" ==> f.tagPending && f.writeReady)
  }

  predicate TakesComplete(loaded: string, f: Fate) {
    ReachesBackup(loaded, f) && f.backup.Complete? && f.backup.id != ""
  }

  predicate TakesPartial(loaded: string, f: Fate) {
    ReachesBackup(loaded, f) && f.backup.Partial? && f.backup.id != ""
  }

  function AfterPending(r: Repo, loaded: string, f: Fate): Repo {
    if ReachesPending(loaded, f) && f.tagPending then
      Repo(if f.writeReady then READY else r.status, Tag(r.history, Pending(loaded)))
    else r
  }

  /** One attempt of a local directory backup that acts on the status it loaded earlier. */
  function LocalAttempt(r: Repo, loaded: string, f: Fate): Repo {
    var r1 := AfterPending(r, loaded, f);
    if TakesComplete(loaded, f) then
      var h := Take(r1.history, f.backup.id, false);
      r1.(history := if f.untag then UntagAll(h) else h)
    else if TakesPartial(loaded, f) then
      var h := Take(r1.history, f.backup.id, true);
      if f.tagNew then r1.(history := Tag(h, f.backup.id))
      else Repo(if f.writeUnprotected then PREFIX + f.backup.id else r1.status, h)
    else r1
  }

  function LocalReply(loaded: string, f: Fate): Reply {
    if !ReachesBackup(loaded, f) then Permanent
    else
      match f.backup
      case Broken(temporary) => if temporary then Temporary else Permanent
      case Complete(_) => Fine
      case Partial(id) => if id == "" || f.tagNew then Fine else Permanent
  }

  // ----- When a run keeps the protection

  /** A new partial snapshot that could neither be tagged nor recorded. */
  predicate Unrecorded(loaded: string, f: Fate) {
    TakesPartial(loaded, f) && !f.tagNew && !f.writeUnprotected
  }

  /** The run writes a status over one it never loaded. */
  predicate Overwrites(r: Repo, loaded: string, f: Fate) {
    && r.status != loaded
    && ((ReachesPending(loaded, f) && f.tagPending && f.writeReady) || (TakesPartial(loaded, f) && !f.tagNew && f.writeUnprotected))
  }

  lemma PendingIsExact(status: string)
    ensures Pending(status) != "" ==> status == PREFIX + Pending(status)
    ensures Pending(READY) == ""
    ensures PREFIX <= status ==> status != READY
  {
    assert READY[0] != PREFIX[0];
  }

  lemma OwedIsNamed(r: Repo, i: nat)
    requires Protected(r) && Needed(r.history, i) && !r.history[i].tagged
    ensures r.status == PREFIX + r.history[i].id && Pending(r.status) == r.history[i].id
  {
    assert Pending(PREFIX + r.history[i].id) == r.history[i].id;
  }

  lemma PrefixIsInjective(a: string, b: string)
    requires PREFIX + a == PREFIX + b
    ensures a == b
  {
    assert (PREFIX + a)[|PREFIX|..] == a && (PREFIX + b)[|PREFIX|..] == b;
  }

  /** Adding a snapshot: a complete one ends every earlier need, a partial one ends none. */
  lemma NeedsAfterTake(h: seq<Snapshot>, id: string, partial: bool)
    ensures forall i: nat :: i < |h| ==> (Needed(Take(h, id, partial), i) <==> Needed(h, i) && partial)
    ensures Needed(Take(h, id, partial), |h|) <==> partial
  {
    var h' := Take(h, id, partial);
    assert h'[|h|] == Snapshot(id, partial, false, true);
    forall i: nat | i < |h|
      ensures Needed(h', i) <==> Needed(h, i) && partial
    {
      if SupersededAt(h, i) {
        var j :| i < j < |h| && !h[j].partial;
        assert !h'[j].partial;
      }
      if SupersededAt(h', i) && partial {
        var j :| i < j < |h'| && !h'[j].partial;
        assert !h[j].partial;
      }
    }
  }

  lemma NeedsAfterRelabel(h: seq<Snapshot>, h': seq<Snapshot>)
    requires |h| == |h'| && forall i :: 0 <= i < |h| ==> h'[i].partial == h[i].partial
    ensures forall i: nat :: Needed(h', i) <==> Needed(h, i)
  {
    forall i: nat | i < |h|
      ensures SupersededAt(h', i) <==> SupersededAt(h, i)
    {
      if SupersededAt(h, i) {
        var j :| i < j < |h| && !h[j].partial;
        assert !h'[j].partial;
      }
      if SupersededAt(h', i) {
        var j :| i < j < |h'| && !h'[j].partial;
        assert !h[j].partial;
      }
    }
  }

  /** Protecting the pending snapshot keeps the protection unless it names a snapshot that is not the owed one. */
  lemma AfterPendingKeeps(r: Repo, loaded: string, f: Fate)
    requires Protected(r)
    ensures var r1 := AfterPending(r, loaded, f);
            && (Protected(r1) <==> !(Owed(r) && r.status != loaded && ReachesPending(loaded, f) && f.tagPending && f.writeReady))
            && (r.status == loaded && ReachesBackup(loaded, f) ==> !Owed(r1))
            && (Owed(r1) ==> Owed(r))
            && |r1.history| == |r.history| && (forall i :: 0 <= i < |r.history| ==> r1.history[i].id == r.history[i].id)
            && (!(ReachesPending(loaded, f) && f.tagPending && f.writeReady) ==> r1.status == r.status && (r.status != loaded && Owed(r) ==> Owed(r1)))
  {
    var r1 := AfterPending(r, loaded, f);
    NeedsAfterRelabel(r.history, r1.history);
    PendingIsExact(loaded);
    PendingIsExact(r.status);
    if Owed(r) {
      var i :| 0 <= i < |r.history| && Needed(r.history, i) && !r.history[i].tagged;
      OwedIsNamed(r, i);
      assert Needed(r1.history, i);
    }
    assert forall i: nat :: Needed(r.history, i) && !r.history[i].tagged ==> Pending(r.status) == r.history[i].id by {
      forall i: nat | Needed(r.history, i) && !r.history[i].tagged
        ensures Pending(r.status) == r.history[i].id
      {
        OwedIsNamed(r, i);
      }
    }
  }

  /** Exactly when one attempt keeps every needed partial snapshot protected, whatever status it loaded:
      a complete snapshot makes all earlier ones unneeded; otherwise the new partial snapshot must be
      tagged or recorded, and no status that is some snapshot's only protection may be written over unseen. */
  lemma AttemptKeepsProtectionIff(r: Repo, loaded: string, f: Fate)
    requires Protected(r) && Fresh(r, loaded, f)
    ensures Protected(LocalAttempt(r, loaded, f)) <==>
              TakesComplete(loaded, f) || (!Unrecorded(loaded, f) && !(Owed(r) && Overwrites(r, loaded, f)))
  {
    AfterPendingKeeps(r, loaded, f);
    var r1, r2 := AfterPending(r, loaded, f), LocalAttempt(r, loaded, f);
    hide AfterPending;
    if TakesComplete(loaded, f) {
      NeedsAfterTake(r1.history, f.backup.id, false);
      NeedsAfterRelabel(Take(r1.history, f.backup.id, false), r2.history);
    } else if TakesPartial(loaded, f) {
      NeedsAfterTake(r1.history, f.backup.id, true);
      NeedsAfterRelabel(Take(r1.history, f.backup.id, true), r2.history);
      TakePartialKeepsIff(r1, r2, loaded, f);
    }
  }

  lemma TakePartialKeepsIff(r1: Repo, r2: Repo, loaded: string, f: Fate)
    requires Fresh(r1, loaded, f) && TakesPartial(loaded, f)
    requires (forall i: nat :: i < |r1.history| ==> (Needed(r2.history, i) <==> Needed(r1.history, i))) && Needed(r2.history, |r1.history|)
    requires var h := Take(r1.history, f.backup.id, true);
             r2 == if f.tagNew then r1.(history := Tag(h, f.backup.id))
                   else Repo(if f.writeUnprotected then PREFIX + f.backup.id else r1.status, h)
    ensures Protected(r2) <==> Protected(r1) && (f.tagNew || (f.writeUnprotected && !Owed(r1)))
  {
    var n, id := |r1.history|, f.backup.id;
    assert Pending(PREFIX + id) == id;
    assert forall i :: 0 <= i < n ==> r2.history[i] == r1.history[i];
    assert r2.history[n] == Snapshot(id, true, f.tagNew, true);
    if Protected(r2) {
      forall i: nat | Needed(r1.history, i)
        ensures r1.history[i].present && (r1.history[i].tagged || r1.status == PREFIX + r1.history[i].id)
      {
        assert Needed(r2.history, i);
        if !r2.history[i].tagged && r2.status == PREFIX + id {
          PrefixIsInjective(id, r1.history[i].id);
        }
      }
    }
    if Owed(r1) && !f.tagNew && f.writeUnprotected {
      var i :| 0 <= i < n && Needed(r1.history, i) && !r1.history[i].tagged;
      assert Needed(r2.history, i) && !r2.history[i].tagged;
      assert PREFIX + id != PREFIX + r1.history[i].id by {
        if PREFIX + id == PREFIX + r1.history[i].id { PrefixIsInjective(id, r1.history[i].id); }
      }
    }
  }

  // ----- What an attempt and maintenance come to, snapshot by snapshot

  /** The status a run loaded lets it go on: ready, or the name of a snapshot that is tagged first. */
  predicate GoesToBackup(loaded: string, f: Fate) {
    && (loaded == "ready" || (PREFIX < loaded && f.tagPending && f.writeReady))
    && f.material
  }

  /** A local attempt in terms of what its calls came to. */
  ghost predicate Attempted(before: Repo, after: Repo, loaded: string, f: Fate, reply: Reply) {
    var going := GoesToBackup(loaded, f);
    var named := PREFIX < loaded && f.material && f.tagPending;
    var taken := going && !f.backup.Broken? && f.backup.id != "";
    && after.status == (if taken && f.backup.Partial? && !f.tagNew && f.writeUnprotected then PREFIX + f.backup.id
                        else if named && f.writeReady then "ready"
                        else before.status)
    && (reply.Temporary? <==> going && f.backup == Broken(true))
    && (reply.Fine? <==> going && !f.backup.Broken? && (f.backup.Partial? && f.backup.id != "" ==> f.tagNew))
    && |after.history| == |before.history| + (if taken then 1 else 0)
    && (taken ==> after.history[|before.history|] == Snapshot(f.backup.id, f.backup.Partial?, f.backup.Partial? && f.tagNew, true))
    && forall i :: 0 <= i < |before.history| ==>
         after.history[i] == before.history[i].(tagged :=
           !(taken && f.backup.Complete? && f.untag)
           && (before.history[i].tagged || (named && PREFIX + before.history[i].id == loaded)
               || (taken && f.backup.Partial? && f.tagNew && before.history[i].id == f.backup.id)))
  }

  lemma AttemptedIs(r: Repo, loaded: string, f: Fate)
    ensures Attempted(r, LocalAttempt(r, loaded, f), loaded, f, LocalReply(loaded, f))
  {
    PendingIsExact(loaded);
    assert PREFIX <= loaded ==> loaded == PREFIX + loaded[|PREFIX|..];
    assert Writable(loaded) <==> loaded == "ready" || PREFIX < loaded;
    forall i | 0 <= i < |r.history| && PREFIX < loaded
      ensures r.history[i].id == Pending(loaded) <==> PREFIX + r.history[i].id == loaded
    {
      if PREFIX + r.history[i].id == loaded { assert loaded[|PREFIX|..] == r.history[i].id; }
    }
  }

  /** Maintenance in terms of what its calls came to: only it makes a status abnormal, and only a failed check does. */
  ghost predicate Maintained(before: Repo, after: Repo, u: Upkeep, ok: bool) {
    var forgets := u.material && before.status == "ready" && u.forget && !u.dryRun;
    && after.status == (if forgets && u.prune && !u.check && u.write then "abnormal" else before.status)
    && |after.history| == |before.history|
    && (forall i :: 0 <= i < |before.history| ==>
          after.history[i] == before.history[i].(present := before.history[i].present && !(forgets && i in u.chosen && !before.history[i].tagged)))
    && (ok <==> u.material && before.status == "ready" && u.forget && (u.dryRun || (u.prune && u.check && u.write)))
  }

  // ----- The calls as the services make them

  /** One repository as the services see it: the stored status and what restic keeps. */
  class Repository {
    var status: string
    var history: seq<Snapshot>

    constructor (r: Repo)
      ensures View() == r
    {
      status, history := r.status, r.history;
    }

    function View(): Repo
      reads this
    {
      Repo(status, history)
    }

    /** `execute` of the backup service, for a directory task, with the status it loaded before. */
    method Execute(loaded: string, f: Fate) returns (reply: Reply)
      modifies this
      ensures View() == LocalAttempt(old(View()), loaded, f) && reply == LocalReply(loaded, f)
      ensures Attempted(old(View()), View(), loaded, f, reply)
    {
      AttemptedIs(View(), loaded, f);
      var pendingPartial := "";
      if PREFIX <= loaded {
        pendingPartial := loaded[|PREFIX|..];
      }
      if (loaded != READY && pendingPartial == "") || !f.material {
        return Permanent;
      }
      if pendingPartial != "" {
        if !f.tagPending {
          return Permanent;
        }
        history := Tag(history, pendingPartial);
        if !f.writeReady {
          return Permanent;
        }
        status := READY;
      }
      match f.backup {
        case Broken(temporary) => return if temporary then Temporary else Permanent;
        case Complete(id) =>
          if id != "" {
            history := Take(history, id, false);
            if f.untag {
              history := UntagAll(history);
            }
          }
        case Partial(id) =>
          if id != "" {
            history := Take(history, id, true);
            if !f.tagNew {
              if f.writeUnprotected {
                status := PREFIX + id;
              }
              return Permanent;
            }
            history := Tag(history, id);
          }
      }
      return Fine;
    }

    /** A whole backup run: the controller's retry loop around `Execute`. */
    method Run(fates: seq<Fate>) returns (attempts: nat)
      modifies this
      ensures View() == LocalRun(old(View()), old(status), fates, MAX_ATTEMPTS) && attempts <= 3 && attempts <= |fates|
      ensures forall k :: 0 <= k < attempts - 1 ==> LocalReply(old(status), fates[k]) == Temporary
      ensures attempts == 3 || attempts == |fates| || (attempts > 0 && LocalReply(old(status), fates[attempts - 1]) != Temporary)
    {
      var loaded := status;
      attempts := 0;
      while attempts < MAX_ATTEMPTS && attempts < |fates|
        invariant attempts <= MAX_ATTEMPTS && attempts <= |fates|
        invariant forall k :: 0 <= k < attempts ==> LocalReply(loaded, fates[k]) == Temporary
        invariant LocalRun(View(), loaded, fates[attempts..], MAX_ATTEMPTS - attempts) == LocalRun(old(View()), loaded, fates, MAX_ATTEMPTS)
      {
        var reply := Execute(loaded, fates[attempts]);
        assert fates[attempts..][1..] == fates[attempts + 1..];
        attempts := attempts + 1;
        if reply != Temporary {
          return;
        }
      }
    }

    /** `maintainUnlocked` of the repository service. */
    method MaintainUnlocked(u: Upkeep) returns (ok: bool)
      modifies this
      ensures View() == Maintain(old(View()), u)
      ensures ok ==> old(status) == READY && status == READY
      ensures Maintained(old(View()), View(), u, ok)
    {
      if !u.material || status != READY || !u.forget {
        return false;
      }
      if u.dryRun {
        return true;
      }
      history := Forget(history, u.chosen);
      if !u.prune {
        return false;
      }
      if !u.check {
        if u.write {
          status := ABNORMAL;
        }
        return false;
      }
      if u.write {
        status := READY;
      }
      return u.write;
    }
  }

  // ----- The retry loop around an attempt

  /** One backup run: attempts that all use the status loaded once, the next one only after a temporary error. */
  function LocalRun(r: Repo, loaded: string, fates: seq<Fate>, most: nat): Repo
    decreases most
  {
    if fates == [] || most == 0 then r
    else if LocalReply(loaded, fates[0]) == Temporary then LocalRun(LocalAttempt(r, loaded, fates[0]), loaded, fates[1..], most - 1)
    else LocalAttempt(r, loaded, fates[0])
  }

  /** A tag fails in this attempt: of the pending snapshot, or of the partial snapshot just taken. */
  predicate TagFails(loaded: string, f: Fate) {
    (ReachesPending(loaded, f) && !f.tagPending) || (TakesPartial(loaded, f) && !f.tagNew)
  }

  /** No backup follows a failed tag in the same run, whichever attempt it fails in and whatever could come next. */
  lemma {:induction false} FailedTagEndsTheRun(r: Repo, loaded: string, fates: seq<Fate>, most: nat, n: nat)
    requires n < |fates| && TagFails(loaded, fates[n])
    ensures LocalRun(r, loaded, fates, most) == LocalRun(r, loaded, fates[..n + 1], most)
    decreases most
  {
    if most > 0 {
      assert fates[..n + 1][0] == fates[0];
      if n == 0 {
        assert LocalReply(loaded, fates[0]) != Temporary;
      } else if LocalReply(loaded, fates[0]) == Temporary {
        assert fates[..n + 1][1..] == fates[1..][..n];
        FailedTagEndsTheRun(LocalAttempt(r, loaded, fates[0]), loaded, fates[1..], most - 1, n - 1);
      }
    }
  }

  /** However often a run tries, it takes at most one snapshot. */
  lemma {:induction false} OneSnapshotPerRun(r: Repo, loaded: string, fates: seq<Fate>, most: nat)
    ensures |r.history| <= |LocalRun(r, loaded, fates, most).history| <= |r.history| + 1
    decreases most
  {
    if fates != [] && most > 0 && LocalReply(loaded, fates[0]) == Temporary {
      OneSnapshotPerRun(LocalAttempt(r, loaded, fates[0]), loaded, fates[1..], most - 1);
    }
  }

  /** Later attempts of a run act on a status that may be out of date, but only by their own doing. */
  ghost predicate UpToDate(r: Repo, loaded: string) {
    r.status == loaded || (r.status == READY && !Owed(r))
  }

  lemma {:induction false} RunKeepsProtection(r: Repo, loaded: string, fates: seq<Fate>, most: nat)
    requires Protected(r) && UpToDate(r, loaded)
    requires forall f :: f in fates ==> Fresh(r, loaded, f) && !Unrecorded(loaded, f)
    ensures Protected(LocalRun(r, loaded, fates, most))
    decreases most
  {
    if fates != [] && most > 0 {
      AttemptKeepsProtectionIff(r, loaded, fates[0]);
      if LocalReply(loaded, fates[0]) == Temporary {
        AfterPendingKeeps(r, loaded, fates[0]);
        PendingIsExact(loaded);
        var next := LocalAttempt(r, loaded, fates[0]);
        assert next == AfterPending(r, loaded, fates[0]) && (next.status == r.status || next.status == READY);
        forall f | f in fates[1..]
          ensures Fresh(next, loaded, f) && !Unrecorded(loaded, f)
        {
          assert f in fates;
        }
        RunKeepsProtection(LocalAttempt(r, loaded, fates[0]), loaded, fates[1..], most - 1);
      }
    }
  }

  // ----- Maintenance

  /** `chosen` are the snapshots the retention policy would forget. */
  datatype Upkeep = Upkeep(material: bool, dryRun: bool, forget: bool, chosen: set<nat>, prune: bool, check: bool, write: bool)

  /** `forget --keep-tag rc:protected-partial` */
  function Forget(h: seq<Snapshot>, chosen: set<nat>): (h': seq<Snapshot>)
    ensures |h'| == |h|
    ensures forall i :: 0 <= i < |h| ==> h'[i] == if i in chosen && !h[i].tagged then h[i].(present := false) else h[i]
  {
    seq(|h|, i requires 0 <= i < |h| => if i in chosen && !h[i].tagged then h[i].(present := false) else h[i])
  }

  function Maintain(r: Repo, u: Upkeep): Repo {
    if !u.material || r.status != READY || !u.forget || u.dryRun then r
    else
      var r1 := r.(history := Forget(r.history, u.chosen));
      if !u.prune || !u.write then r1 else r1.(status := if u.check then READY else ABNORMAL)
  }

  /** Maintenance forgets no needed partial snapshot, whatever the policy selects. */
  lemma MaintenanceForgetsNoNeededSnapshot(r: Repo, u: Upkeep)
    requires Protected(r)
    ensures Protected(Maintain(r, u))
    ensures forall i: nat :: Needed(r.history, i) ==> Needed(Maintain(r, u).history, i) && Maintain(r, u).history[i].present
  {
    NeedsAfterRelabel(r.history, Maintain(r, u).history);
    PendingIsExact(r.status);
  }

  // ----- The Agent path

  /** What the Agent reports back: the two protection flags of its summary and its snapshot. */
  datatype Report = Report(pendingProtected: Option<string>, unprotected: Option<string>, snapshotID: string)

  /** Agents reject a pending id that is long or holds whitespace or control characters. */
  predicate ValidPendingId(id: string) {
    && Text.Size(id) <= 128 && (id != "" ==> !Text.White(id[0]) && !Text.White(id[|id| - 1]))
    && forall c :: c in id ==> c !in {'\0', '\r', '\n', '\t', ' '}
  }

  predicate Assignable(status: string) {
    (status == "" || Writable(status)) && ValidPendingId(Pending(status))
  }

  /** The Agent's engine: it tags, backs up and tags, but leaves the status to the service. */
  function EngineRun(h: seq<Snapshot>, pending: string, f: Fate): (seq<Snapshot>, Report) {
    if pending != "" && !f.tagPending then (h, Report(None, None, pending))
    else
      var h1 := if pending != "" then Tag(h, pending) else h;
      var flag := if pending != "" then Some(pending) else None;
      match f.backup
      case Broken(_) => (h1, Report(flag, None, ""))
      case Complete(id) => (if id == "" then h1 else Take(h1, id, false), Report(flag, None, id))
      case Partial(id) =>
        if id == "" then (h1, Report(flag, None, id))
        else if f.tagNew then (Tag(Take(h1, id, true), id), Report(flag, None, id))
        else (Take(h1, id, true), Report(flag, Some(id), id))
  }

  /** The service applying a report; `write` says whether the status write succeeds. */
  function Deliver(status: string, report: Report, write: bool): string {
    if report.unprotected.Some? then
      if report.unprotected.value == "" || report.unprotected.value != report.snapshotID || !write then status
      else PREFIX + report.unprotected.value
    else if report.pendingProtected.Some? then
      if report.pendingProtected.value == "" || !write then status else READY
    else status
  }

  function AgentRun(r: Repo, f: Fate, write: bool): Repo {
    if !Assignable(r.status) || !f.material then r
    else
      var (h, report) := EngineRun(r.history, Pending(r.status), f);
      Repo(Deliver(r.status, report, write), h)
  }

  /** Only an Agent takes on a repository without a status, and then its untagged partial snapshot is recorded. */
  predicate OnlyAgentRecords(r: Repo, f: Fate) {
    r.status == "" && f.material && f.backup.Partial? && f.backup.id != "" && !f.tagNew
  }

  /** An Agent refuses a pending id it cannot hand to restic as it is; a local run tags that snapshot and goes on,
      and the status then names another one or none. Neither path checks an id when it stores it. */
  predicate OnlyLocalGoesOn(r: Repo, f: Fate) {
    && Writable(r.status) && !ValidPendingId(Pending(r.status)) && f.material && f.tagPending
    && (f.backup.Partial? && f.backup.id != "" && !f.tagNew ==> f.backup.id != Pending(r.status))
  }

  /** For the same starting status and the same restic outcomes, with status writes that succeed, both paths leave
      the same status, a snapshot protected and another left unprotected in one run included, exactly outside
      these two cases. */
  lemma AgentAndLocalAgree(r: Repo, f: Fate)
    requires f.writeReady && f.writeUnprotected
    ensures AgentRun(r, f, true).status == LocalAttempt(r, r.status, f).status <==> !OnlyAgentRecords(r, f) && !OnlyLocalGoesOn(r, f)
  {
    PendingIsExact(r.status);
    assert r.status == "" ==> Pending(r.status) == "";
    assert forall id: string :: (PREFIX + id)[0] == PREFIX[0];
    if f.backup.Partial? && PREFIX + f.backup.id == PREFIX + Pending(r.status) {
      PrefixIsInjective(f.backup.id, Pending(r.status));
    }
    assert ValidPendingId("");
  }

  /** A repository whose pending id holds a space: the Agent leaves it as it is, a local run makes it ready. */
  lemma AgentRefusesThePendingId(f: Fate)
    requires f.material && f.tagPending && f.writeReady && f.backup.Broken?
    ensures var r := Repo(PREFIX + "a b", []);
            AgentRun(r, f, true).status == PREFIX + "a b" && LocalAttempt(r, r.status, f).status == READY
  {
    assert Pending(PREFIX + "a b") == "a b";
    assert "a b"[1] == ' ' && ' ' in "a b";
    PendingIsExact(PREFIX + "a b");
  }

  /** An Agent does to the snapshots what a local run does, but for clearing tags; only reports are written to the status. */
  lemma AgentTakesTheSameSnapshots(r: Repo, f: Fate, write: bool)
    ensures Writable(r.status) && ValidPendingId(Pending(r.status)) && f.writeReady ==>
      AgentRun(r, f, write).history == LocalAttempt(r, r.status, f.(untag := false)).history
    ensures r.status == "" ==> AgentRun(r, f, write).history == LocalAttempt(r.(status := READY), READY, f.(untag := false)).history
    ensures !write || (r.status != "" && !Writable(r.status)) || !ValidPendingId(Pending(r.status)) || !f.material ==>
      AgentRun(r, f, write).status == r.status
    ensures (r.status != "" && !Writable(r.status)) || !ValidPendingId(Pending(r.status)) || !f.material ==> AgentRun(r, f, write) == r
  {
    PendingIsExact(r.status);
    PendingIsExact(READY);
  }

  /** The Agent path keeps the protection under the same condition: what it could not tag must be recorded. */
  lemma AgentRunKeepsProtection(r: Repo, f: Fate, write: bool)
    requires Protected(r) && Fresh(r, r.status, f)
    requires (Pending(r.status) != "" ==> f.tagPending) && f.backup.Partial? && f.backup.id != "" && !f.tagNew ==> write
    ensures Protected(AgentRun(r, f, write))
  {
    if Assignable(r.status) && f.material {
      var pending := Pending(r.status);
      var f' := f.(writeReady := true, writeUnprotected := true, untag := false);
      PendingIsExact(r.status);
      if r.status == "" {
        assert pending == "";
        AgentWithoutStatus(r, f, write);
      } else {
        AttemptKeepsProtectionIff(r, r.status, f');
        AfterPendingKeeps(r, r.status, f');
        var l := LocalAttempt(r, r.status, f');
        assert AgentRun(r, f, write).history == l.history;
        AgentStatus(r, f, write, l);
      }
    }
  }

  lemma AgentStatus(r: Repo, f: Fate, write: bool, l: Repo)
    requires Protected(r) && Assignable(r.status) && f.material && r.status != ""
    requires l == LocalAttempt(r, r.status, f.(writeReady := true, writeUnprotected := true, untag := false)) && Protected(l)
    requires AgentRun(r, f, write).history == l.history
    requires (Pending(r.status) != "" ==> f.tagPending) && f.backup.Partial? && f.backup.id != "" && !f.tagNew ==> write
    ensures Protected(AgentRun(r, f, write))
  {
    var a := AgentRun(r, f, write);
    if a.status != l.status {
      assert a.status == r.status && l.status == READY;
      PendingIsExact(r.status);
      forall i: nat | Needed(a.history, i)
        ensures a.history[i].present && a.history[i].tagged
      {
        assert Needed(l.history, i);
        PendingIsExact(PREFIX + l.history[i].id);
      }
    }
  }

  lemma AgentWithoutStatus(r: Repo, f: Fate, write: bool)
    requires Protected(r) && Fresh(r, r.status, f) && r.status == "" && f.material && Pending(r.status) == ""
    requires (Pending(r.status) != "" ==> f.tagPending) && f.backup.Partial? && f.backup.id != "" && !f.tagNew ==> write
    ensures Protected(AgentRun(r, f, write))
  {
    var f' := f.(writeReady := true, writeUnprotected := true, untag := false);
    var ready := r.(status := READY);
    PendingIsExact(READY);
    assert Protected(ready) by {
      forall i: nat | Needed(r.history, i)
        ensures r.history[i].tagged
      {
        assert |PREFIX + r.history[i].id| > 0;
      }
    }
    AttemptKeepsProtectionIff(ready, READY, f');
    assert AgentRun(r, f, write).history == LocalAttempt(ready, READY, f').history;
    var l, a := LocalAttempt(ready, READY, f'), AgentRun(r, f, write);
    forall i: nat | Needed(a.history, i)
      ensures a.history[i].present && (a.history[i].tagged || a.status == PREFIX + a.history[i].id)
    {
      assert Needed(l.history, i);
      PendingIsExact(PREFIX + l.history[i].id);
    }
  }

  // ----- Whole histories of one repository

  const MAX_ATTEMPTS: nat := 3

  // A local run under way, with the status it loaded and the attempts it has made.
  datatype Run = Run(loaded: string, attempts: nat)

  // The repository, a local run between two of its attempts, and an Agent's report that is not delivered yet.
  datatype World = World(repo: Repo, run: Option<Run>, report: Option<Report>)

  // Runs of one repository do not overlap; maintenance comes whenever it gets the lease, between two attempts of a
  // run or between an Agent's work and its report included.
  datatype Event =
    | Begin
    | Attempt(fate: Fate)
    | GiveUp
    | AgentWorks(fate: Fate)
    | AgentReports(write: bool)
    | Maintenance(upkeep: Upkeep)

  function Apply(w: World, e: Event): World {
    match e
    case Begin => if w.run.None? && w.report.None? then w.(run := Some(Run(w.repo.status, 0))) else w
    case Attempt(f) =>
      if w.run.None? then w
      else
        var Run(loaded, attempts) := w.run.value;
        var again := LocalReply(loaded, f) == Temporary && attempts + 1 < MAX_ATTEMPTS;
        w.(repo := LocalAttempt(w.repo, loaded, f), run := if again then Some(Run(loaded, attempts + 1)) else None)
    case GiveUp => w.(run := None)
    case AgentWorks(f) =>
      if w.run.Some? || w.report.Some? || !Assignable(w.repo.status) || !f.material then w
      else
        var (h, report) := EngineRun(w.repo.history, Pending(w.repo.status), f);
        w.(repo := w.repo.(history := h), report := Some(report))
    case AgentReports(write) =>
      if w.report.None? then w
      else w.(repo := w.repo.(status := Deliver(w.repo.status, w.report.value, write)), report := None)
    case Maintenance(u) => w.(repo := Maintain(w.repo, u))
  }

  predicate Forgets(r: Repo, u: Upkeep, i: nat) {
    u.material && r.status == READY && u.forget && !u.dryRun && i in u.chosen
  }

  /** The snapshot that only an outstanding report names as unprotected. */
  predicate OnlyReported(w: World, i: nat) {
    && i < |w.repo.history| && w.report.Some? && w.report.value.unprotected == Some(w.repo.history[i].id)
    && !w.repo.history[i].tagged
  }

  /** Snapshot ids are new; a partial snapshot that could not be tagged is recorded; and maintenance leaves alone
      one that only an outstanding report names. */
  ghost predicate Regular(w: World, e: Event) {
    match e
    case Attempt(f) => w.run.Some? ==> Fresh(w.repo, w.run.value.loaded, f) && !Unrecorded(w.run.value.loaded, f)
    case AgentWorks(f) => Fresh(w.repo, w.repo.status, f)
    case AgentReports(write) => w.report.Some? && w.report.value.unprotected.Some? ==> write
    case Maintenance(u) => forall i: nat :: OnlyReported(w, i) ==> !Forgets(w.repo, u, i)
    case _ => true
  }

  /** Every needed partial snapshot is there, and tagged, or named in the status, or about to be by a report. */
  ghost predicate Safe(w: World) {
    forall i: nat :: Needed(w.repo.history, i) ==>
      && w.repo.history[i].present
      && (w.repo.history[i].tagged || w.repo.status == PREFIX + w.repo.history[i].id
          || (w.report.Some? && w.report.value.unprotected == Some(w.repo.history[i].id)))
  }

  /** What every event keeps. */
  ghost predicate Kept(w: World) {
    && (w.report.None? ==> Protected(w.repo))
    && (w.run.Some? ==> w.report.None? && (w.repo.status == w.run.value.loaded || !Owed(w.repo)))
    && (w.report.Some? ==> ReportProtects(w.repo, w.report.value, true)
                           && (w.report.value.unprotected.None? ==> ReportProtects(w.repo, w.report.value, false)))
  }

  /** Delivering the report, with a status write that succeeds or not, leaves the repository protected. */
  ghost predicate ReportProtects(r: Repo, report: Report, write: bool) {
    Protected(r.(status := Deliver(r.status, report, write)))
  }

  lemma KeptIsSafe(w: World)
    requires Kept(w)
    ensures Safe(w)
  {
    if w.report.Some? {
      var status := Deliver(w.repo.status, w.report.value, true);
      PendingIsExact(READY);
      forall i: nat | Needed(w.repo.history, i)
        ensures w.repo.history[i].present
        ensures w.repo.history[i].tagged || w.repo.status == PREFIX + w.repo.history[i].id
                || w.report.value.unprotected == Some(w.repo.history[i].id)
      {
        var id := w.repo.history[i].id;
        if status == PREFIX + id && status != w.repo.status {
          assert status == READY ==> PREFIX <= READY;
          PrefixIsInjective(id, w.report.value.unprotected.value);
        }
      }
    }
  }

  /** An attempt acts on the status its run loaded, which is out of date at most where nothing is owed. */
  lemma AttemptKeeps(w: World, f: Fate)
    requires Kept(w) && Regular(w, Attempt(f)) && w.run.Some?
    ensures Kept(Apply(w, Attempt(f)))
  {
    var (r, loaded) := (w.repo, w.run.value.loaded);
    AttemptKeepsProtectionIff(r, loaded, f);
    if LocalReply(loaded, f) == Temporary {
      AfterPendingKeeps(r, loaded, f);
      assert LocalAttempt(r, loaded, f) == AfterPending(r, loaded, f);
    }
  }

  lemma AgentWorkKeeps(w: World, f: Fate)
    requires Kept(w) && Regular(w, AgentWorks(f))
    ensures Kept(Apply(w, AgentWorks(f)))
  {
    var r := w.repo;
    if w.run.None? && w.report.None? && Assignable(r.status) && f.material {
      var (h, report) := EngineRun(r.history, Pending(r.status), f);
      AgentRunKeepsProtection(r, f, true);
      assert AgentRun(r, f, true) == Repo(Deliver(r.status, report, true), h);
      if report.unprotected.None? {
        UnreportedWasTagged(r, f);
        AgentRunKeepsProtection(r, f, false);
        assert AgentRun(r, f, false) == Repo(Deliver(r.status, report, false), h);
      }
    }
  }

  /** A run whose report names no unprotected snapshot has tagged its partial snapshot, or taken none. */
  lemma UnreportedWasTagged(r: Repo, f: Fate)
    requires EngineRun(r.history, Pending(r.status), f).1.unprotected.None?
    ensures f.backup.Partial? && f.backup.id != "" && !f.tagNew ==> Pending(r.status) != "" && !f.tagPending
  {
  }

  lemma MaintenanceKeeps(w: World, u: Upkeep)
    requires Kept(w) && Regular(w, Maintenance(u))
    ensures Kept(Apply(w, Maintenance(u)))
  {
    var (r, r') := (w.repo, Maintain(w.repo, u));
    PendingIsExact(READY);
    if r' != r {
      NeedsAfterRelabel(r.history, r'.history);
      if w.report.None? {
        MaintenanceForgetsNoNeededSnapshot(r, u);
        ReadyOwesNothing(r);
        ReadyOwesNothing(r');
      } else {
        MaintenanceKeepsReport(w, u, true);
        if w.report.value.unprotected.None? {
          MaintenanceKeepsReport(w, u, false);
        }
      }
    }
  }

  /** A protected repository with a status that names nothing has every needed snapshot tagged. */
  lemma ReadyOwesNothing(r: Repo)
    requires Protected(r) && !(PREFIX <= r.status)
    ensures !Owed(r)
  {
  }

  lemma MaintenanceKeepsReport(w: World, u: Upkeep, write: bool)
    requires w.report.Some? && w.repo.status == READY && Regular(w, Maintenance(u))
    requires ReportProtects(w.repo, w.report.value, write)
    ensures ReportProtects(Maintain(w.repo, u), w.report.value, write)
  {
    var (r, r') := (w.repo, Maintain(w.repo, u));
    NeedsAfterRelabel(r.history, r'.history);
    PendingIsExact(READY);
    var (before, after) := (Deliver(r.status, w.report.value, write), Deliver(r'.status, w.report.value, write));
    forall i: nat | Needed(r'.history, i)
      ensures r'.history[i].present && (r'.history[i].tagged || after == PREFIX + r'.history[i].id)
    {
      assert Needed(r.history, i);
      if !r.history[i].tagged {
        assert before == PREFIX + r.history[i].id;
        assert before != READY by { assert PREFIX <= before; }
        PrefixIsInjective(r.history[i].id, w.report.value.unprotected.value);
        assert OnlyReported(w, i);
      }
    }
  }

  function ApplyAll(w: World, events: seq<Event>): World {
    if events == [] then w else Apply(ApplyAll(w, events[..|events| - 1]), events[|events| - 1])
  }

  ghost predicate AllRegular(w: World, events: seq<Event>) {
    forall n :: 0 <= n < |events| ==> Regular(ApplyAll(w, events[..n]), events[n])
  }

  /** Over any sequence of attempts, Agent work, reports and maintenance, with any restic call failing, no needed
      partial snapshot is ever forgotten, and each is tagged, named in the status or named in a report to come. */
  lemma {:induction false} EveryHistoryIsProtected(r: Repo, events: seq<Event>)
    requires Protected(r) && AllRegular(World(r, None, None), events)
    ensures Kept(ApplyAll(World(r, None, None), events)) && Safe(ApplyAll(World(r, None, None), events))
    decreases |events|
  {
    if events != [] {
      var n := |events| - 1;
      var w := ApplyAll(World(r, None, None), events[..n]);
      assert AllRegular(World(r, None, None), events[..n]) by {
        forall k | 0 <= k < n
          ensures Regular(ApplyAll(World(r, None, None), events[..n][..k]), events[..n][k])
        {
          assert events[..n][..k] == events[..k];
        }
      }
      EveryHistoryIsProtected(r, events[..n]);
      EventKeeps(w, events[n]);
    }
    KeptIsSafe(ApplyAll(World(r, None, None), events));
  }

  lemma EventKeeps(w: World, e: Event)
    requires Kept(w) && Regular(w, e)
    ensures Kept(Apply(w, e))
  {
    match e {
      case Attempt(f) => if w.run.Some? { AttemptKeeps(w, f); }
      case AgentWorks(f) => AgentWorkKeeps(w, f);
      case Maintenance(u) => MaintenanceKeeps(w, u);
      case _ =>
    }
  }

  /** A run from its beginning to its last attempt is what the service's loop makes of it; further attempts do nothing. */
  lemma {:induction false} RunIsItsAttempts(w: World, fates: seq<Fate>)
    requires w.run.Some? && w.run.value.attempts < MAX_ATTEMPTS
    ensures ApplyAll(w, AttemptsOf(fates)).repo == LocalRun(w.repo, w.run.value.loaded, fates, MAX_ATTEMPTS - w.run.value.attempts)
    decreases |fates|
  {
    if fates != [] {
      var next := Apply(w, Attempt(fates[0]));
      assert AttemptsOf(fates) == [Attempt(fates[0])] + AttemptsOf(fates[1..]);
      ApplyFirst(w, Attempt(fates[0]), AttemptsOf(fates[1..]));
      if next.run.Some? {
        RunIsItsAttempts(next, fates[1..]);
      } else {
        NoRunNoAttempt(next, fates[1..]);
      }
    }
  }

  function AttemptsOf(fates: seq<Fate>): (events: seq<Event>)
    ensures |events| == |fates| && forall i :: 0 <= i < |fates| ==> events[i] == Attempt(fates[i])
  {
    seq(|fates|, i requires 0 <= i < |fates| => Attempt(fates[i]))
  }

  lemma {:induction false} ApplyFirst(w: World, e: Event, events: seq<Event>)
    ensures ApplyAll(w, [e] + events) == ApplyAll(Apply(w, e), events)
    decreases |events|
  {
    if events == [] {
      assert [e] + events == [e] && [e][..0] == [];
      assert ApplyAll(w, [e][..0]) == w;
    } else {
      var n := |events| - 1;
      assert ([e] + events)[..|events|] == [e] + events[..n];
      ApplyFirst(w, e, events[..n]);
    }
  }

  lemma {:induction false} NoRunNoAttempt(w: World, fates: seq<Fate>)
    requires w.run.None?
    ensures ApplyAll(w, AttemptsOf(fates)) == w
  {
    if fates != [] {
      assert AttemptsOf(fates)[..|fates| - 1] == AttemptsOf(fates[..|fates| - 1]);
      NoRunNoAttempt(w, fates[..|fates| - 1]);
    }
  }

  /** A run begins with the status as it is, an Agent's run is its work and its report, and neither begins beside another. */
  lemma EventsOfRuns(r: Repo, f: Fate, write: bool)
    ensures Apply(World(r, None, None), Begin) == World(r, Some(Run(r.status, 0)), None)
    ensures Apply(Apply(World(r, None, None), AgentWorks(f)), AgentReports(write)).repo == AgentRun(r, f, write)
    ensures forall run: Run :: Apply(World(r, Some(run), None), AgentWorks(f)).report.None? && Apply(World(r, Some(run), None), Begin).run == Some(run)
    ensures forall run: Run :: Apply(World(r, Some(run), None), GiveUp) == World(r, None, None)
  {}

  /** Exactly when maintenance between an Agent's work and its report does harm: it forgets the snapshot that the
      report was about to name. */
  lemma GapKeepsProtectionIff(r: Repo, f: Fate, u: Upkeep)
    requires Protected(r) && Fresh(r, r.status, f) && Assignable(r.status) && f.material
    ensures var w := Apply(World(r, None, None), AgentWorks(f));
            Protected(Apply(Apply(w, Maintenance(u)), AgentReports(true)).repo) <==> forall i: nat :: OnlyReported(w, i) ==> !Forgets(w.repo, u, i)
  {
    var w := Apply(World(r, None, None), AgentWorks(f));
    AgentWorkKeeps(World(r, None, None), f);
    if forall i: nat :: OnlyReported(w, i) ==> !Forgets(w.repo, u, i) {
      MaintenanceKeeps(w, u);
    } else {
      var i: nat :| OnlyReported(w, i) && Forgets(w.repo, u, i);
      OnlyReportedIsNeeded(r, f, i);
      NeedsAfterRelabel(w.repo.history, Maintain(w.repo, u).history);
      assert !Maintain(w.repo, u).history[i].present;
      assert Needed(Apply(Apply(w, Maintenance(u)), AgentReports(true)).repo.history, i);
    }
  }

  /** It can: an Agent's first backup, partial and untagged, forgotten by maintenance before the report arrives. */
  lemma GapLosesASnapshot(f: Fate, u: Upkeep)
    requires f == Fate(true, false, true, Partial("a"), false, true, false) && u == Upkeep(true, false, true, {0}, true, true, true)
    ensures var r := Repo(READY, []);
            var w := Apply(Apply(Apply(World(r, None, None), AgentWorks(f)), Maintenance(u)), AgentReports(true));
            Protected(r) && Needed(w.repo.history, 0) && !w.repo.history[0].present
  {
    var r := Repo(READY, []);
    PendingIsExact(READY);
    assert Pending(r.status) == "" && Assignable(r.status);
    var w := Apply(World(r, None, None), AgentWorks(f));
    assert w.repo.history == [Snapshot("a", true, false, true)];
    var h := Apply(w, Maintenance(u)).repo.history;
    assert |h| == 1 && h[0] == Snapshot("a", true, false, false);
  }

  /** What only a report names is the partial snapshot just taken. */
  lemma OnlyReportedIsNeeded(r: Repo, f: Fate, i: nat)
    requires Fresh(r, r.status, f) && Assignable(r.status) && f.material
    requires OnlyReported(Apply(World(r, None, None), AgentWorks(f)), i)
    ensures Needed(Apply(World(r, None, None), AgentWorks(f)).repo.history, i)
  {
    var h := Apply(World(r, None, None), AgentWorks(f)).repo.history;
    assert h[|h| - 1].partial && |h| == |r.history| + 1;
    assert forall k :: 0 <= k < |r.history| ==> h[k].id == r.history[k].id;
    assert i == |r.history|;
  }

  /** Two tasks of one repository, one of which loaded the status before the other's run ended: the later
      write hides the earlier snapshot, and after the next run maintenance may forget it. */
  lemma StaleStatusLosesASnapshot() returns (r: Repo, f: Fate)
    ensures Protected(r) && Owed(r) && !Unrecorded(READY, f) && Fresh(r, READY, f)
    ensures !Protected(LocalAttempt(r, READY, f))
    ensures var r1 := LocalAttempt(r, READY, f);
            var r2 := LocalAttempt(r1, r1.status, f.(tagPending := true, backup := Broken(false)));
            var r3 := Maintain(r2, Upkeep(true, false, true, {0}, true, true, true));
            Needed(r3.history, 0) && !r3.history[0].present
  {
    r := Repo(PREFIX + "a", [Snapshot("a", true, false, true)]);
    f := Fate(true, false, true, Partial("b"), false, true, false);
    assert Pending(PREFIX + "a") == "a" && Pending(PREFIX + "b") == "b";
    PendingIsExact(READY);
    PendingIsExact(PREFIX + "a");
    assert Needed(r.history, 0);
    AttemptKeepsProtectionIff(r, READY, f);
    var r1 := LocalAttempt(r, READY, f);
    assert r1 == Repo(PREFIX + "b", Take(r.history, "b", true));
    var r2 := LocalAttempt(r1, r1.status, f.(tagPending := true, backup := Broken(false)));
    assert r2.status == READY && r2.history[0] == r.history[0] && r2.history[1].partial;
    var r3 := Maintain(r2, Upkeep(true, false, true, {0}, true, true, true));
    assert r3.history[0].partial && r3.history[1].partial;
  }
}
