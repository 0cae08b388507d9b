/** Restoring a database from a snapshot: create, mark, import, unmark, and the guarded drop after a failure. */
module DatabaseRestore {
  import opened Wrappers

  datatype Command = Exists | Inspect | Create | Mark | Import | Unmark | CleanupCheck | Drop

  // The database with the requested name, and whether it carries the marker of an operation that created it.
  datatype Database = Database(marked: bool, content: string)

  // How a command ends: without error or not, with its effect or not, and whether its output says yes.
  datatype Reply = Reply(ok: bool, effect: bool, yes: bool)

  datatype Error =
    | Refused                 // the request is incomplete or cannot be prepared
    | Plain(command: Command)
    | NotEmpty
    | Unknown
    | RestoreFailed(stage: string, created: bool, cleaned: bool, cleanupRequired: bool)

  // What the connector and the snapshot provide.
  datatype Request = Request(complete: bool, prepared: bool, knowsMissing: bool, missing: bool, knowsCleanup: bool,
                             dumpFails: bool, dump: string, broken: string)

  /** Commands that change the server. */
  predicate Mutates(c: Command) {
    c in {Create, Mark, Import, Unmark, Drop}
  }

  /** The database after a command that took effect. A database cannot be created over another. */
  function Effect(db: Option<Database>, c: Command, input: string): Option<Database> {
    match (c, db)
    case (Create, None) => Some(Database(false, ""))
    case (Mark, Some(d)) => Some(d.(marked := true))
    case (Unmark, Some(d)) => Some(d.(marked := false))
    case (Import, Some(d)) => Some(d.(content := input))
    case (Drop, _) => None
    case _ => db
  }

  /** A command can succeed only where it makes sense. */
  predicate Possible(db: Option<Database>, c: Command) {
    match c
    case Create => db.None?
    case Mark => db.Some?
    case Unmark => db.Some?
    case Import => db.Some?
    case _ => true
  }

  datatype Issued = Issued(command: Command, ok: bool, yes: bool)

  predicate Did(log: seq<Issued>, c: Command) {
    exists i :: 0 <= i < |log| && log[i].command == c && log[i].ok
  }

  predicate Tried(log: seq<Issued>, c: Command) {
    exists i :: 0 <= i < |log| && log[i].command == c
  }

  predicate Confirmed(log: seq<Issued>, c: Command) {
    exists i :: 0 <= i < |log| && log[i].command == c && log[i].ok && log[i].yes
  }

  predicate Denied(log: seq<Issued>, c: Command) {
    exists i :: 0 <= i < |log| && log[i].command == c && !(log[i].ok && log[i].yes)
  }

  /** What must have happened before a command is issued. */
  predicate Permitted(log: seq<Issued>, c: Command, knowsCleanup: bool) {
    !Tried(log, c) &&
    match c
    case Exists => log == []
    case Inspect => Confirmed(log, Exists) && |log| == 1
    case Create => Denied(log, Exists) && Did(log, Exists) && |log| == 1
    case Mark => Did(log, Create) && |log| == 2
    case Import => (Did(log, Create) && Did(log, Mark)) || (Confirmed(log, Exists) && Confirmed(log, Inspect))
    case Unmark => Did(log, Create) && Did(log, Mark) && Did(log, Import)
    case CleanupCheck => Did(log, Create) && Did(log, Mark) && Tried(log, Import)
    case Drop => Did(log, Create) && Did(log, Mark) && Confirmed(log, CleanupCheck) && knowsCleanup
  }

  ghost predicate Lawful(log: seq<Issued>, knowsCleanup: bool) {
    forall k :: 0 <= k < |log| ==> Permitted(log[..k], log[k].command, knowsCleanup)
  }

  lemma LawfulMore(log: seq<Issued>, entry: Issued, knowsCleanup: bool)
    requires Lawful(log, knowsCleanup) && Permitted(log, entry.command, knowsCleanup)
    ensures Lawful(log + [entry], knowsCleanup)
  {
    hide Permitted;
    var more := log + [entry];
    assert more[..|log|] == log;
    forall k | 0 <= k < |more|
      ensures Permitted(more[..k], more[k].command, knowsCleanup)
    {
      if k < |log| {
        assert more[..k] == log[..k];
      }
    }
  }

  /** A target that was there and was not found empty is left alone: both questions were all that was asked of the server. */
  lemma NonEmptyIsLeftAlone(log: seq<Issued>, knowsCleanup: bool)
    requires Lawful(log, knowsCleanup) && Denied(log, Inspect)
    ensures |log| == 2 && log[0].command == Exists && log[1].command == Inspect
    ensures forall i :: 0 <= i < |log| ==> !Mutates(log[i].command)
  {
    var k :| 0 <= k < |log| && log[k].command == Inspect && !(log[k].ok && log[k].yes);
    assert Permitted(log[..k], Inspect, knowsCleanup);
    assert k == 1 && log[0] == Issued(Exists, true, true) && log[..2] == [log[0], log[1]];
    NothingFollowsRefusal(log[0], log[1], knowsCleanup);
    assert |log| > 2 ==> Permitted(log[..2], log[2].command, knowsCleanup);
  }

  lemma NothingFollowsRefusal(found: Issued, refused: Issued, knowsCleanup: bool)
    requires found == Issued(Exists, true, true) && refused.command == Inspect && !(refused.ok && refused.yes)
    ensures forall c :: !Permitted([found, refused], c, knowsCleanup)
  {
    var log := [found, refused];
    assert log[0] == found && log[1] == refused;
    forall c ensures !Permitted(log, c, knowsCleanup) {
      assert !Did(log, Create) && !Confirmed(log, Inspect);
      assert Tried(log, Exists) && Tried(log, Inspect);
    }
  }

  class Server {
    const replies: Command -> Reply
    var database: Option<Database>
    var log: seq<Issued>

    constructor (replies: Command -> Reply, database: Option<Database>)
      ensures this.replies == replies && this.database == database && log == []
    {
      this.replies, this.database, log := replies, database, [];
    }

    /** Run one command. A command that reports an error may have taken effect all the same. */
    method Run(c: Command, input: string, partial: string) returns (ok: bool, yes: bool)
      modifies this
      ensures log == old(log) + [Issued(c, ok, yes)] && yes == replies(c).yes
      ensures ok <==> replies(c).ok && Possible(old(database), c)
      ensures database == if ok || replies(c).effect then Effect(old(database), c, if ok then input else partial) else old(database)
    {
      ok := replies(c).ok && Possible(database, c);
      yes := replies(c).yes;
      if ok || replies(c).effect { database := Effect(database, c, if ok then input else partial); }
      log := log + [Issued(c, ok, yes)];
    }
  }

  /** What one more command adds to what the log says. */
  lemma LogMore(log: seq<Issued>, e: Issued)
    ensures forall c :: Did(log + [e], c) <==> Did(log, c) || (e.command == c && e.ok)
    ensures forall c :: Tried(log + [e], c) <==> Tried(log, c) || e.command == c
    ensures forall c :: Confirmed(log + [e], c) <==> Confirmed(log, c) || (e.command == c && e.ok && e.yes)
    ensures forall c :: Denied(log + [e], c) <==> Denied(log, c) || (e.command == c && !(e.ok && e.yes))
  {
    var more := log + [e];
    assert more[|log|] == e && forall i :: 0 <= i < |log| ==> more[i] == log[i];
    forall c
      ensures Did(more, c) <==> Did(log, c) || (e.command == c && e.ok)
      ensures Tried(more, c) <==> Tried(log, c) || e.command == c
      ensures Confirmed(more, c) <==> Confirmed(log, c) || (e.command == c && e.ok && e.yes)
      ensures Denied(more, c) <==> Denied(log, c) || (e.command == c && !(e.ok && e.yes))
    {
      if i :| 0 <= i < |log| && log[i].command == c && log[i].ok { assert more[i].command == c && more[i].ok; }
      if i :| 0 <= i < |log| && log[i].command == c { assert more[i].command == c; }
      if i :| 0 <= i < |log| && log[i].command == c && log[i].ok && log[i].yes { assert more[i].command == c && more[i].yes; }
      if i :| 0 <= i < |log| && log[i].command == c && !(log[i].ok && log[i].yes) { assert more[i].command == c; }
    }
  }

  lemma NothingLogged(c: Command)
    ensures !Did([], c) && !Tried([], c) && !Confirmed([], c) && !Denied([], c)
  {}

  /** Run a command that is permitted now; the log stays lawful and says one thing more. */
  method Issue(server: Server, c: Command, input: string, partial: string, knowsCleanup: bool) returns (ok: bool, yes: bool)
    requires Lawful(server.log, knowsCleanup) && Permitted(server.log, c, knowsCleanup)
    modifies server
    ensures Lawful(server.log, knowsCleanup) && |server.log| == |old(server.log)| + 1 && yes == server.replies(c).yes
    ensures ok <==> server.replies(c).ok && Possible(old(server.database), c)
    ensures server.database == if ok || server.replies(c).effect then Effect(old(server.database), c, if ok then input else partial)
                               else old(server.database)
    ensures forall d :: Did(server.log, d) <==> Did(old(server.log), d) || (d == c && ok)
    ensures forall d :: Tried(server.log, d) <==> Tried(old(server.log), d) || d == c
    ensures forall d :: Confirmed(server.log, d) <==> Confirmed(old(server.log), d) || (d == c && ok && yes)
    ensures forall d :: Denied(server.log, d) <==> Denied(old(server.log), d) || (d == c && !(ok && yes))
  {
    hide *;
    ghost var before := server.log;
    ok, yes := server.Run(c, input, partial);
    LawfulMore(before, Issued(c, ok, yes), knowsCleanup);
    LogMore(before, Issued(c, ok, yes));
  }

  // ----- What decides a restore: the request, the replies and whether the database is there

  /** The target was not there, and this run creates it. */
  predicate Creates(replies: Command -> Reply, r: Request, before: Option<Database>) {
    && r.complete && r.prepared && replies(Exists).ok && !replies(Exists).yes && r.knowsMissing && r.missing
    && replies(Create).ok && before.None?
  }

  /** The target was there, and was found empty. */
  predicate FindsEmpty(replies: Command -> Reply, r: Request) {
    r.complete && r.prepared && replies(Exists).ok && replies(Exists).yes && replies(Inspect).ok && replies(Inspect).yes
  }

  /** A target of this run's own making may be dropped, and can be. */
  predicate Cleans(replies: Command -> Reply, r: Request) {
    r.knowsCleanup && replies(CleanupCheck).ok && replies(CleanupCheck).yes && replies(Drop).ok
  }

  /** After a failure past the import: drop the target if this run created it and the guard allows that. */
  method FailedRestore(server: Server, r: Request, stage: string, created: bool) returns (e: Error)
    requires Lawful(server.log, r.knowsCleanup) && Tried(server.log, Import)
    requires created ==> Did(server.log, Create) && Did(server.log, Mark)
    requires !Tried(server.log, CleanupCheck) && !Tried(server.log, Drop)
    modifies server
    ensures Lawful(server.log, r.knowsCleanup)
    ensures forall d :: d !in {CleanupCheck, Drop} ==> (Did(server.log, d) <==> Did(old(server.log), d)) && (Tried(server.log, d) <==> Tried(old(server.log), d))
    ensures forall d :: d !in {CleanupCheck, Drop} ==> (Confirmed(server.log, d) <==> Confirmed(old(server.log), d))
    ensures e.RestoreFailed? && e.created == created && e.cleaned != e.cleanupRequired
    ensures e.cleaned <==> Did(server.log, Drop)
    ensures e.cleaned <==> created && Cleans(server.replies, r)
    ensures e.stage == stage
    ensures e.cleaned ==> server.database.None?
    ensures !created ==> server.database == old(server.database)
  {
    hide Lawful, Tried, Confirmed, Denied;
    NothingDropped(server.log);
    if !created { return RestoreFailed(stage, false, false, true); }
    var checked, allowed := Issue(server, CleanupCheck, "", "", r.knowsCleanup);
    if !checked { return RestoreFailed(stage, true, false, true); }
    if !r.knowsCleanup || !allowed { return RestoreFailed(stage, true, false, true); }
    var dropped, _ := Issue(server, Drop, "", "", r.knowsCleanup);
    if !dropped { return RestoreFailed(stage, true, false, true); }
    e := RestoreFailed(stage, true, true, false);
  }

  lemma NothingDropped(log: seq<Issued>)
    ensures !Tried(log, Drop) ==> !Did(log, Drop)
  {}

  /** Find the target, or create and mark it. Without an error it is there to import into. */
  method OpenTarget(server: Server, r: Request) returns (e: Option<Error>, created: bool)
    requires server.log == []
    modifies server
    ensures Lawful(server.log, r.knowsCleanup)
    ensures forall c :: c in {Import, Unmark, CleanupCheck, Drop} ==> !Tried(server.log, c) && !Did(server.log, c)
    ensures created <==> Did(server.log, Create)
    ensures created <==> Creates(server.replies, r, old(server.database))
    ensures e.None? <==> FindsEmpty(server.replies, r) || (created && server.replies(Mark).ok)
    ensures created && e.None? ==> server.database == Some(Database(true, ""))
    ensures created && e.Some? ==> server.database == Some(Database(server.replies(Mark).effect, ""))
    ensures e == Some(NotEmpty) <==>
      r.complete && r.prepared && server.replies(Exists).ok && server.replies(Exists).yes && server.replies(Inspect).ok && !server.replies(Inspect).yes
    ensures e == Some(Refused) <==> !r.complete || !r.prepared
    ensures created ==> old(server.database).None? && server.database.Some?
    ensures !created ==> server.database == old(server.database) || (e == Some(Plain(Create)) && old(server.database).None?)
    ensures e.None? && created ==> Did(server.log, Mark)
    ensures e.None? && !created ==> Confirmed(server.log, Exists) && Confirmed(server.log, Inspect)
    ensures e.Some? ==> (created <==> e.value.RestoreFailed?)
    ensures e.Some? && created ==> e.value == RestoreFailed("mark", true, false, true)
  {
    hide Lawful, Did, Tried, Confirmed, Denied;
    forall c ensures !Did([], c) && !Tried([], c) && !Confirmed([], c) && !Denied([], c) { NothingLogged(c); }
    assert Lawful(server.log, r.knowsCleanup) by { EmptyIsLawful(r.knowsCleanup); }
    created := false;
    if !r.complete || !r.prepared { return Some(Refused), false; }
    var ok, present := Issue(server, Exists, "", "", r.knowsCleanup);
    if !ok { return Some(Plain(Exists)), false; }
    if present {
      var inspected, isEmpty := Issue(server, Inspect, "", "", r.knowsCleanup);
      if !inspected { return Some(Plain(Inspect)), false; }
      if !isEmpty { return Some(NotEmpty), false; }
    } else if r.knowsMissing && r.missing {
      var made, _ := Issue(server, Create, "", "", r.knowsCleanup);
      if !made { return Some(Plain(Create)), false; }
      created := true;
      var marked, _ := Issue(server, Mark, "", "", r.knowsCleanup);
      if !marked { return Some(RestoreFailed("mark", true, false, true)), true; }
    } else {
      return Some(Unknown), false;
    }
    e := None;
  }

  /**
   * The whole restore. The log is lawful, so a drop follows only this run's own create and mark and a check that
   * allowed it. A database that was there before is never dropped, and is not touched unless it was found and
   * found empty. Each failure past the first change says exactly one of cleaned and to be cleaned, and says
   * cleaned exactly when the drop went through.
   */
  method Restore(server: Server, r: Request) returns (e: Option<Error>)
    requires server.log == []
    modifies server
    ensures Lawful(server.log, r.knowsCleanup)
    ensures old(server.database).Some? ==> server.database.Some? && !Did(server.log, Create)
    ensures old(server.database).Some? && !(Confirmed(server.log, Exists) && Confirmed(server.log, Inspect)) ==>
      server.database == old(server.database)
    ensures e == None <==> Did(server.log, Import) && !r.dumpFails && (Did(server.log, Create) ==> Did(server.log, Unmark))
    // exactly when it succeeds, and exactly when a target of its own is dropped again
    ensures e == None <==>
      && (FindsEmpty(server.replies, r) || (Creates(server.replies, r, old(server.database)) && server.replies(Mark).ok))
      && !r.dumpFails && server.replies(Import).ok
      && (FindsEmpty(server.replies, r) ==> old(server.database).Some?)
      && (Creates(server.replies, r, old(server.database)) ==> server.replies(Unmark).ok)
    ensures Did(server.log, Drop) <==>
      && Creates(server.replies, r, old(server.database)) && server.replies(Mark).ok && Cleans(server.replies, r)
      && (r.dumpFails || !server.replies(Import).ok)
    ensures e.Some? && e.value.RestoreFailed? ==>
      e.value.stage == if Creates(server.replies, r, old(server.database)) && !server.replies(Mark).ok then "mark"
                       else if r.dumpFails then "snapshot-read"
                       else if !Did(server.log, Import) then "import" else "unmark"
    // the marker stays until the very end, and a database that was there keeps what it had
    ensures e.Some? && e.value.RestoreFailed? && e.value.stage == "unmark" ==>
      server.database == Some(Database(!server.replies(Unmark).effect, r.dump))
    ensures e == None && old(server.database).Some? ==> server.database == Some(old(server.database).value.(content := r.dump))
    ensures e == None ==> server.database.Some? && server.database.value.content == r.dump
                          && (old(server.database).None? ==> !server.database.value.marked)
    ensures e.Some? ==> (e.value.RestoreFailed? <==> Did(server.log, Create) || Tried(server.log, Import))
    ensures e.Some? && e.value.RestoreFailed? ==>
      && e.value.cleaned != e.value.cleanupRequired
      && (e.value.cleaned <==> Did(server.log, Drop)) && (e.value.created <==> Did(server.log, Create))
      && (e.value.cleaned ==> server.database.None?)
    ensures e.Some? && !e.value.RestoreFailed? ==> server.database == old(server.database) || e.value == Plain(Create)
  {
    hide Lawful, Did, Tried, Confirmed, Denied;
    var created;
    e, created := OpenTarget(server, r);
    if e.Some? { return; }
    var imported, _ := Issue(server, Import, if r.dumpFails then r.broken else r.dump, r.broken, r.knowsCleanup);
    if r.dumpFails {
      var failure := FailedRestore(server, r, "snapshot-read", created);
      return Some(failure);
    }
    if !imported {
      var failure := FailedRestore(server, r, "import", created);
      return Some(failure);
    }
    if created {
      var unmarked, _ := Issue(server, Unmark, "", "", r.knowsCleanup);
      if !unmarked { return Some(RestoreFailed("unmark", true, false, true)); }
    }
    e := None;
  }

  lemma EmptyIsLawful(knowsCleanup: bool)
    ensures Lawful([], knowsCleanup)
  {}
}
