/** Updating an installed application with rollback, and what is recorded about it. */
module AppUpdate {
  import opened AppFiles
  import opened AppInstall
  import opened Wrappers

  datatype Artifact = Artifact(binary: string, sum: string)

  // Where an update ended. Retained: before the binary was replaced. Updated: new binary, last report recorded.
  // LastReportLost: the same, but the report failed. RollbackFailed: the old binary is not back.
  // RollbackUnverified: it is back, but not all that should follow went well. RolledBack: it is back and verified.
  datatype Ending = Retained | Updated | LastReportLost | RollbackFailed | RollbackUnverified | RolledBack

  // The stages that are reported, in the order of an update and then of a rollback.
  datatype Stage =
    | DownloadingRelease | ReleaseVerified | SavingRollback | ReplacingBinary | RestartingService | VerifyingHealth | HealthVerified
    | RollingBack | VerifyingRollback | RollbackVerified

  const ROLLBACK_STAGES := {RollingBack, VerifyingRollback, RollbackVerified}

  class Reporter {
    const recordable: Stage -> bool   // whether the store accepts this stage
    var rollbackAttempted: bool
    var rollbackVerified: bool

    constructor (recordable: Stage -> bool)
      ensures this.recordable == recordable && !rollbackAttempted && !rollbackVerified
    {
      this.recordable := recordable;
      rollbackAttempted, rollbackVerified := false, false;
    }

    method Stage(stage: Stage) returns (ok: bool)
      modifies this
      ensures ok <==> recordable(stage)
      ensures rollbackAttempted <==> old(rollbackAttempted) || (ok && stage in ROLLBACK_STAGES)
      ensures rollbackVerified <==> old(rollbackVerified) || (ok && stage == RollbackVerified)
    {
      ok := recordable(stage);
      if !ok { return; }
      if stage == RollingBack || stage == VerifyingRollback || stage == RollbackVerified { rollbackAttempted := true; }
      if stage == RollbackVerified { rollbackVerified := true; }
    }
  }

  class Installer {
    const host: Host
    const digest: Digest
    const binary: Path
    const previous: Path
    const checksHealth: bool

    constructor (host: Host, digest: Digest, binary: Path, previous: Option<Path>, checksHealth: bool)
      ensures this.host == host && this.digest == digest && this.binary == binary && this.checksHealth == checksHealth
      ensures previous.Some? ==> this.previous == previous.value
      ensures previous.None? ==> this.previous == Path(binary.dir, binary.name + ".previous") && PreviousIsApart()
    {
      this.host, this.digest, this.binary, this.checksHealth := host, digest, binary, checksHealth;
      this.previous := if previous.Some? then previous.value else Path(binary.dir, binary.name + ".previous");
      new;
      assert |binary.name + ".previous"| == |binary.name| + 9;
    }

    /** The saved copy is kept apart from the binary and its record; without that a rollback reads something else. */
    predicate PreviousIsApart() {
      previous != binary && previous != ChecksumPath(binary)
    }

    /** What is installed is `program`, with its record, and the service runs it, healthy if that is checked. */
    ghost predicate InService(program: string)
      reads host
    {
      && Content(host.files, binary) == Some(program) && Matches(digest, host.files, binary)
      && host.running == Some(program) && (checksHealth ==> host.healthy)
    }

    /** The release is genuine, nothing outside fails, and every stage before the last can be recorded. */
    ghost predicate GoesWell(recordable: Stage -> bool, artifact: Option<Artifact>) {
      && artifact.Some? && digest(artifact.value.binary) == artifact.value.sum
      && host.DiskWorks() && (forall n :: host.services(n))
      && GetsToReplace(recordable) && recordable(RestartingService) && recordable(VerifyingHealth)
    }

    /** Every stage up to the point of no return can be recorded. */
    ghost predicate GetsToReplace(recordable: Stage -> bool) {
      && recordable(DownloadingRelease) && recordable(ReleaseVerified) && recordable(SavingRollback)
      && recordable(ReplacingBinary)
    }

    /** The release is genuine, and the three calls about files that it takes to install it go through. */
    ghost predicate Replaceable(recordable: Stage -> bool, artifact: Option<Artifact>)
      reads host`calls
    {
      && artifact.Some? && digest(artifact.value.binary) == artifact.value.sum && GetsToReplace(recordable)
      && host.answers(host.calls) && host.answers(host.calls + 1) && host.answers(host.calls + 2) && host.irregular == {}
    }

    /** The same, and then the disk fails for good. */
    ghost predicate DiskFailsOnceReplaced(recordable: Stage -> bool, artifact: Option<Artifact>)
      reads host`calls
    {
      Replaceable(recordable, artifact) && forall n :: host.calls + 3 <= n ==> !host.answers(n)
    }

    // What decides an update, by the number `c` of the first call it makes to the outside.

    /** The release is genuine and every call up to the replacement goes through. */
    ghost predicate Replaces(c: nat, recordable: Stage -> bool, artifact: Option<Artifact>) {
      && artifact.Some? && digest(artifact.value.binary) == artifact.value.sum && GetsToReplace(recordable)
      && host.answers(c) && host.answers(c + 1) && host.answers(c + 2) && binary !in host.irregular && previous !in host.irregular
    }

    predicate Records(c: nat, recordable: Stage -> bool) {
      host.answers(c + 3) && ChecksumPath(binary) !in host.irregular && recordable(RestartingService)
    }

    /** The record, the restart and the check of the new program go through. */
    predicate Activates(c: nat, recordable: Stage -> bool) {
      Records(c, recordable) && host.services(c + 4) && (checksHealth ==> recordable(VerifyingHealth) && host.services(c + 5))
    }

    /** The first call of the rollback. */
    function RollbackStart(c: nat, recordable: Stage -> bool): nat {
      if !Records(c, recordable) then c + 4
      else if !host.services(c + 4) || (checksHealth && !recordable(VerifyingHealth)) then c + 5
      else c + 6
    }

    /** The saved copy can be read and written back. */
    predicate PutsBack(d: nat) {
      host.answers(d) && host.answers(d + 1) && previous !in host.irregular && binary !in host.irregular
    }

    /** After that its record can be written and the service restarted. */
    predicate Restarts(d: nat) {
      PutsBack(d) && Restores(d + 2)
    }

    predicate Restores(e: nat) {
      && host.answers(e) && host.answers(e + 1) && binary !in host.irregular && ChecksumPath(binary) !in host.irregular
      && host.services(e + 2)
    }

    /** The saved copy in place of the binary. */
    method CopyBack() returns (ok: bool, saved: string)
      modifies host`calls, host`files
      ensures ok <==> PutsBack(old(host.calls)) && Content(old(host.files), previous) != None
      ensures ok ==> Content(old(host.files), previous) == Some(saved) && host.calls == old(host.calls) + 2
      ensures host.files == if ok then old(host.files)[binary := saved] else old(host.files)
      ensures ok ==> binary in host.files && Content(host.files, binary) == Some(saved)
    {
      hide Content;
      ok, saved := false, "";
      var found := host.Read(previous);
      if !found.Found? { return; }
      saved := found.content;
      ok := host.Write(binary, saved);
      ReadBack(old(host.files), binary, saved);
    }

    method Rollback(reporter: Reporter) returns (ending: Ending)
      requires !reporter.rollbackVerified && !reporter.rollbackAttempted
      modifies host, reporter
      ensures ending in {RollbackFailed, RollbackUnverified, RolledBack}
      ensures ending == RollbackFailed ==> Content(host.files, binary) == Content(old(host.files), binary)
      ensures ending == RollbackFailed ==> (reporter.rollbackAttempted <==> reporter.recordable(RollingBack))
      ensures ending != RollbackFailed && PreviousIsApart() ==>
        Content(old(host.files), previous) != None && Content(host.files, binary) == Content(old(host.files), previous)
      ensures ending == RolledBack <==> reporter.rollbackVerified
      ensures ending == RolledBack ==> reporter.rollbackAttempted
      ensures ending == RolledBack && PreviousIsApart() ==>
        Content(old(host.files), previous) != None && InService(Content(old(host.files), previous).value)
      ensures reporter.recordable(RollingBack) ==> reporter.rollbackAttempted
      // exactly how it ends: the old program is put back whenever it can be, and verified whenever that can be
      ensures ending == RollbackFailed <==> !(PutsBack(old(host.calls)) && Content(old(host.files), previous) != None)
      ensures ending == RolledBack <==>
        && Content(old(host.files), previous) != None && Restarts(old(host.calls))
        && (checksHealth ==> host.services(old(host.calls) + 5)) && reporter.recordable(RollbackVerified)
      ensures reporter.rollbackAttempted <==>
        || reporter.recordable(RollingBack) || ending == RolledBack
        || (Content(old(host.files), previous) != None && Restarts(old(host.calls)) && checksHealth && reporter.recordable(VerifyingRollback))
    {
      hide Content;
      RecordIsApart(binary);
      ending := RollbackFailed;
      var begun := reporter.Stage(RollingBack);
      var written, saved := CopyBack();
      if !written { return; }
      var verified := VerifyRollback(saved, reporter);
      ending := if verified then RolledBack else RollbackUnverified;
    }

    /** The record, the restart and the check of the old program. */
    method VerifyRollback(saved: string, reporter: Reporter) returns (ok: bool)
      requires !reporter.rollbackVerified && binary in host.files && Content(host.files, binary) == Some(saved)
      modifies host, reporter
      ensures Content(host.files, binary) == Some(saved)
      ensures ok <==> Restores(old(host.calls)) && (checksHealth ==> host.services(old(host.calls) + 3)) && reporter.recordable(RollbackVerified)
      ensures ok ==> InService(saved)
      ensures reporter.rollbackVerified == ok
      ensures reporter.rollbackAttempted <==>
        old(reporter.rollbackAttempted) || ok || (Restores(old(host.calls)) && checksHealth && reporter.recordable(VerifyingRollback))
    {
      hide Content, ChecksumPath;
      RecordIsApart(binary);
      FoundIsContent(host.files, binary, saved);
      ApartContent(host.files, ChecksumPath(binary), digest(saved) + "\n", binary);
      ok := WriteChecksumForFile(host, digest, binary);
      if !ok { return; }
      ok := host.Start(binary);
      if !ok { return; }
      if checksHealth {
        var noted := reporter.Stage(VerifyingRollback);
        ok := host.AwaitHealth();
        if !ok { return; }
      }
      ok := reporter.Stage(RollbackVerified);
    }

    /** The release fetched and its digest compared. */
    method Fetch(artifact: Option<Artifact>, reporter: Reporter) returns (ok: bool)
      modifies reporter
      ensures reporter.rollbackVerified == old(reporter.rollbackVerified) && reporter.rollbackAttempted == old(reporter.rollbackAttempted)
      ensures ok ==> artifact.Some? && digest(artifact.value.binary) == artifact.value.sum
      ensures ok <==>
        && artifact.Some? && digest(artifact.value.binary) == artifact.value.sum
        && reporter.recordable(DownloadingRelease) && reporter.recordable(ReleaseVerified)
    {
      ok := reporter.Stage(DownloadingRelease);
      if !ok { return; }
      if artifact.None? || digest(artifact.value.binary) != artifact.value.sum { return false; }
      ok := reporter.Stage(ReleaseVerified);
    }

    /** The program that is installed, copied aside. */
    method Save(reporter: Reporter) returns (ok: bool)
      requires !reporter.rollbackVerified && !reporter.rollbackAttempted
      modifies host, reporter
      ensures !reporter.rollbackVerified && !reporter.rollbackAttempted
      ensures ok <==>
        && Content(old(host.files), binary) != None && reporter.recordable(SavingRollback) && host.answers(old(host.calls))
        && host.answers(old(host.calls) + 1) && binary !in host.irregular && previous !in host.irregular
      ensures PreviousIsApart() ==> Content(host.files, binary) == Content(old(host.files), binary)
      ensures ok ==> Content(host.files, previous) == Content(old(host.files), binary) && host.calls == old(host.calls) + 2
    {
      hide Content, ChecksumPath;
      ok := false;
      var current := host.Read(binary);
      if !current.Found? { return; }
      var noted := reporter.Stage(SavingRollback);
      if !noted { return; }
      ghost var before := host.files;
      ok := host.Write(previous, current.content);
      ReadBack(before, previous, current.content);
      ApartContent(before, previous, current.content, binary);
    }

    /** Up to the point of no return: the release verified, the old program saved, the new one in place. */
    method Replace(artifact: Option<Artifact>, reporter: Reporter) returns (replaced: bool)
      requires !reporter.rollbackVerified && !reporter.rollbackAttempted
      modifies host, reporter
      ensures !reporter.rollbackVerified && !reporter.rollbackAttempted
      ensures !replaced && PreviousIsApart() ==> Content(host.files, binary) == Content(old(host.files), binary)
      ensures replaced ==> artifact.Some? && digest(artifact.value.binary) == artifact.value.sum
      ensures replaced ==> Content(host.files, binary) == Some(artifact.value.binary) && Content(old(host.files), binary) != None
      ensures replaced && PreviousIsApart() ==> Content(host.files, previous) == Content(old(host.files), binary)
      ensures replaced <==> Replaces(old(host.calls), reporter.recordable, artifact) && Content(old(host.files), binary) != None
      ensures replaced ==> host.calls == old(host.calls) + 3
    {
      hide Content, ChecksumPath;
      replaced := false;
      var ok := Fetch(artifact, reporter);
      if !ok { return; }
      ok := Save(reporter);
      if !ok { return; }
      ok := reporter.Stage(ReplacingBinary);
      if !ok { return; }
      ghost var kept := host.files;
      ok := host.Write(binary, artifact.value.binary);
      if !ok { return; }
      ReadBack(kept, binary, artifact.value.binary);
      ApartContent(kept, binary, artifact.value.binary, previous);
      replaced := true;
    }

    /** Record, restart and check the new program. */
    method Activate(artifact: Artifact, reporter: Reporter) returns (ok: bool)
      requires !reporter.rollbackVerified && !reporter.rollbackAttempted
      requires Content(host.files, binary) == Some(artifact.binary) && digest(artifact.binary) == artifact.sum
      modifies host, reporter
      ensures !reporter.rollbackVerified && !reporter.rollbackAttempted
      ensures Content(host.files, binary) == Some(artifact.binary)
      ensures PreviousIsApart() ==> Content(host.files, previous) == Content(old(host.files), previous)
      ensures ok ==> InService(artifact.binary)
      ensures old(host.calls) >= 3 ==> (ok <==> Activates((old(host.calls) - 3) as nat, reporter.recordable))
      ensures old(host.calls) >= 3 && !ok ==> host.calls == RollbackStart((old(host.calls) - 3) as nat, reporter.recordable)
    {
      hide Content;
      RecordIsApart(binary);
      ghost var replaced := host.files;
      ok := WriteChecksum(host, binary, artifact.sum);
      ReadBack(replaced, ChecksumPath(binary), artifact.sum + "\n");
      ApartContent(replaced, ChecksumPath(binary), artifact.sum + "\n", binary);
      ApartContent(replaced, ChecksumPath(binary), artifact.sum + "\n", previous);
      FoundIsContent(host.files, binary, artifact.binary);
      if !ok { return; }
      ok := reporter.Stage(RestartingService);
      if !ok { return; }
      ok := host.Start(binary);
      if !ok { return; }
      if checksHealth {
        ok := reporter.Stage(VerifyingHealth);
        if !ok { return; }
        ok := host.AwaitHealth();
      }
    }

    method Update(artifact: Option<Artifact>, reporter: Reporter) returns (ending: Ending)
      requires !reporter.rollbackVerified && !reporter.rollbackAttempted
      modifies host, reporter
      ensures ending == Retained && PreviousIsApart() ==> Content(host.files, binary) == Content(old(host.files), binary)
      ensures ending in {Updated, LastReportLost} ==> artifact.Some? && InService(artifact.value.binary)
      ensures ending == Updated ==> reporter.recordable(HealthVerified)
      ensures ending == LastReportLost ==> !reporter.recordable(HealthVerified)
      ensures ending == RollbackFailed ==> artifact.Some? && Content(host.files, binary) == Some(artifact.value.binary)
      ensures ending == RollbackFailed ==> (reporter.rollbackAttempted <==> reporter.recordable(RollingBack))
      ensures ending in {RollbackUnverified, RolledBack} && PreviousIsApart() ==>
        Content(old(host.files), binary) != None && Content(host.files, binary) == Content(old(host.files), binary)
      ensures ending == RolledBack && PreviousIsApart() ==> InService(Content(old(host.files), binary).value)
      ensures ending == RolledBack <==> reporter.rollbackVerified
      ensures ending == RolledBack ==> reporter.rollbackAttempted
      ensures ending in {Retained, Updated, LastReportLost} ==> !reporter.rollbackAttempted
      ensures ending !in {Retained, Updated, LastReportLost} && reporter.recordable(RollingBack) ==> reporter.rollbackAttempted
      // exactly how it ends
      ensures ending == Retained <==> !(Replaces(old(host.calls), reporter.recordable, artifact) && Content(old(host.files), binary) != None)
      ensures ending != Retained ==> (ending in {Updated, LastReportLost} <==> Activates(old(host.calls), reporter.recordable))
      ensures ending !in {Retained, Updated, LastReportLost} && PreviousIsApart() ==>
        var d := RollbackStart(old(host.calls), reporter.recordable);
        && (ending == RollbackFailed <==> !PutsBack(d))
        && (ending == RolledBack <==> Restarts(d) && (checksHealth ==> host.services(d + 5)) && reporter.recordable(RollbackVerified))
        && (reporter.rollbackAttempted <==>
              || reporter.recordable(RollingBack) || ending == RolledBack
              || (Restarts(d) && checksHealth && reporter.recordable(VerifyingRollback)))
    {
      hide Content;
      var replaced := Replace(artifact, reporter);
      if !replaced { return Retained; }
      var ok := Activate(artifact.value, reporter);
      if !ok {
        ending := Rollback(reporter);
        return;
      }
      ok := reporter.Stage(HealthVerified);
      ending := if ok then Updated else LastReportLost;
    }
  }

  // ----- What is recorded

  // The text of the operation's summary.
  datatype Summary = Nothing | RestoredAndVerified | RollbackIncomplete | OldVersionKept

  datatype Outcome = Outcome(status: string, stage: string, summary: Summary, healthVerified: bool,
                             rollbackAttempted: bool, rollbackVerified: bool)

  /** What stands in the record of an update that ended so, with a rollback reported or not. */
  function OutcomeOf(ending: Ending, attempted: bool): Outcome {
    match ending
    case Updated => Outcome("success", "completed", Nothing, true, false, false)
    case RolledBack => Outcome("failed", "rolled_back", RestoredAndVerified, false, attempted, true)
    case _ =>
      if attempted then Outcome("failed", "rollback_failed", RollbackIncomplete, false, true, false)
      else Outcome("failed", "failed", OldVersionKept, false, false, false)
  }

  /**
   * Update the application and say what to record about it. The record follows from how the update ended and from
   * what could be reported on the way. "Old version kept" is true whenever both the last report and the beginning
   * of a rollback can be recorded; where one cannot, the two methods below show it to be false.
   */
  method PerformManagedUpdate(installer: Installer, artifact: Option<Artifact>, recordable: Stage -> bool)
    returns (outcome: Outcome, ghost ending: Ending)
    requires installer.PreviousIsApart()
    modifies installer.host
    // what is recorded, for every ending
    ensures outcome == OutcomeOf(ending, outcome.rollbackAttempted)
    ensures ending in {Retained, Updated, LastReportLost} ==> !outcome.rollbackAttempted
    ensures ending == RolledBack ==> outcome.rollbackAttempted
    ensures ending == RollbackFailed ==> (outcome.rollbackAttempted <==> recordable(RollingBack))
    ensures ending == RollbackUnverified && recordable(RollingBack) ==> outcome.rollbackAttempted
    // exactly how it ends, by what fails and what cannot be recorded
    ensures ending == Retained <==>
      !(installer.Replaces(old(installer.host.calls), recordable, artifact) && Content(old(installer.host.files), installer.binary) != None)
    ensures ending != Retained ==> (ending in {Updated, LastReportLost} <==> installer.Activates(old(installer.host.calls), recordable))
    ensures ending in {Updated, LastReportLost} ==> (ending == Updated <==> recordable(HealthVerified))
    ensures ending !in {Retained, Updated, LastReportLost} ==>
      var d := installer.RollbackStart(old(installer.host.calls), recordable);
      && (ending == RollbackFailed <==> !installer.PutsBack(d))
      && (outcome.stage == "rolled_back" <==>
            installer.Restarts(d) && (installer.checksHealth ==> installer.host.services(d + 5)) && recordable(RollbackVerified))
      && (outcome.summary == OldVersionKept <==>
            && outcome.stage != "rolled_back" && !recordable(RollingBack)
            && !(installer.Restarts(d) && installer.checksHealth && recordable(VerifyingRollback)))
    // a working disk always puts the old program back, and with working services it is verified
    ensures installer.host.DiskWorks() ==> ending != RollbackFailed
    ensures installer.host.DiskWorks() && (forall n :: n >= old(installer.host.calls) + 8 ==> installer.host.services(n))
            && ending !in {Retained, Updated, LastReportLost} && recordable(RollbackVerified) ==>
      outcome.stage == "rolled_back"
    ensures ending == Updated ==> recordable(HealthVerified)
    ensures ending == LastReportLost ==> !recordable(HealthVerified)
    // what is true of the machine, for every record
    ensures ending in {Updated, LastReportLost} ==> artifact.Some? && installer.InService(artifact.value.binary)
    ensures outcome.status == "success" ==> artifact.Some? && installer.InService(artifact.value.binary)
    ensures outcome.stage == "rolled_back" ==>
      && Content(old(installer.host.files), installer.binary) != None
      && installer.InService(Content(old(installer.host.files), installer.binary).value)
    ensures outcome.summary == OldVersionKept && recordable(HealthVerified) && recordable(RollingBack) ==>
      Content(installer.host.files, installer.binary) == Content(old(installer.host.files), installer.binary)
    ensures ending == RollbackFailed ==> artifact.Some? && Content(installer.host.files, installer.binary) == Some(artifact.value.binary)
    ensures ending !in {Updated, LastReportLost, RollbackFailed} ==>
      Content(installer.host.files, installer.binary) == Content(old(installer.host.files), installer.binary)
    // an update that goes well is recorded as the old version kept exactly when its last report is lost
    ensures installer.GoesWell(recordable, artifact) && Content(old(installer.host.files), installer.binary) != None ==>
      ending in {Updated, LastReportLost} && (outcome.summary == OldVersionKept <==> !recordable(HealthVerified))
    // one whose disk fails after the replacement is, exactly when the beginning of its rollback is lost
    ensures old(installer.DiskFailsOnceReplaced(recordable, artifact)) && Content(old(installer.host.files), installer.binary) != None ==>
      ending == RollbackFailed && (outcome.summary == OldVersionKept <==> !recordable(RollingBack))
  {
    hide Content;
    var reporter := new Reporter(recordable);
    var how := installer.Update(artifact, reporter);
    ending := how;
    var status, stage, summary := "success", "completed", Nothing;
    var healthVerified, attempted, verified := true, false, false;
    if how != Updated {
      status, stage := "failed", "failed";
      if reporter.rollbackVerified {
        stage, summary := "rolled_back", RestoredAndVerified;
      } else if reporter.rollbackAttempted {
        stage, summary := "rollback_failed", RollbackIncomplete;
      } else {
        summary := OldVersionKept;
      }
      healthVerified, attempted, verified := false, reporter.rollbackAttempted, reporter.rollbackVerified;
    }
    outcome := Outcome(status, stage, summary, healthVerified, attempted, verified);
  }

  /** With any reporter that records every stage but the last, "old version kept" is false of an update that goes well. */
  method KeptIsFalseWithoutTheLastReport(recordable: Stage -> bool) returns (outcome: Outcome, host: Host)
    requires recordable(DownloadingRelease) && recordable(ReleaseVerified) && recordable(SavingRollback)
    requires recordable(ReplacingBinary) && recordable(RestartingService) && recordable(VerifyingHealth)
    requires !recordable(HealthVerified)
    ensures outcome.summary == OldVersionKept
    ensures Content(host.files, Path("app", "shadoc")) == Some("new") && host.running == Some("new")
  {
    hide Content, ChecksumPath;
    var binary := Path("app", "shadoc");
    host := new Host(n => true, n => true, {}, map[binary := "old"]);
    FoundIsContent(host.files, binary, "old");
    var installer := new Installer(host, program => program, binary, None, true);
    ghost var ending;
    outcome, ending := PerformManagedUpdate(installer, Some(Artifact("new", "new")), recordable);
  }

  /** And with any that cannot record the beginning of a rollback, it is false when the disk fails after the replacement. */
  method KeptIsFalseWithoutTheRollbackReport(recordable: Stage -> bool) returns (outcome: Outcome, host: Host)
    requires recordable(DownloadingRelease) && recordable(ReleaseVerified) && recordable(SavingRollback)
    requires recordable(ReplacingBinary) && !recordable(RollingBack)
    ensures outcome.summary == OldVersionKept
    ensures Content(host.files, Path("app", "shadoc")) == Some("new")
  {
    hide Content, ChecksumPath;
    var binary := Path("app", "shadoc");
    host := new Host(n => n < 3, n => true, {}, map[binary := "old"]);
    FoundIsContent(host.files, binary, "old");
    var installer := new Installer(host, program => program, binary, None, true);
    ghost var ending;
    outcome, ending := PerformManagedUpdate(installer, Some(Artifact("new", "new")), recordable);
  }
}
