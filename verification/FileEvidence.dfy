/** Completing the file counts of a backup, and the outcome the engine reports from them. */
module FileEvidence {
  import opened Wrappers
  import opened Lines
  import opened SummaryCollector

  /** The entries of the run summary that hold a signed 64-bit count. */
  type Summary = map<string, Int64>

  const PROCESSED := "filesProcessed"
  const EXPECTED := "filesExpected"
  const FAILED := "filesFailed"

  /** The counts never start out negative, and a zero failure count is left out. */
  predicate Sound(s: Summary) {
    && (PROCESSED in s ==> s[PROCESSED] >= 0)
    && (EXPECTED in s ==> s[EXPECTED] >= 0)
    && (FAILED in s ==> s[FAILED] >= 0)
  }

  predicate FitsTogether(s: Summary)
    requires PROCESSED in s && FAILED in s
  {
    s[PROCESSED] + s[FAILED] <= MAX_INT64
  }

  /** The summary built from the latest summary message; nil when no message was found. */
  function SummaryValues(c: Collected): (s: Option<Summary>)
    ensures s.Some? <==> c.latest.Some?
    ensures s.Some? && (c.expectedFiles.Some? ==> c.expectedFiles.value >= 0) ==> Sound(s.value)
    ensures s.Some? ==> (FAILED in s.value <==> c.failedItems != {})
    ensures s.Some? ==> (EXPECTED in s.value <==> c.expectedFiles.Some? && c.expectedFiles.value >= 0)
    ensures s.Some? ==> (PROCESSED in s.value <==> c.latest.value.totalFilesProcessed.Some? && c.latest.value.totalFilesProcessed.value >= 0)
    ensures s.Some? ==> forall k :: k in s.value ==> Some(s.value[k]) == if k == EXPECTED then c.expectedFiles
                                                                         else if k == PROCESSED then c.latest.value.totalFilesProcessed
                                                                         else Some(Clamp(|c.failedItems|))
  {
    if c.latest.None? then None
    else
      var processed := c.latest.value.totalFilesProcessed;
      var s0: Summary := if c.expectedFiles.Some? && c.expectedFiles.value >= 0 then map[EXPECTED := c.expectedFiles.value] else map[];
      var s1: Summary := if processed.Some? && processed.value >= 0 then s0[PROCESSED := processed.value] else s0;
      Some(if |c.failedItems| > 0 then s1[FAILED := Clamp(|c.failedItems|)] else s1)
  }

  /** `int64(len(items))`: a set larger than this cannot exist in memory. */
  function Clamp(n: nat): (r: Int64) {
    if n <= MAX_INT64 then n else MAX_INT64
  }

  class RunSummary {
    var values: Summary

    constructor (values: Summary)
      ensures this.values == values
    {
      this.values := values;
    }

    /** Fills in the expected and failed counts so that they agree with the processed count. */
    method CompleteFileEvidence(complete: bool)
      requires Sound(values)
      modifies this
      ensures Sound(values) && CompletionOf(old(values), values, complete)
    {
      if PROCESSED in values {
        var processed := values[PROCESSED];
        var minimumExpected := processed;
        if FAILED in values && values[FAILED] > 0 && processed <= MAX_INT64 - values[FAILED] {
          minimumExpected := processed + values[FAILED];
        } else if !complete && processed < MAX_INT64 {
          minimumExpected := processed + 1;
        }
        if EXPECTED !in values || values[EXPECTED] < minimumExpected {
          values := values[EXPECTED := minimumExpected];
        }
        // Nothing needs to be checked before this: the expected count is at least `processed` by now.
        values := values[FAILED := values[EXPECTED] - processed];
      }
    }
  }

  /** An expected count that is no smaller than anything already known says it must be. */
  predicate Allowed(before: Summary, complete: bool, expected: int)
    requires PROCESSED in before
  {
    && expected >= before[PROCESSED]
    // an announced total is never lowered, and neither is an observed failure count that fits
    && (EXPECTED in before ==> expected >= before[EXPECTED])
    && (FAILED in before && FitsTogether(before) ==> expected - before[PROCESSED] >= before[FAILED])
    // an incomplete backup missed a file, unless there is no room to count it
    && (!complete && before[PROCESSED] < MAX_INT64 ==> expected > before[PROCESSED])
  }

  /** What completion promises: the least allowed expected count, the difference as failures, all else untouched. */
  ghost predicate CompletionOf(before: Summary, after: Summary, complete: bool) {
    && (forall k :: k !in {EXPECTED, FAILED} ==> (k in before <==> k in after) && (k in before && k in after ==> before[k] == after[k]))
    && (PROCESSED !in before ==> after == before)
    && (PROCESSED in before ==>
          && EXPECTED in after && FAILED in after
          && Allowed(before, complete, after[EXPECTED])
          && (forall e: Int64 :: Allowed(before, complete, e) ==> after[EXPECTED] <= e)
          && after[FAILED] == (after[EXPECTED] as int) - after[PROCESSED])
  }

  /** Whenever processed files are known the counts balance, without overflow by their type; an
      incomplete backup shows a failure exactly when there is room to count one. */
  lemma CompletedCountsBalance(before: Summary, after: Summary, complete: bool)
    requires Sound(before) && CompletionOf(before, after, complete) && PROCESSED in before
    ensures after[PROCESSED] == before[PROCESSED]
    ensures after[EXPECTED] == (after[PROCESSED] as int) + after[FAILED] && after[FAILED] >= 0
    ensures !complete ==> (after[FAILED] >= 1 <==> after[PROCESSED] < MAX_INT64)
    ensures complete && FAILED !in before && (EXPECTED in before ==> before[EXPECTED] <= before[PROCESSED]) ==> after[FAILED] == 0
  {
    assert Allowed(before, true, before[PROCESSED]) || FAILED in before || (EXPECTED in before && before[EXPECTED] > before[PROCESSED]);
  }

  /** The promise fixes the result. */
  lemma CompletionIsUnique(before: Summary, a: Summary, b: Summary, complete: bool)
    requires Sound(before) && CompletionOf(before, a, complete) && CompletionOf(before, b, complete)
    ensures a == b
  {
    if PROCESSED in before {
      assert a[PROCESSED] == before[PROCESSED] == b[PROCESSED];
      assert Allowed(before, complete, a[EXPECTED]) && Allowed(before, complete, b[EXPECTED]);
      assert forall k :: k in a.Keys <==> k in b.Keys;
    }
  }

  /** Completing twice changes nothing the second time. */
  lemma CompletionIsIdempotent(before: Summary, once: Summary, twice: Summary, complete: bool)
    requires Sound(before) && CompletionOf(before, once, complete) && CompletionOf(once, twice, complete)
    ensures twice == once
  {
    if PROCESSED in before {
      assert once[PROCESSED] == before[PROCESSED] == twice[PROCESSED];
      assert Allowed(once, complete, once[EXPECTED]);
      assert forall k :: k in once.Keys <==> k in twice.Keys;
    }
  }

  datatype Kind = BackupDirectory | OtherOperation
  datatype Outcome = Success | Partial | Failure
  datatype ProcessError = NoError | NotRunnable | Broken
  datatype EngineResult = EngineResult(outcome: Outcome, failed: bool, summary: Option<Summary>)

  predicate FileEvidenceDiffers(s: Summary) {
    EXPECTED in s && PROCESSED in s && s[EXPECTED] != s[PROCESSED]
  }

  predicate ObservedFailure(s: Summary) {
    FAILED in s && s[FAILED] > 0
  }

  /** The counts that were found show a file that was not processed, in a way the engine can express. */
  predicate ShowsMissedFiles(s: Summary) {
    PROCESSED in s && ((ObservedFailure(s) && FitsTogether(s)) || (EXPECTED in s && s[EXPECTED] > s[PROCESSED]))
  }

  /** Completion of a finished backup counts a failure exactly when the counts as found show a missed file. */
  lemma CompletionCountsMissedFilesIff(before: Summary, after: Summary)
    requires Sound(before) && CompletionOf(before, after, true) && PROCESSED in before
    ensures after[FAILED] > 0 <==> ShowsMissedFiles(before)
  {
    assert Allowed(before, true, before[PROCESSED]) <==> !ShowsMissedFiles(before);
  }

  /** The end of one restic command: which outcome and error it becomes. */
  method Conclude(kind: Kind, exitCode: int, processErr: ProcessError, collected: Option<Summary>) returns (r: EngineResult)
    requires collected.Some? ==> Sound(collected.value)
    ensures r.failed <==> !(kind.BackupDirectory? && exitCode == 3) && (exitCode != 0 || processErr != NoError)
    ensures r.outcome.Partial? ==> kind.BackupDirectory? && !r.failed
    ensures r.outcome.Failure? ==> r.failed
    ensures r.failed && r.outcome != Failure ==> r.outcome.Success? && processErr.NotRunnable?
    ensures r.summary.Some? <==> collected.Some?
    // every outcome, and a summary left as it was found unless a directory backup ended
    ensures r.outcome == if kind.BackupDirectory? && exitCode == 3 then Partial
                         else if processErr.NotRunnable? then Success
                         else if processErr.Broken? || exitCode != 0 then Failure
                         else if kind.BackupDirectory? && collected.Some? && ShowsMissedFiles(collected.value) then Partial
                         else Success
    ensures kind.OtherOperation? || (exitCode != 3 && (exitCode != 0 || processErr != NoError)) ==> r.summary == collected
    // exit code 3 of a directory backup: partial, with a failed file counted wherever the counter has room
    ensures kind.BackupDirectory? && exitCode == 3 ==>
              r.outcome.Partial? && (r.summary.Some? ==> CompletionOf(collected.value, r.summary.value, false))
    // exit code 0 of a directory backup: success exactly when no file failed, once processed files are known
    ensures kind.BackupDirectory? && exitCode == 0 && processErr.NoError? ==>
              (r.summary.Some? ==> CompletionOf(collected.value, r.summary.value, true))
              && (r.summary.Some? && PROCESSED in r.summary.value ==>
                    (r.outcome.Success? <==> r.summary.value[FAILED] == 0) && (r.outcome.Partial? <==> r.summary.value[FAILED] > 0))
              && ((r.summary.Some? ==> PROCESSED !in r.summary.value) ==> r.outcome.Success?)
    // what that says of the counts as they were found, failures observed in the log included
    ensures kind.BackupDirectory? && exitCode == 0 && processErr.NoError? ==>
              (r.outcome.Partial? <==> collected.Some? && ShowsMissedFiles(collected.value))
    ensures kind.BackupDirectory? && exitCode == 0 && processErr.NoError? && collected.Some? && ObservedFailure(collected.value) ==>
              (r.outcome.Partial? <==>
                 PROCESSED in collected.value
                 && (FitsTogether(collected.value) || (EXPECTED in collected.value && collected.value[EXPECTED] > collected.value[PROCESSED])))
  {
    r := EngineResult(Success, false, collected);
    if exitCode == 3 && kind.BackupDirectory? {
      r := r.(outcome := Partial);
      if collected.Some? {
        var summary := new RunSummary(collected.value);
        summary.CompleteFileEvidence(false);
        r := r.(summary := Some(summary.values));
      }
      return;
    }
    if processErr.NotRunnable? {
      r := r.(failed := true);
      return;
    }
    if processErr != NoError || exitCode != 0 {
      r := r.(outcome := Failure, failed := true);
      return;
    }
    if kind.BackupDirectory? && collected.Some? {
      var summary := new RunSummary(collected.value);
      summary.CompleteFileEvidence(true);
      if PROCESSED in collected.value { CompletionCountsMissedFilesIff(collected.value, summary.values); }
      r := r.(summary := Some(summary.values));
      if FileEvidenceDiffers(summary.values) {
        r := r.(outcome := Partial);
      }
    }
  }

  // ----- From the log to the outcome

  /** The counts of a log show a missed file: a failed item that still fits beside the processed count, or an
      announced total above it. */
  predicate MissedFiles(c: Collected) {
    && c.latest.Some? && c.latest.value.totalFilesProcessed.Some?
    && var processed := c.latest.value.totalFilesProcessed.value;
    && 0 <= processed
    && ((c.failedItems != {} && processed + Clamp(|c.failedItems|) <= MAX_INT64) || (c.expectedFiles.Some? && c.expectedFiles.value > processed))
  }

  lemma SummaryShowsMissedFilesIff(c: Collected)
    requires c.expectedFiles.Some? ==> c.expectedFiles.value >= 0
    ensures SummaryValues(c).Some? && ShowsMissedFiles(SummaryValues(c).value) <==> MissedFiles(c)
    ensures SummaryValues(c).Some? ==> (ObservedFailure(SummaryValues(c).value) <==> c.failedItems != {})
  {
    assert c.failedItems != {} <==> |c.failedItems| > 0;
  }

  /** An announced total is not negative. */
  lemma TotalsAreCounts(d: Decoder, c: Collected, lines: seq<Bytes>)
    requires Describes(d, c, lines)
    ensures c.expectedFiles.Some? ==> c.expectedFiles.value >= 0
  {
  }

  /**
   * A directory backup from its log to its outcome. The log is what the lines of all the output mean, however
   * it was cut into writes; on exit code 0 the backup is partial exactly when that log shows a missed file, and
   * on exit code 3 it is partial with a failure counted wherever the counter has room.
   */
  method BackupOutcome(decoder: Decoder, chunks: seq<Bytes>, exitCode: int, processErr: ProcessError)
    returns (r: EngineResult, ghost log: Collected)
    ensures Describes(decoder, log, Considered(Flatten(chunks)))
    ensures r.summary.Some? <==> log.latest.Some?
    ensures r.failed <==> exitCode != 3 && (exitCode != 0 || processErr != NoError)
    ensures exitCode != 3 && (exitCode != 0 || processErr != NoError) ==>
      r.outcome == (if processErr.NotRunnable? then Success else Failure) && r.summary == SummaryValues(log)
    ensures exitCode == 0 && processErr.NoError? ==> !r.failed && (r.outcome.Partial? <==> MissedFiles(log))
    ensures exitCode == 3 ==> r.outcome.Partial? && !r.failed
    ensures (exitCode == 3 || (exitCode == 0 && processErr.NoError?)) && r.summary.Some? ==>
              CompletionOf(SummaryValues(log).value, r.summary.value, exitCode == 0)
    ensures exitCode == 3 && r.summary.Some? && PROCESSED in r.summary.value && r.summary.value[PROCESSED] < MAX_INT64 ==>
              r.summary.value[FAILED] >= 1
  {
    hide Describes;
    var collected := Collect(decoder, chunks);
    log := collected;
    TotalsAreCounts(decoder, log, Considered(Flatten(chunks)));
    SummaryShowsMissedFilesIff(log);
    r := Conclude(BackupDirectory, exitCode, processErr, SummaryValues(collected));
  }

  /** Two logs with an observed failure that exit code 0 turns into a success all the same: one without a
      processed count, and one whose processed count leaves no room for the failure. */
  method SuccessDespiteObservedFailures() returns (uncounted: EngineResult, full: EngineResult)
    ensures uncounted.outcome.Success? && uncounted.summary.Some? && ObservedFailure(uncounted.summary.value)
    ensures full.outcome.Success? && full.summary.Some? && FAILED in full.summary.value && full.summary.value[FAILED] == 0
  {
    var item := Collected({"x"}, None, Some(Message("id", None)));
    uncounted := Conclude(BackupDirectory, 0, NoError, SummaryValues(item));
    var counted := Collected({"x"}, None, Some(Message("id", Some(MAX_INT64))));
    SummaryShowsMissedFilesIff(item);
    SummaryShowsMissedFilesIff(counted);
    full := Conclude(BackupDirectory, 0, NoError, SummaryValues(counted));
  }
}
