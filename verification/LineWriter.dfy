/** The bounded line splitter between `restic ls` output and the snapshot browser. */
module LineWriter {
  import opened Wrappers
  import opened Lines

  const MAXIMUM_LINE_SIZE: nat := 0x10_0000

  datatype LineError = TooLong | FromVisit(code: int)

  /** What the stream has caused so far: the lines handed to the visitor and the first error. */
  datatype Outcome = Outcome(visited: seq<Bytes>, err: Option<LineError>)

  /** The visitor may keep state of its own, so its answer depends on every line it has been given. */
  type Visitor = seq<Bytes> -> Option<int>

  function Visited(visit: Visitor, visited: seq<Bytes>, line: Bytes): Outcome {
    var now := visited + [line];
    match visit(now)
    case None => Outcome(now, None)
    case Some(code) => Outcome(now, Some(FromVisit(code)))
  }

  /** One pass over whole lines: empty lines are skipped and the first error ends it. */
  function Scan(visit: Visitor, visited: seq<Bytes>, lines: seq<Bytes>): Outcome
    decreases |lines|
  {
    if lines == [] then Outcome(visited, None)
    else if |lines[0]| > MAXIMUM_LINE_SIZE then Outcome(visited, Some(TooLong))
    else if lines[0] == [] then Scan(visit, visited, lines[1..])
    else
      var next := Visited(visit, visited, lines[0]);
      if next.err.Some? then next else Scan(visit, next.visited, lines[1..])
  }

  /** The effect of one more line on an outcome. */
  function Step(visit: Visitor, o: Outcome, line: Bytes): Outcome {
    if o.err.Some? then o
    else if |line| > MAXIMUM_LINE_SIZE then o.(err := Some(TooLong))
    else if line == [] then o
    else Visited(visit, o.visited, line)
  }

  lemma {:induction false} ScanOneMore(visit: Visitor, visited: seq<Bytes>, lines: seq<Bytes>, line: Bytes)
    ensures Scan(visit, visited, lines + [line]) == Step(visit, Scan(visit, visited, lines), line)
    decreases |lines|
  {
    if lines == [] {
      assert (lines + [line])[1..] == [];
    } else {
      assert (lines + [line])[1..] == lines[1..] + [line];
      ScanOneMore(visit, visited, lines[1..], line);
      ScanOneMore(visit, visited + [lines[0]], lines[1..], line);
    }
  }

  /** What stopping at the first error means for the lines the visitor has seen: they are the
      non-empty lines of some prefix, all within the limit, and nothing after that prefix mattered. */
  lemma {:induction false} ScanStopsAtFirstError(visit: Visitor, lines: seq<Bytes>) returns (k: nat)
    ensures k <= |lines|
    ensures Scan(visit, [], lines).visited == NonEmpty(lines[..k])
    ensures forall i :: 0 <= i < k ==> |lines[i]| <= MAXIMUM_LINE_SIZE
    ensures var o := Scan(visit, [], lines);
            match o.err {
              case None => k == |lines|
              case Some(TooLong) => k < |lines| && |lines[k]| > MAXIMUM_LINE_SIZE
              case Some(FromVisit(code)) => 0 < k && lines[k - 1] != [] && visit(o.visited) == Some(code)
            }
    ensures AllSilent(visit, lines, if FailedInVisit(Scan(visit, [], lines)) then k - 1 else k)
  {
    hide Scan, NonEmpty, AllSilent;
    if lines == [] {
      k := 0;
      NothingToScan(visit);
    } else {
      var init, last := lines[..|lines| - 1], lines[|lines| - 1];
      assert lines == init + [last];
      ScanOneMore(visit, [], init, last);
      NonEmptyOneMore(init, last);
      k := ScanStopsAtFirstError(visit, init);
      assert lines[..k] == init[..k];
      SilentBefore(visit, init, last, if FailedInVisit(Scan(visit, [], init)) then k - 1 else k);
      if Scan(visit, [], init).err.None? && |last| <= MAXIMUM_LINE_SIZE {
        k := |lines|;
        assert lines[..k] == lines && init[..|init|] == init;
        if !FailedInVisit(Scan(visit, [], lines)) { SilentOneMore(visit, init, last); }
      }
    }
  }

  /** The visitor accepted each of the first `n` lines it was given. */
  predicate AllSilent(visit: Visitor, lines: seq<Bytes>, n: int) {
    forall j :: 0 <= j < n && j < |lines| && lines[j] != [] ==> visit(NonEmpty(lines[..j + 1])) == None
  }

  lemma NothingToScan(visit: Visitor)
    ensures Scan(visit, [], []) == Outcome([], None) && NonEmpty([]) == [] && AllSilent(visit, [], 0)
  {}

  lemma NonEmptyOneMore(lines: seq<Bytes>, line: Bytes)
    ensures NonEmpty(lines + [line]) == if line == [] then NonEmpty(lines) else NonEmpty(lines) + [line]
  {
    assert (lines + [line])[..|lines|] == lines;
  }

  lemma SilentBefore(visit: Visitor, lines: seq<Bytes>, line: Bytes, n: int)
    requires n <= |lines| && AllSilent(visit, lines, n)
    ensures AllSilent(visit, lines + [line], n)
  {
    hide NonEmpty;
    forall j | 0 <= j < n && j < |lines + [line]| && (lines + [line])[j] != []
      ensures visit(NonEmpty((lines + [line])[..j + 1])) == None
    {
      assert (lines + [line])[..j + 1] == lines[..j + 1] && lines[j] != [];
    }
  }

  lemma SilentOneMore(visit: Visitor, lines: seq<Bytes>, line: Bytes)
    requires AllSilent(visit, lines, |lines|) && (line != [] ==> visit(NonEmpty(lines + [line])) == None)
    ensures AllSilent(visit, lines + [line], |lines| + 1)
  {
    hide NonEmpty;
    SilentBefore(visit, lines, line, |lines|);
    assert (lines + [line])[..|lines| + 1] == lines + [line];
  }

  predicate FailedInVisit(o: Outcome) {
    o.err.Some? && o.err.value.FromVisit?
  }

  function NonEmpty(lines: seq<Bytes>): seq<Bytes> {
    if lines == [] then []
    else
      var init := NonEmpty(lines[..|lines| - 1]);
      if lines[|lines| - 1] == [] then init else init + [lines[|lines| - 1]]
  }

  class SnapshotLineWriter {
    const visit: Visitor
    var pending: Bytes
    var outcome: Outcome
    var written: nat
    var discarding: bool
    ghost var consumed: Bytes

    /** The splitting fields are what one pass over the bytes consumed so far leaves behind. */
    ghost predicate Split()
      reads this
    {
      var tooLong := |Rest(consumed)| > MAXIMUM_LINE_SIZE;
      && discarding == tooLong
      && pending == (if tooLong then [] else Rest(consumed))
      && outcome == (var o := Scan(visit, [], Complete(consumed));
                     if tooLong && o.err.None? then o.(err := Some(TooLong)) else o)
    }

    ghost predicate Valid()
      reads this
    {
      Split() && written == |consumed| && |pending| <= MAXIMUM_LINE_SIZE
    }

    constructor (visit: Visitor)
      ensures Valid() && consumed == [] && this.visit == visit
    {
      this.visit := visit;
      pending, outcome, written, discarding := [], Outcome([], None), 0, false;
      consumed := [];
    }

    /** Adds bytes with no newline in them to the unfinished line. */
    method Extend(part: Bytes)
      requires Split() && NEWLINE !in part
      modifies this`pending, this`outcome, this`discarding, this`consumed
      ensures Split() && consumed == old(consumed) + part
    {
      ExtendRest(consumed, part);
      if !discarding {
        if |pending| + |part| > MAXIMUM_LINE_SIZE {
          if outcome.err.None? {
            outcome := outcome.(err := Some(TooLong));
          }
          pending, discarding := [], true;
        } else {
          pending := pending + part;
        }
      }
      consumed := consumed + part;
    }

    /** Hands a finished, non-empty line that was not too long to the visitor, unless it has failed before. */
    method Deliver()
      requires Split()
      modifies this`outcome
      ensures outcome == Scan(visit, [], All(consumed))
    {
      ScanOneMore(visit, [], Complete(consumed), Rest(consumed));
      if !discarding && |pending| != 0 && outcome.err.None? {
        outcome := Visited(visit, outcome.visited, pending);
      }
    }

    method EndCurrentLine()
      requires Split()
      modifies this`pending, this`outcome, this`discarding, this`consumed
      ensures Split() && consumed == old(consumed) + [NEWLINE]
    {
      EndLine(consumed);
      Deliver();
      pending, discarding := [], false;
      consumed := consumed + [NEWLINE];
    }

    method Write(input: Bytes) returns (n: nat)
      requires Valid()
      modifies this
      ensures Valid() && consumed == old(consumed) + input && n == |input|
    {
      hide Complete, Rest, Scan;
      n := |input|;
      written := written + n;
      var rest := input;
      ghost var start, taken := consumed, 0;
      while |rest| > 0
        invariant taken <= |input| && rest == input[taken..]
        invariant Split() && consumed == start + input[..taken]
        invariant written == old(written) + n
      {
        var newline := IndexNewline(rest);
        Advance(start, input, taken, taken + newline);
        Extend(rest[..newline]);
        taken := taken + newline;
        if newline == |rest| {
          break;
        }
        Advance(start, input, taken, taken + 1);
        EndCurrentLine();
        taken := taken + 1;
        rest := rest[newline + 1..];
      }
      assert input[..taken] == input;
    }

    /** The last line needs no newline; afterwards the outcome is the one-pass scan of all the lines. */
    method Finish()
      requires Valid()
      modifies this
      ensures outcome == Scan(visit, [], All(consumed)) && pending == [] && consumed == old(consumed)
    {
      Deliver();
      pending := [];
    }
  }

  /** However the bytes are cut into writes, the visits and the error are those of the whole input. */
  method Stream(visit: Visitor, chunks: seq<Bytes>) returns (o: Outcome)
    ensures o == Scan(visit, [], All(Flatten(chunks)))
  {
    var writer := new SnapshotLineWriter(visit);
    var i := 0;
    while i < |chunks|
      invariant i <= |chunks| && writer.Valid() && writer.visit == visit && fresh(writer)
      invariant writer.consumed == Flatten(chunks[..i])
    {
      assert chunks[..i + 1][..i] == chunks[..i];
      var n := writer.Write(chunks[i]);
      i := i + 1;
    }
    assert chunks[..i] == chunks;
    writer.Finish();
    o := writer.outcome;
  }
}
