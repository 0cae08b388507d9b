/** The collector of `restic backup --json` output and the file evidence drawn from it. */
module SummaryCollector {
  import opened Wrappers
  import opened Lines

  const MAXIMUM_LINE_BYTES: nat := 0x10_0000
  const MAX_INT64: int := 0x7fff_ffff_ffff_ffff

  type Int64 = n: int | -0x8000_0000_0000_0000 <= n <= MAX_INT64

  datatype Message = Message(snapshotID: string, totalFilesProcessed: Option<Int64>)

  /** What the JSON decoder makes of one line, for the three kinds of message that matter. */
  datatype Decoder = Decoder(
    sourceErrorItem: Bytes -> Option<string>,
    statusTotalFiles: Bytes -> Option<Int64>,
    summary: Bytes -> Option<Message>)

  datatype Collected = Collected(failedItems: set<string>, expectedFiles: Option<Int64>, latest: Option<Message>)

  function Cut(line: Bytes): Bytes {
    if |line| <= MAXIMUM_LINE_BYTES then line else line[..MAXIMUM_LINE_BYTES]
  }

  function CutAll(lines: seq<Bytes>): seq<Bytes> {
    seq(|lines|, i requires 0 <= i < |lines| => Cut(lines[i]))
  }

  /** The lines a finished stream is read as: complete ones, and a last unfinished one that is not empty. */
  function Considered(input: Bytes): seq<Bytes> {
    CutAll(Complete(input)) + (if Rest(input) == [] then [] else [Cut(Rest(input))])
  }

  /** No line is left out, the unfinished last one included, and each is read up to one mebibyte. */
  lemma EverythingIsConsidered(input: Bytes) returns (lines: seq<Bytes>)
    ensures Joined(lines) == if input == [] || input[|input| - 1] == NEWLINE then input else input + [NEWLINE]
    ensures forall line :: line in lines ==> NEWLINE !in line
    ensures |Considered(input)| == |lines|
    ensures forall i :: 0 <= i < |lines| ==> Considered(input)[i] == if |lines[i]| > 1_048_576 then lines[i][..1_048_576] else lines[i]
  {
    SplitIsExact(input);
    lines := Complete(input);
    if Rest(input) != [] {
      lines := lines + [Rest(input)];
      assert lines[..|lines| - 1] == Complete(input);
    }
  }

  predicate Announces(d: Decoder, line: Bytes, total: int) {
    d.statusTotalFiles(line) == Some(total) && total >= 0
  }

  ghost predicate EveryFailedItem(d: Decoder, items: set<string>, lines: seq<Bytes>) {
    forall item :: item in items <==> exists i :: 0 <= i < |lines| && d.sourceErrorItem(lines[i]) == Some(item)
  }

  ghost predicate LargestTotal(d: Decoder, total: Option<Int64>, lines: seq<Bytes>) {
    match total
    case None => forall i, n: Int64 :: 0 <= i < |lines| ==> !Announces(d, lines[i], n)
    case Some(e) =>
      && (exists i :: 0 <= i < |lines| && Announces(d, lines[i], e))
      && forall i, n: Int64 :: 0 <= i < |lines| && Announces(d, lines[i], n) ==> n <= e
  }

  ghost predicate LastSummary(d: Decoder, latest: Option<Message>, lines: seq<Bytes>) {
    match latest
    case None => forall i :: 0 <= i < |lines| ==> d.summary(lines[i]).None?
    case Some(m) => exists i :: IsLastSummary(d, m, lines, i)
  }

  ghost predicate IsLastSummary(d: Decoder, m: Message, lines: seq<Bytes>, i: nat) {
    i < |lines| && d.summary(lines[i]) == Some(m) && forall j :: i < j < |lines| ==> d.summary(lines[j]).None?
  }

  /** What collecting means, with no reference to the order of work: every failed item, the largest
      announced total, and the last summary. */
  ghost predicate Describes(d: Decoder, c: Collected, lines: seq<Bytes>) {
    EveryFailedItem(d, c.failedItems, lines) && LargestTotal(d, c.expectedFiles, lines) && LastSummary(d, c.latest, lines)
  }

  /** The meaning leaves no freedom: two collections of the same lines are equal. */
  lemma DescribesIsUnique(d: Decoder, a: Collected, b: Collected, lines: seq<Bytes>)
    requires Describes(d, a, lines) && Describes(d, b, lines)
    ensures a == b
  {
    assert forall item :: item in a.failedItems <==> item in b.failedItems;
    assert a.failedItems == b.failedItems;
    if a.latest.Some? && b.latest.Some? {
      var i :| IsLastSummary(d, a.latest.value, lines, i);
      var k :| IsLastSummary(d, b.latest.value, lines, k);
      assert i == k;
    }
  }

  lemma OneMoreFailedItem(d: Decoder, items: set<string>, lines: seq<Bytes>, line: Bytes)
    requires EveryFailedItem(d, items, lines)
    ensures EveryFailedItem(d, items + (match d.sourceErrorItem(line) case Some(item) => {item} case None => {}), lines + [line])
  {
    var more := lines + [line];
    assert more[|lines|] == line && forall i :: 0 <= i < |lines| ==> more[i] == lines[i];
  }

  lemma OneMoreTotal(d: Decoder, total: Option<Int64>, lines: seq<Bytes>, line: Bytes, next: Option<Int64>)
    requires LargestTotal(d, total, lines)
    requires next == match d.statusTotalFiles(line)
                     case Some(n) => if n >= 0 && (total.None? || n > total.value) then Some(n) else total
                     case None => total
    ensures LargestTotal(d, next, lines + [line])
  {
    var more := lines + [line];
    assert more[|lines|] == line && forall i :: 0 <= i < |lines| ==> more[i] == lines[i];
    if next.Some? {
      if next == total {
        var i :| 0 <= i < |lines| && Announces(d, lines[i], total.value);
        assert Announces(d, more[i], next.value);
      } else {
        assert Announces(d, more[|lines|], next.value);
      }
    }
  }

  lemma OneMoreSummary(d: Decoder, latest: Option<Message>, lines: seq<Bytes>, line: Bytes)
    requires LastSummary(d, latest, lines)
    ensures LastSummary(d, if d.summary(line).Some? then d.summary(line) else latest, lines + [line])
  {
    var more := lines + [line];
    assert more[|lines|] == line && forall i :: 0 <= i < |lines| ==> more[i] == lines[i];
    if d.summary(line).Some? {
      assert IsLastSummary(d, d.summary(line).value, more, |lines|);
    } else if latest.Some? {
      var i :| IsLastSummary(d, latest.value, lines, i);
      assert IsLastSummary(d, latest.value, more, i);
    }
  }

  class ResticSummaryCollector {
    const decoder: Decoder
    var buffer: Bytes
    var seen: bool
    var collected: Collected
    ghost var consumed: Bytes

    ghost predicate Valid()
      reads this
    {
      && buffer == Cut(Rest(consumed))
      && Describes(decoder, collected, CutAll(Complete(consumed)))
      && seen == (consumed != [])
    }

    constructor (decoder: Decoder)
      ensures Valid() && consumed == [] && this.decoder == decoder
    {
      this.decoder := decoder;
      buffer, seen, collected := [], false, Collected({}, None, None);
      consumed := [];
    }

    /** Appends as much of `value` as the line limit leaves room for. */
    method Append(value: Bytes)
      requires Valid() && NEWLINE !in value
      modifies this`buffer, this`consumed, this`seen
      ensures Valid() && consumed == old(consumed) + value
    {
      ExtendRest(consumed, value);
      var remaining := MAXIMUM_LINE_BYTES - |buffer|;
      if remaining > 0 {
        buffer := buffer + value[..if |value| < remaining then |value| else remaining];
      }
      consumed := consumed + value;
      seen := seen || |value| > 0;
    }

    method Consume(line: Bytes, ghost lines: seq<Bytes>)
      requires Describes(decoder, collected, lines)
      modifies this`collected
      ensures Describes(decoder, collected, lines + [line])
    {
      OneMoreFailedItem(decoder, collected.failedItems, lines, line);
      OneMoreSummary(decoder, collected.latest, lines, line);
      var failedItems, expectedFiles, latest := collected.failedItems, collected.expectedFiles, collected.latest;
      var item := decoder.sourceErrorItem(line);
      if item.Some? {
        failedItems := failedItems + {item.value};
      }
      var total := decoder.statusTotalFiles(line);
      if total.Some? && total.value >= 0 && (expectedFiles.None? || total.value > expectedFiles.value) {
        expectedFiles := total;
      }
      OneMoreTotal(decoder, collected.expectedFiles, lines, line, expectedFiles);
      var message := decoder.summary(line);
      if message.Some? {
        latest := message;
      }
      collected := Collected(failedItems, expectedFiles, latest);
    }

    method EndCurrentLine()
      requires Valid()
      modifies this`buffer, this`collected, this`consumed, this`seen
      ensures Valid() && consumed == old(consumed) + [NEWLINE]
    {
      EndLine(consumed);
      Consume(buffer, CutAll(Complete(consumed)));
      assert CutAll(Complete(consumed + [NEWLINE])) == CutAll(Complete(consumed)) + [buffer];
      buffer := [];
      consumed := consumed + [NEWLINE];
      seen := true;
    }

    method Write(input: Bytes) returns (written: nat)
      requires Valid()
      modifies this
      ensures Valid() && consumed == old(consumed) + input && written == |input|
    {
      hide Complete, Rest, Describes, CutAll;
      written := |input|;
      var value := input;
      ghost var start, taken := consumed, 0;
      while |value| > 0
        invariant taken <= |input| && value == input[taken..]
        invariant Valid() && consumed == start + input[..taken]
      {
        var index := IndexNewline(value);
        Advance(start, input, taken, taken + index);
        Append(value[..index]);
        taken := taken + index;
        if index == |value| {
          break;
        }
        Advance(start, input, taken, taken + 1);
        EndCurrentLine();
        taken := taken + 1;
        value := value[index + 1..];
      }
      assert input[..taken] == input;
    }

    /** Reads an unfinished last line too; the state is then what the whole input means. */
    method Result() returns (c: Collected)
      requires Valid()
      modifies this
      ensures c == collected && Describes(decoder, c, Considered(consumed)) && consumed == old(consumed)
    {
      if |buffer| > 0 {
        Consume(buffer, CutAll(Complete(consumed)));
        buffer := [];
      }
      assert Considered(consumed) == if Rest(consumed) == [] then CutAll(Complete(consumed)) else CutAll(Complete(consumed)) + [Cut(Rest(consumed))];
      c := collected;
    }
  }

  /** However the output is cut into writes, what is collected is what the whole input means. */
  method Collect(decoder: Decoder, chunks: seq<Bytes>) returns (c: Collected)
    ensures Describes(decoder, c, Considered(Flatten(chunks)))
  {
    var collector := new ResticSummaryCollector(decoder);
    var i := 0;
    while i < |chunks|
      invariant i <= |chunks| && collector.Valid() && collector.decoder == decoder && fresh(collector)
      invariant collector.consumed == Flatten(chunks[..i])
    {
      assert chunks[..i + 1][..i] == chunks[..i];
      var n := collector.Write(chunks[i]);
      i := i + 1;
    }
    assert chunks[..i] == chunks;
    c := collector.Result();
  }
}
