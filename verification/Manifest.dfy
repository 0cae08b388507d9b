/** The manifest stream of a restored tree: what is hashed, why it determines the tree, and the walk that writes it. */
module Manifest {
  import opened Wrappers
  import opened Lines

  const COLON: Byte := 58
  const ZERO: Byte := 48

  /** "restore-verification-manifest/v1" and a newline */
  const HEADER: Bytes := [114, 101, 115, 116, 111, 114, 101, 45, 118, 101, 114, 105, 102, 105, 99, 97, 116, 105, 111, 110,
                          45, 109, 97, 110, 105, 102, 101, 115, 116, 47, 118, 49, 10]

  datatype Entry = Entry(path: Bytes, content: Bytes)

  predicate IsDigit(b: Byte) {
    ZERO <= b < ZERO + 10
  }

  function Decimal(n: nat): (s: Bytes)
    ensures |s| > 0 && forall i :: 0 <= i < |s| ==> IsDigit(s[i])
  {
    if n < 10 then [ZERO + n] else Decimal(n / 10) + [ZERO + n % 10]
  }

  function Header(path: Bytes, size: nat): Bytes {
    Decimal(|path|) + [COLON] + path + [COLON] + Decimal(size) + [NEWLINE]
  }

  function EncodeEntry(e: Entry): Bytes {
    Header(e.path, |e.content|) + e.content + [NEWLINE]
  }

  function Encode(entries: seq<Entry>): Bytes {
    if entries == [] then [] else Encode(entries[..|entries| - 1]) + EncodeEntry(entries[|entries| - 1])
  }

  /** Everything that is hashed for a list of files. */
  function Stream(entries: seq<Entry>): Bytes {
    HEADER + Encode(entries)
  }

  function TotalSize(entries: seq<Entry>): nat {
    if entries == [] then 0 else TotalSize(entries[..|entries| - 1]) + |entries[|entries| - 1].content|
  }

  // ----- The parser that inverts the encoding

  function DigitCount(s: Bytes): (n: nat)
    ensures n <= |s|
  {
    if s == [] || !IsDigit(s[0]) then 0 else 1 + DigitCount(s[1..])
  }

  function Value(digits: Bytes): int {
    if digits == [] then 0 else 10 * Value(digits[..|digits| - 1]) + digits[|digits| - 1] - ZERO
  }

  /** A decimal number and the byte `end` after it. */
  function ParseNumber(s: Bytes, end: Byte): (r: Option<(int, Bytes)>)
    ensures r.Some? ==> |r.value.1| < |s|
  {
    var n := DigitCount(s);
    if n < |s| && s[n] == end then Some((Value(s[..n]), s[n + 1..])) else None
  }

  /** `n` bytes and the byte `end` after them. */
  function ParseBytes(s: Bytes, n: int, end: Byte): (r: Option<(Bytes, Bytes)>)
    ensures r.Some? ==> |r.value.1| < |s|
  {
    if 0 <= n < |s| && s[n] == end then Some((s[..n], s[n + 1..])) else None
  }

  function ParseEntry(s: Bytes): (r: Option<(Entry, Bytes)>)
    ensures r.Some? ==> |r.value.1| < |s|
  {
    match ParseNumber(s, COLON)
    case None => None
    case Some((length, afterLength)) =>
      match ParseBytes(afterLength, length, COLON)
      case None => None
      case Some((path, afterPath)) =>
        match ParseNumber(afterPath, NEWLINE)
        case None => None
        case Some((size, afterSize)) =>
          match ParseBytes(afterSize, size, NEWLINE)
          case None => None
          case Some((content, rest)) => Some((Entry(path, content), rest))
  }

  function Parse(s: Bytes): Option<seq<Entry>> {
    if s == [] then Some([])
    else
      match ParseEntry(s)
      case None => None
      case Some((e, rest)) =>
        match Parse(rest)
        case None => None
        case Some(entries) => Some([e] + entries)
  }

  lemma {:induction false} DecimalValue(n: nat)
    ensures Value(Decimal(n)) == n
  {
    if n >= 10 {
      DecimalValue(n / 10);
      assert Decimal(n)[..|Decimal(n)| - 1] == Decimal(n / 10);
    }
  }

  lemma {:induction false} DigitsStop(digits: Bytes, rest: Bytes)
    requires forall i :: 0 <= i < |digits| ==> IsDigit(digits[i])
    requires rest != [] && !IsDigit(rest[0])
    ensures DigitCount(digits + rest) == |digits|
  {
    if digits == [] {
      assert digits + rest == rest;
    } else {
      assert (digits + rest)[1..] == digits[1..] + rest;
      DigitsStop(digits[1..], rest);
    }
  }

  lemma ParseNumberInverts(n: nat, end: Byte, rest: Bytes)
    requires !IsDigit(end)
    ensures ParseNumber(Decimal(n) + [end] + rest, end) == Some((n, rest))
  {
    var d := Decimal(n);
    var s := d + [end] + rest;
    assert s == d + ([end] + rest);
    DigitsStop(d, [end] + rest);
    DecimalValue(n);
    assert s[..|d|] == d && s[|d| + 1..] == rest;
  }

  lemma ParseBytesInverts(bytes: Bytes, end: Byte, rest: Bytes)
    ensures ParseBytes(bytes + [end] + rest, |bytes|, end) == Some((bytes, rest))
  {
    var s := bytes + [end] + rest;
    assert s[..|bytes|] == bytes && s[|bytes| + 1..] == rest;
  }

  lemma ParseEntryInverts(e: Entry, rest: Bytes)
    ensures ParseEntry(EncodeEntry(e) + rest) == Some((e, rest))
  {
    var s3 := e.content + [NEWLINE] + rest;
    var s2 := Decimal(|e.content|) + [NEWLINE] + s3;
    var s1 := e.path + [COLON] + s2;
    assert EncodeEntry(e) + rest == Decimal(|e.path|) + [COLON] + s1;
    ParseNumberInverts(|e.path|, COLON, s1);
    ParseBytesInverts(e.path, COLON, s2);
    ParseNumberInverts(|e.content|, NEWLINE, s3);
    ParseBytesInverts(e.content, NEWLINE, rest);
  }

  lemma EncodeOneMore(entries: seq<Entry>, e: Entry)
    ensures Encode(entries + [e]) == Encode(entries) + EncodeEntry(e)
    ensures TotalSize(entries + [e]) == TotalSize(entries) + |e.content|
  {
    assert (entries + [e])[..|entries|] == entries;
  }

  lemma {:induction false} EncodeFront(e: Entry, rest: seq<Entry>)
    ensures Encode([e] + rest) == EncodeEntry(e) + Encode(rest)
  {
    hide *;
    EncodeNone();
    if rest == [] {
      EncodeOneMore([], e);
      assert [e] + rest == [] + [e];
    } else {
      var init, last := rest[..|rest| - 1], rest[|rest| - 1];
      EncodeFront(e, init);
      EncodeOneMore(init, last);
      EncodeOneMore([e] + init, last);
      assert rest == init + [last] && [e] + rest == [e] + init + [last];
      Regroup(EncodeEntry(e), Encode(init), EncodeEntry(last));
    }
  }

  lemma EncodeNone()
    ensures Encode([]) == []
  {}

  lemma Regroup(a: Bytes, b: Bytes, c: Bytes)
    ensures a + b + c == a + (b + c)
  {}

  /** Parsing gives back exactly the list that was encoded, whatever bytes its paths and contents hold. */
  lemma {:induction false} ParseInverts(entries: seq<Entry>)
    ensures Parse(Encode(entries)) == Some(entries)
  {
    if entries != [] {
      assert entries == [entries[0]] + entries[1..];
      EncodeFront(entries[0], entries[1..]);
      ParseEntryInverts(entries[0], Encode(entries[1..]));
      ParseInverts(entries[1..]);
    }
  }

  /** So two trees with the same stream are the same ordered list of paths and contents. */
  lemma StreamDeterminesTree(a: seq<Entry>, b: seq<Entry>)
    requires Stream(a) == Stream(b)
    ensures a == b
  {
    assert (HEADER + Encode(a))[|HEADER|..] == Encode(a) && (HEADER + Encode(b))[|HEADER|..] == Encode(b);
    ParseInverts(a);
    ParseInverts(b);
  }

  // ----- The walk

  const MAXIMUM_FILES: nat := 100_000

  /** One visit of the directory walk. For a file: what the inspection says, and what reading it delivers. */
  datatype Visit =
    | Unreadable
    | Directory
    | Other
    | File(path: Bytes, escaped: bool, size: int, openable: bool, data: Bytes, readable: bool)

  datatype Evidence = Evidence(fileCount: nat, byteCount: nat)

  /** The files of a walk, in order, as they would be hashed. */
  function Files(visits: seq<Visit>): seq<Entry> {
    if visits == [] then []
    else
      var init, last := Files(visits[..|visits| - 1]), visits[|visits| - 1];
      if last.File? then init + [Entry(last.path, last.data)] else init
  }

  /** Hashing is writing to `stream`. `cancelledAt` is the visit at which the context is found ended, if any. */
  method HashRestoredTree(visits: seq<Visit>, maximumBytes: int, cancelledAt: Option<nat>)
    returns (ok: bool, evidence: Evidence, stream: Bytes)
    // success: the stream is that of all the files, each read in full, and the counts are theirs
    ensures ok ==> stream == Stream(Files(visits))
    ensures ok ==> evidence == Evidence(|Files(visits)|, TotalSize(Files(visits)))
    ensures ok ==> 0 < |Files(visits)| <= MAXIMUM_FILES
    ensures ok ==> forall i :: 0 <= i < |visits| ==> Acceptable(visits[i])
    // whatever happens the byte count respects the limit
    ensures 0 <= maximumBytes ==> evidence.byteCount <= maximumBytes
    ensures maximumBytes < 0 ==> evidence.byteCount == 0
    // and nothing acceptable within the limits is turned down
    ensures
      (forall i :: 0 <= i < |visits| ==> Acceptable(visits[i]))
      && cancelledAt.None? && 0 < |Files(visits)| <= MAXIMUM_FILES && TotalSize(Files(visits)) <= maximumBytes
      ==> ok
  {
    hide Stream, TotalSize, Files;
    ok, evidence, stream := false, Evidence(0, 0), HEADER;
    NothingHashed(visits);
    for i := 0 to |visits|
      invariant stream == Stream(Files(visits[..i]))
      invariant evidence == Evidence(|Files(visits[..i])|, TotalSize(Files(visits[..i])))
      invariant WithinLimits(evidence, maximumBytes)
      invariant forall k :: 0 <= k < i ==> Acceptable(visits[k])
    {
      hide EncodeEntry, Header, Decimal;
      var visit := visits[i];
      ghost var files := Files(visits[..i]);
      FilesGrow(visits, i + 1);
      FilesOneMore(visits, i);
      if visit.Unreadable? || cancelledAt == Some(i) {
        return;
      }
      if !visit.Directory? {
        if visit.Other? {
          return;
        }
        var hashed;
        hashed, evidence, stream := HashFile(visit, maximumBytes, evidence, stream);
        if !hashed {
          return;
        }
        StreamOneMore(files, visit.path, visit.data);
      }
    }
    assert visits[..|visits|] == visits;
    ok := evidence.fileCount > 0;
  }

  lemma NothingHashed(visits: seq<Visit>)
    ensures Files(visits[..0]) == [] && TotalSize([]) == 0 && Stream([]) == HEADER
  {}

  ghost predicate WithinLimits(evidence: Evidence, maximumBytes: int) {
    && evidence.fileCount <= MAXIMUM_FILES
    && (0 <= maximumBytes ==> evidence.byteCount <= maximumBytes)
    && (maximumBytes < 0 ==> evidence.byteCount == 0)
  }

  /** One file: its header, its content as far as the limit allows, and a newline. */
  method HashFile(file: Visit, maximumBytes: int, before: Evidence, stream: Bytes) returns (ok: bool,
       evidence: Evidence, written: Bytes)
    requires file.File? && WithinLimits(before, maximumBytes)
    ensures WithinLimits(evidence, maximumBytes)
    ensures ok ==> Acceptable(file) && written == stream + Header(file.path, |file.data|) + file.data + [NEWLINE]
    ensures ok ==> evidence == Evidence(before.fileCount + 1, before.byteCount + |file.data|)
    ensures Acceptable(file) && before.fileCount < MAXIMUM_FILES && before.byteCount + |file.data| <= maximumBytes ==> ok
    // on a failure: what was counted, and at most one byte past the limit was read
    ensures !ok && !Opens(file, maximumBytes, before) ==> evidence == before
    ensures !ok && Opens(file, maximumBytes, before) ==>
      var remaining := maximumBytes - before.byteCount;
      && evidence == Evidence(before.fileCount, if |file.data| <= remaining then before.byteCount + |file.data| else maximumBytes)
      && written == stream + Header(file.path, file.size) + if |file.data| <= remaining then file.data else file.data[..remaining + 1]
  {
    hide Header;
    ok, evidence, written := false, before, stream;
    if evidence.fileCount >= MAXIMUM_FILES {
      return;
    }
    if file.size < 0 || file.size > maximumBytes - evidence.byteCount || file.escaped {
      return;
    }
    written := written + Header(file.path, file.size);
    if !file.openable {
      return;
    }
    var remaining := maximumBytes - evidence.byteCount;
    var read := if |file.data| <= remaining + 1 then |file.data| else remaining + 1;
    written := written + file.data[..read];
    if read > remaining {
      evidence := evidence.(byteCount := maximumBytes);
      return;
    }
    evidence := evidence.(byteCount := evidence.byteCount + read);
    if !file.readable || read != file.size {
      return;
    }
    assert file.data[..read] == file.data;
    written := written + [NEWLINE];
    evidence := evidence.(fileCount := evidence.fileCount + 1);
    ok := true;
  }

  lemma StreamOneMore(files: seq<Entry>, path: Bytes, content: Bytes)
    ensures Stream(files + [Entry(path, content)]) == Stream(files) + Header(path, |content|) + content + [NEWLINE]
  {
    EncodeOneMore(files, Entry(path, content));
    hide Encode, Header;
  }

  lemma FilesOneMore(visits: seq<Visit>, i: nat)
    requires i < |visits|
    ensures Files(visits[..i + 1]) == if visits[i].File? then Files(visits[..i]) + [Entry(visits[i].path, visits[i].data)] else Files(visits[..i])
    ensures visits[i].File? ==> TotalSize(Files(visits[..i + 1])) == TotalSize(Files(visits[..i])) + |visits[i].data|
  {
    assert visits[..i + 1][..i] == visits[..i];
    if visits[i].File? {
      EncodeOneMore(Files(visits[..i]), Entry(visits[i].path, visits[i].data));
    }
  }

  /** The file is within the limits as far as its size says, inside the tree, and can be opened. */
  predicate Opens(file: Visit, maximumBytes: int, before: Evidence)
    requires file.File?
  {
    before.fileCount < MAXIMUM_FILES && 0 <= file.size <= maximumBytes - before.byteCount && !file.escaped && file.openable
  }

  predicate Acceptable(v: Visit) {
    v.Directory? || (v.File? && !v.escaped && v.openable && v.readable && v.size == |v.data|)
  }

  lemma {:induction false} FilesGrow(visits: seq<Visit>, i: nat)
    requires i <= |visits|
    ensures |Files(visits[..i])| <= |Files(visits)| && TotalSize(Files(visits[..i])) <= TotalSize(Files(visits))
  {
    if i < |visits| {
      var init := visits[..|visits| - 1];
      FilesGrow(init, i);
      assert init[..i] == visits[..i];
      if visits[|visits| - 1].File? {
        assert Files(visits)[..|Files(visits)| - 1] == Files(init);
      }
    } else {
      assert visits[..i] == visits;
    }
  }
}
