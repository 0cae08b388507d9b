/** Newline-delimited byte streams: the reference meaning of "the lines of this input". */
module Lines {

  type Byte = b: int | 0 <= b < 256
  type Bytes = seq<Byte>

  const NEWLINE: Byte := 10

  /** The lines of `s` that a newline ends, without their newlines. */
  function Complete(s: Bytes): seq<Bytes> {
    if s == [] then []
    else if s[|s| - 1] == NEWLINE then Complete(s[..|s| - 1]) + [Rest(s[..|s| - 1])]
    else Complete(s[..|s| - 1])
  }

  /** What follows the last newline of `s`. */
  function Rest(s: Bytes): Bytes {
    if s == [] || s[|s| - 1] == NEWLINE then [] else Rest(s[..|s| - 1]) + [s[|s| - 1]]
  }

  /** Every line of `s`; the last one is the part after the last newline and may be empty. */
  function All(s: Bytes): seq<Bytes> {
    Complete(s) + [Rest(s)]
  }

  /** The bytes that `lines` came from, each line ended by a newline. */
  function Joined(lines: seq<Bytes>): Bytes {
    if lines == [] then [] else Joined(lines[..|lines| - 1]) + lines[|lines| - 1] + [NEWLINE]
  }

  function Flatten(chunks: seq<Bytes>): Bytes {
    if chunks == [] then [] else Flatten(chunks[..|chunks| - 1]) + chunks[|chunks| - 1]
  }

  /** Splitting loses and invents nothing: the lines joined give the input back, and none holds a newline. */
  lemma {:induction false} SplitIsExact(s: Bytes)
    ensures Joined(Complete(s)) + Rest(s) == s
    ensures NEWLINE !in Rest(s)
    ensures forall line :: line in Complete(s) ==> NEWLINE !in line
  {
    if s != [] {
      var init := s[..|s| - 1];
      SplitIsExact(init);
      assert s == init + [s[|s| - 1]];
      if s[|s| - 1] == NEWLINE {
        assert Complete(s)[..|Complete(s)| - 1] == Complete(init);
      }
    }
  }

  /** Bytes without a newline only lengthen the unfinished line. */
  lemma {:induction false} ExtendRest(s: Bytes, part: Bytes)
    requires NEWLINE !in part
    ensures Complete(s + part) == Complete(s)
    ensures Rest(s + part) == Rest(s) + part
  {
    if part == [] {
      assert s + part == s;
    } else {
      var init := part[..|part| - 1];
      ExtendRest(s, init);
      assert (s + part)[..|s + part| - 1] == s + init;
      assert part == init + [part[|part| - 1]];
    }
  }

  /** A newline moves the unfinished line to the complete ones. */
  lemma EndLine(s: Bytes)
    ensures Complete(s + [NEWLINE]) == Complete(s) + [Rest(s)]
    ensures Rest(s + [NEWLINE]) == []
  {
    assert (s + [NEWLINE])[..|s|] == s;
  }

  lemma Advance(start: Bytes, input: Bytes, from: nat, to: nat)
    requires from <= to <= |input|
    ensures start + input[..from] + input[from..][..to - from] == start + input[..to]
    ensures from + 1 == to ==> input[from..][..to - from] == [input[from]]
  {
    assert input[..to] == input[..from] + input[from..][..to - from];
  }

  /** The position of the first newline, or the length of `s` when it has none. */
  method IndexNewline(s: Bytes) returns (n: nat)
    ensures n <= |s| && NEWLINE !in s[..n]
    ensures n < |s| ==> s[n] == NEWLINE
  {
    n := 0;
    while n < |s| && s[n] != NEWLINE
      invariant n <= |s| && NEWLINE !in s[..n]
    {
      n := n + 1;
    }
  }
}
