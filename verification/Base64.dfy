/** Unpadded base64url, as section 5 of RFC 4648 defines it with the padding left out as in section 3.2. */
module Base64 {
  import opened Wrappers
  import opened Lines

  type Digit = v: nat | v < 64

  function Char(v: Digit): char {
    if v < 26 then ('A' as int + v) as char
    else if v < 52 then ('a' as int + v - 26) as char
    else if v < 62 then ('0' as int + v - 52) as char
    else if v == 62 then '-' else '_'
  }

  function Index(c: char): Option<Digit> {
    if 'A' <= c <= 'Z' then Some(c as int - 'A' as int)
    else if 'a' <= c <= 'z' then Some(c as int - 'a' as int + 26)
    else if '0' <= c <= '9' then Some(c as int - '0' as int + 52)
    else if c == '-' then Some(62)
    else if c == '_' then Some(63)
    else None
  }

  function Encode(b: Bytes): (s: string)
    ensures forall c :: c in s ==> Index(c).Some?
  {
    if b == [] then ""
    else if |b| == 1 then [Char(b[0] / 4), Char(b[0] % 4 * 16)]
    else if |b| == 2 then [Char(b[0] / 4), Char(b[0] % 4 * 16 + b[1] / 16), Char(b[1] % 16 * 4)]
    else [Char(b[0] / 4), Char(b[0] % 4 * 16 + b[1] / 16), Char(b[1] % 16 * 4 + b[2] / 64), Char(b[2] % 64)] + Encode(b[3..])
  }

  /** Decoding skips line breaks, and like the library it does not insist that unused trailing bits are zero. */
  function Decode(s: string): Option<Bytes> {
    DecodeDigits(Unbroken(s))
  }

  function Unbroken(s: string): string {
    if s == "" then ""
    else if s[0] == '\r' || s[0] == '\n' then Unbroken(s[1..])
    else [s[0]] + Unbroken(s[1..])
  }

  function DecodeDigits(s: string): Option<Bytes> {
    if s == "" then Some([])
    else if |s| == 1 then None
    else
      match (Index(s[0]), Index(s[1]))
      case (Some(a), Some(b)) =>
        if |s| == 2 then Some([a * 4 + b / 16])
        else
          (match Index(s[2])
           case None => None
           case Some(c) =>
             if |s| == 3 then Some([a * 4 + b / 16, b % 16 * 16 + c / 4])
             else
               match (Index(s[3]), DecodeDigits(s[4..]))
               case (Some(d), Some(rest)) => Some([a * 4 + b / 16, b % 16 * 16 + c / 4, c % 4 * 64 + d] + rest)
               case _ => None)
      case _ => None
  }

  lemma {:induction false} UnbrokenIsWhole(s: string)
    requires forall c :: c in s ==> Index(c).Some?
    ensures Unbroken(s) == s
  {
    if s != "" {
      assert s[0] in s;
      UnbrokenIsWhole(s[1..]);
      assert s == [s[0]] + s[1..];
    }
  }

  lemma CharIndex(v: Digit)
    ensures Index(Char(v)) == Some(v)
  {
  }

  /** Three bytes are four digits and back; shorter tails use the same arithmetic with zeros. */
  lemma QuadRoundTrip(x: Byte, y: Byte, z: Byte)
    ensures x / 4 < 64 && x % 4 * 16 + y / 16 < 64 && y % 16 * 4 + z / 64 < 64
    ensures x / 4 * 4 + (x % 4 * 16 + y / 16) / 16 == x
    ensures (x % 4 * 16 + y / 16) % 16 * 16 + (y % 16 * 4 + z / 64) / 4 == y
    ensures (y % 16 * 4 + z / 64) % 4 * 64 + z % 64 == z
  {
  }

  /** One full group in front of digits that decode. */
  lemma GroupDecodes(a: Digit, b: Digit, c: Digit, d: Digit, s: string)
    requires DecodeDigits(s).Some?
    ensures DecodeDigits([Char(a), Char(b), Char(c), Char(d)] + s)
            == Some([a * 4 + b / 16, b % 16 * 16 + c / 4, c % 4 * 64 + d] + DecodeDigits(s).value)
  {
    CharIndex(a);
    CharIndex(b);
    CharIndex(c);
    CharIndex(d);
    assert ([Char(a), Char(b), Char(c), Char(d)] + s)[4..] == s;
    hide Char, Index;
  }

  lemma TailDecodes(a: Digit, b: Digit, c: Digit)
    ensures DecodeDigits([Char(a), Char(b)]) == Some([a * 4 + b / 16])
    ensures DecodeDigits([Char(a), Char(b), Char(c)]) == Some([a * 4 + b / 16, b % 16 * 16 + c / 4])
  {
    CharIndex(a);
    CharIndex(b);
    CharIndex(c);
    hide Char, Index;
  }

  lemma {:induction false} DigitsRoundTrip(b: Bytes)
    ensures DecodeDigits(Encode(b)) == Some(b)
  {
    hide DecodeDigits, Char, Index;
    if b == [] {
      assert DecodeDigits("") == Some([]) by { EmptyDecodes(); }
    } else {
      var x, y, z := b[0], if |b| > 1 then b[1] else 0, if |b| > 2 then b[2] else 0;
      QuadRoundTrip(x, y, z);
      if |b| == 1 {
        TailDecodes(x / 4, x % 4 * 16, 0);
        assert b == [x];
      } else if |b| == 2 {
        TailDecodes(x / 4, x % 4 * 16 + y / 16, y % 16 * 4);
        assert b == [x, y];
      } else {
        DigitsRoundTrip(b[3..]);
        GroupDecodes(x / 4, x % 4 * 16 + y / 16, y % 16 * 4 + z / 64, z % 64, Encode(b[3..]));
        assert b == [x, y, z] + b[3..];
      }
    }
  }

  lemma EmptyDecodes()
    ensures DecodeDigits("") == Some([])
  {
  }

  lemma RoundTrip(b: Bytes)
    ensures Decode(Encode(b)) == Some(b)
  {
    UnbrokenIsWhole(Encode(b));
    DigitsRoundTrip(b);
  }
}
