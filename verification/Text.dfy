/** Text as Unicode characters: its length in UTF-8, and what counts as white space. */
module Text {
  /** Bytes of a character in UTF-8 (section 3 of RFC 3629). */
  function Width(c: char): (n: nat)
    ensures 1 <= n <= 4
  {
    if c < '\U{80}' then 1 else if c < '\U{800}' then 2 else if c < '\U{10000}' then 3 else 4
  }

  /** `len(s)`, which counts bytes. */
  function Size(s: string): (n: nat)
    ensures |s| <= n <= 4 * |s|
  {
    if s == "" then 0 else Size(s[..|s| - 1]) + Width(s[|s| - 1])
  }

  /** White space as Unicode defines it. */
  predicate White(c: char) {
    || '\t' <= c <= '\r' || c in " \U{85}\U{A0}\U{1680}\U{2028}\U{2029}\U{202F}\U{205F}\U{3000}"
    || '\U{2000}' <= c <= '\U{200A}'
  }

  /** `strings.TrimSpace(s) == ""` */
  predicate Blank(s: string) {
    forall c :: c in s ==> White(c)
  }
}
