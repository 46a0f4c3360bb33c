/** Searching in strings of bytes; one char stands for one byte. */
module Text {

  /** pat occurs in s at position i. */
  predicate At(s: string, pat: string, i: int) {
    0 <= i && i + |pat| <= |s| && forall k | 0 <= k < |pat| :: s[i + k] == pat[k]
  }

  /** The first occurrence of pat in s at or after from, or -1: strings.Index on a suffix. */
  function IndexFrom(s: string, pat: string, from: nat): (r: int)
    ensures r == -1 || (from <= r && At(s, pat, r))
    ensures forall i :: from <= i && At(s, pat, i) ==> r != -1 && r <= i
    decreases |s| - from
  {
    if from + |pat| > |s| then -1
    else if At(s, pat, from) then from
    else IndexFrom(s, pat, from + 1)
  }

  /** strings.Index */
  function Index(s: string, pat: string): (r: int)
    ensures r == -1 || At(s, pat, r)
    ensures forall i :: At(s, pat, i) ==> r != -1 && r <= i
  {
    IndexFrom(s, pat, 0)
  }

  /** An occurrence at i in a suffix is one at off + i in the whole. */
  lemma AtSuffix(s: string, pat: string, off: nat, i: int)
    requires off <= |s| && 0 <= i
    ensures At(s[off..], pat, i) <==> At(s, pat, off + i)
  {
    if At(s, pat, off + i) {
      forall k | 0 <= k < |pat|
        ensures s[off..][i + k] == pat[k]
      {
        assert s[off + i + k] == pat[k];
      }
    } else if At(s[off..], pat, i) {
      forall k | 0 <= k < |pat|
        ensures s[off + i + k] == pat[k]
      {
        assert s[off..][i + k] == pat[k];
      }
    }
  }

  /** What is appended does not change the occurrences that end before it. */
  lemma AtPrefix(s: string, t: string, pat: string, i: int)
    requires i + |pat| <= |s|
    ensures At(s, pat, i) <==> At(s + t, pat, i)
  {
    if 0 <= i && At(s + t, pat, i) {
      forall k | 0 <= k < |pat|
        ensures s[i + k] == pat[k]
      {
        assert (s + t)[i + k] == pat[k];
      }
    }
  }

  /** An occurrence inside a slice is one in the whole. */
  lemma AtSlice(s: string, lo: int, hi: int, pat: string, i: int)
    requires 0 <= lo <= i && i + |pat| <= hi <= |s|
    ensures At(s[lo..hi], pat, i - lo) <==> At(s, pat, i)
  {
    AtPrefix(s[..hi], s[hi..], pat, i);
    assert s[..hi] + s[hi..] == s;
    AtSuffix(s[..hi], pat, lo, i - lo);
    assert s[..hi][lo..] == s[lo..hi];
  }

  /** Searching a suffix finds what searching the whole finds, when nothing occurs in between. */
  lemma IndexOfSuffix(s: string, pat: string, off: nat, from: nat)
    requires off <= |s| && off <= from
    requires forall i | off <= i < from :: !At(s, pat, i)
    ensures Index(s[off..], pat) == if IndexFrom(s, pat, from) == -1 then -1 else IndexFrom(s, pat, from) - off
  {
    var k, e := Index(s[off..], pat), IndexFrom(s, pat, from);
    if k != -1 {
      AtSuffix(s, pat, off, k);
    }
    if e != -1 {
      AtSuffix(s, pat, off, e - off);
    }
  }

  /** The last n bytes of s, or all of them. */
  function LastBytes(s: string, n: nat): string {
    if |s| > n then s[|s| - n..] else s
  }

  /** unicode.IsSpace on one byte taken for a character. */
  predicate IsSpace(c: char) {
    c == ' ' || '\t' <= c <= '\r' || c == 0x85 as char || c == 0xA0 as char
  }

  /** The text from the first byte on that is not taken for white space. */
  function DropSpace(s: string): (r: string)
    ensures r == "" || !IsSpace(r[0])
    ensures |r| <= |s|
  {
    if s != "" && IsSpace(s[0]) then DropSpace(s[1..]) else s
  }

  /** The UTF-8 encodings of white space beyond ASCII: U+0085 and U+00A0; U+1680, U+2000 to U+200A, U+2028, U+2029, U+202F, U+205F and U+3000. */
  predicate IsWideSpace(s: string) {
    || (|s| == 2 && s[0] == 0xC2 as char && (s[1] == 0x85 as char || s[1] == 0xA0 as char))
    || (|s| == 3 && IsWideSpaceOf(s[0] as int, s[1] as int, s[2] as int))
  }

  predicate IsWideSpaceOf(a: int, b: int, c: int) {
    || (a == 0xE1 && b == 0x9A && c == 0x80) || (a == 0xE3 && b == 0x80 && c == 0x80) || (a == 0xE2 && b == 0x81 && c == 0x9F)
    || (a == 0xE2 && b == 0x80 && (0x80 <= c <= 0x8A || c == 0xA8 || c == 0xA9 || c == 0xAF))
  }

  /** s is one character of white space. */
  predicate IsSpaceCharacter(s: string) {
    (|s| == 1 && (s[0] == ' ' || '\t' <= s[0] <= '\r')) || IsWideSpace(s)
  }

  /** The length of the white space character that s starts with, or 0. */
  function LeadingSpace(s: string): (n: nat)
    ensures n <= |s|
  {
    if |s| >= 1 && IsSpaceCharacter(s[..1]) then 1
    else if |s| >= 2 && IsSpaceCharacter(s[..2]) then 2
    else if |s| >= 3 && IsSpaceCharacter(s[..3]) then 3
    else 0
  }

  function TrailingSpace(s: string): (n: nat)
    ensures n <= |s|
  {
    if |s| >= 1 && IsSpaceCharacter(s[|s| - 1..]) then 1
    else if |s| >= 2 && IsSpaceCharacter(s[|s| - 2..]) then 2
    else if |s| >= 3 && IsSpaceCharacter(s[|s| - 3..]) then 3
    else 0
  }

  function TrimLeft(s: string): string {
    if LeadingSpace(s) > 0 then TrimLeft(s[LeadingSpace(s)..]) else s
  }

  function TrimRight(s: string): string {
    if TrailingSpace(s) > 0 then TrimRight(s[..|s| - TrailingSpace(s)]) else s
  }

  /** strings.TrimSpace, on text in UTF-8. */
  function Trim(s: string): string {
    TrimRight(TrimLeft(s))
  }

  /** strings.Split on a one-character separator. */
  function Split(s: string, sep: char): (r: seq<string>)
    ensures r != []
    decreases |s|
  {
    if s == "" then [""]
    else
      var rest := Split(s[1..], sep);
      if s[0] == sep then [""] + rest else [[s[0]] + rest[0]] + rest[1..]
  }

  predicate IsDigit(c: char) {
    '0' <= c <= '9'
  }

  function DigitsValue(s: string): int {
    if s == "" then 0 else DigitsValue(s[..|s| - 1]) * 10 + (s[|s| - 1] as int - '0' as int)
  }

  datatype Option<T> = None | Some(value: T)

  const INT_MIN: int := -0x8000_0000_0000_0000
  const INT_MAX: int := 0x7FFF_FFFF_FFFF_FFFF

  predicate IsNumeral(s: string) {
    s != "" && forall i | 0 <= i < |s| :: IsDigit(s[i])
  }

  /** s without its sign, if it has one. */
  function Unsigned(s: string): string {
    if s != "" && (s[0] == '-' || s[0] == '+') then s[1..] else s
  }

  /** strconv.Atoi, where int has 64 bits. */
  function Atoi(s: string): Option<int> {
    if !IsNumeral(Unsigned(s)) then None
    else
      var n := if s[0] == '-' then -DigitsValue(Unsigned(s)) else DigitsValue(Unsigned(s));
      if INT_MIN <= n <= INT_MAX then Some(n) else None
  }
}
