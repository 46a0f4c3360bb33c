/**
  What strings.TrimSpace, strings.Split and strconv.Atoi do, said without following how they do it.
 */
module TextProof {
  import opened Text

  // ---------------------------------------------------------------- white space

  /** The code points that unicode.IsSpace takes for white space. */
  predicate IsWhite(c: int) {
    || 9 <= c <= 13 || c == 32 || c == 0x85 || c == 0xA0 || c == 0x1680 || 0x2000 <= c <= 0x200A
    || c == 0x2028 || c == 0x2029 || c == 0x202F || c == 0x205F || c == 0x3000
  }

  /** The UTF-8 encoding of a code point below 0x10000 (section 3 of RFC 3629). */
  function Encoded(c: int): string
    requires 0 <= c < 0x10000
  {
    if c < 0x80 then [c as char]
    else if c < 0x800 then [(0xC0 + c / 64) as char, (0x80 + c % 64) as char]
    else [ (0xE0 + c / 4096) as char, (0x80 + c / 64 % 64) as char, (0x80 + c % 64) as char ]
  }

  /** The code point that three bytes encode. */
  function Decoded(a: int, b: int, c: int): int {
    (a - 0xE0) * 4096 + (b - 0x80) * 64 + (c - 0x80)
  }

  lemma WideIff(a: int, b: int, c: int)
    requires 0xE0 <= a < 0xF0 && 0x80 <= b < 0xC0 && 0x80 <= c < 0xC0
    ensures IsWideSpaceOf(a, b, c) <==> IsWhite(Decoded(a, b, c)) && Decoded(a, b, c) >= 0x800
  {
  }

  lemma DecodedBytes(c: int)
    requires 0x800 <= c < 0x10000
    ensures Decoded(0xE0 + c / 4096, 0x80 + c / 64 % 64, 0x80 + c % 64) == c
    ensures 0xE0 <= 0xE0 + c / 4096 < 0xF0 && 0x80 <= 0x80 + c / 64 % 64 < 0xC0
  {
  }

  lemma BytesDecoded(a: int, b: int, c: int)
    requires 0xE0 < a < 0xF0 && 0x80 <= b < 0xC0 && 0x80 <= c < 0xC0
    ensures var d := Decoded(a, b, c); 0x1000 <= d && d / 4096 == a - 0xE0 && d / 64 % 64 == b - 0x80 && d % 64 == c - 0x80
  {
  }

  lemma EncodedIsSpace(c: int)
    requires IsWhite(c)
    ensures IsSpaceCharacter(Encoded(c))
  {
    if c >= 0x800 {
      DecodedBytes(c);
      WideIff(0xE0 + c / 4096, 0x80 + c / 64 % 64, 0x80 + c % 64);
    }
  }

  lemma SpaceIsEncoded(s: string) returns (c: int)
    requires IsSpaceCharacter(s)
    ensures IsWhite(c) && s == Encoded(c)
  {
    if |s| == 1 {
      c := s[0] as int;
    } else if |s| == 2 {
      c := s[1] as int;
    } else {
      c := Decoded(s[0] as int, s[1] as int, s[2] as int);
      WideIff(s[0] as int, s[1] as int, s[2] as int);
      BytesDecoded(s[0] as int, s[1] as int, s[2] as int);
    }
  }

  /** The white space characters are the encodings of these code points. */
  lemma SpaceCharacterIff(s: string)
    ensures IsSpaceCharacter(s) <==> exists c :: IsWhite(c) && s == Encoded(c)
  {
    if IsSpaceCharacter(s) {
      var c := SpaceIsEncoded(s);
    }
    if c :| IsWhite(c) && s == Encoded(c) {
      EncodedIsSpace(c);
    }
  }

  predicate AllSpaces(parts: seq<string>) {
    forall i | 0 <= i < |parts| :: IsSpaceCharacter(parts[i])
  }

  /** Text that consists of white space characters. */
  ghost predicate IsBlank(s: string) {
    exists parts :: AllSpaces(parts) && s == Flat(parts)
  }

  function Flat(parts: seq<string>): string {
    if parts == [] then "" else parts[0] + Flat(parts[1..])
  }

  /** Text that does not start with a white space character, and does not end with one. */
  predicate IsTrimmed(s: string) {
    LeadingSpace(s) == 0 && TrailingSpace(s) == 0
  }

  // ---------------------------------------------------------------- strings.TrimSpace

  /** The first byte of a white space character tells how long it is. */
  lemma LeadingIs(c: string, r: string)
    requires IsSpaceCharacter(c)
    ensures LeadingSpace(c + r) == |c|
  {
    var s := c + r;
    assert s[..|c|] == c;
  }

  /** So do its last two bytes. */
  lemma TrailingIs(r: string, c: string)
    requires IsSpaceCharacter(c)
    ensures TrailingSpace(r + c) == |c|
  {
    var s := r + c;
    assert s[|r|..] == c;
  }

  lemma LeadingFits(s: string)
    ensures LeadingSpace(s) > 0 <==> exists c, r :: IsSpaceCharacter(c) && s == c + r
  {
    if LeadingSpace(s) > 0 {
      var n := LeadingSpace(s);
      assert IsSpaceCharacter(s[..n]) && s == s[..n] + s[n..];
    }
    if c, r :| IsSpaceCharacter(c) && s == c + r {
      LeadingIs(c, r);
    }
  }

  lemma TrailingFits(s: string)
    ensures TrailingSpace(s) > 0 <==> exists r, c :: IsSpaceCharacter(c) && s == r + c
  {
    if TrailingSpace(s) > 0 {
      var n := |s| - TrailingSpace(s);
      assert IsSpaceCharacter(s[n..]) && s == s[..n] + s[n..];
    }
    if r, c :| IsSpaceCharacter(c) && s == r + c {
      TrailingIs(r, c);
    }
  }

  lemma {:induction false} FlatPush(parts: seq<string>, c: string)
    ensures Flat(parts + [c]) == Flat(parts) + c
    decreases |parts|
  {
    if parts == [] {
      assert ([] + [c])[1..] == [];
    } else {
      assert (parts + [c])[1..] == parts[1..] + [c];
      FlatPush(parts[1..], c);
    }
  }

  lemma {:induction false} TrimLeftDrops(parts: seq<string>, t: string)
    requires AllSpaces(parts)
    ensures TrimLeft(Flat(parts) + t) == TrimLeft(t)
    decreases |parts|
  {
    if parts == [] {
      assert Flat(parts) + t == t;
    } else {
      var c, rest := parts[0], Flat(parts[1..]) + t;
      assert Flat(parts) + t == c + rest && (c + rest)[|c|..] == rest;
      LeadingIs(c, rest);
      TrimLeftDrops(parts[1..], t);
    }
  }

  lemma {:induction false} TrimRightDrops(t: string, parts: seq<string>)
    requires AllSpaces(parts)
    ensures TrimRight(t + Flat(parts)) == TrimRight(t)
    decreases |parts|
  {
    if parts == [] {
      assert t + Flat(parts) == t;
    } else {
      var n := |parts| - 1;
      var c, rest := parts[n], t + Flat(parts[..n]);
      assert parts == parts[..n] + [c];
      FlatPush(parts[..n], c);
      assert t + Flat(parts) == rest + c && (rest + c)[..|rest|] == rest;
      TrailingIs(rest, c);
      TrimRightDrops(t, parts[..n]);
    }
  }

  /** White space behind a text cannot complete a white space character at its start. */
  lemma StartsAlike(t: string, b: string)
    requires IsBlank(b) && t != "" && LeadingSpace(t) == 0
    ensures LeadingSpace(t + b) == 0
  {
    var parts :| AllSpaces(parts) && b == Flat(parts);
    if parts != [] {
      assert b[0] == parts[0][0];
    } else {
      assert t + b == t;
    }
  }

  lemma Regrouped(a: string, b: string, c: string)
    ensures a + b + c == a + (b + c)
  {
  }

  lemma TrimLeftBlank(a: string, t: string)
    requires IsBlank(a)
    ensures TrimLeft(a + t) == TrimLeft(t)
  {
    var parts :| AllSpaces(parts) && a == Flat(parts);
    TrimLeftDrops(parts, t);
  }

  lemma TrimRightBlank(t: string, b: string)
    requires IsBlank(b)
    ensures TrimRight(t + b) == TrimRight(t)
  {
    var parts :| AllSpaces(parts) && b == Flat(parts);
    TrimRightDrops(t, parts);
  }

  /** A text between white space, trimmed, is that text if it is trimmed itself. */
  lemma TrimBetween(a: string, t: string, b: string)
    requires IsBlank(a) && IsTrimmed(t) && IsBlank(b)
    ensures Trim(a + t + b) == t
  {
    Regrouped(a, t, b);
    TrimLeftBlank(a, t + b);
    if t == "" {
      assert t + b == b + "";
      TrimLeftBlank(b, "");
    } else {
      StartsAlike(t, b);
      TrimRightBlank(t, b);
    }
  }

  lemma BlankFront(c: string, b: string)
    requires IsSpaceCharacter(c) && IsBlank(b)
    ensures IsBlank(c + b)
  {
    var parts :| AllSpaces(parts) && b == Flat(parts);
    assert ([c] + parts)[1..] == parts && c + b == Flat([c] + parts);
  }

  lemma BlankBack(b: string, c: string)
    requires IsSpaceCharacter(c) && IsBlank(b)
    ensures IsBlank(b + c)
  {
    var parts :| AllSpaces(parts) && b == Flat(parts);
    FlatPush(parts, c);
    assert b + c == Flat(parts + [c]);
  }

  lemma NothingIsBlank()
    ensures IsBlank("")
  {
    assert Flat([]) == "";
  }

  lemma TrimLeftOnce(s: string, n: nat)
    requires n == LeadingSpace(s) > 0
    ensures TrimLeft(s) == TrimLeft(s[n..]) && IsSpaceCharacter(s[..n]) && s == s[..n] + s[n..]
  {
  }

  lemma TrimRightOnce(s: string, n: nat)
    requires TrailingSpace(s) > 0 && n == |s| - TrailingSpace(s)
    ensures TrimRight(s) == TrimRight(s[..n]) && IsSpaceCharacter(s[n..]) && s == s[..n] + s[n..]
  {
    TrailingPiece(s, n);
  }

  lemma TrailingPiece(s: string, n: nat)
    requires TrailingSpace(s) > 0 && n == |s| - TrailingSpace(s)
    ensures IsSpaceCharacter(s[n..]) && s == s[..n] + s[n..]
  {
  }

  lemma {:induction false} TrimLeftLeaves(s: string, t: string) returns (a: string)
    requires t == TrimLeft(s)
    ensures IsBlank(a) && s == a + t && LeadingSpace(t) == 0
    decreases |s|
  {
    NothingIsBlank();
    a := "";
    if LeadingSpace(s) > 0 {
      var n := LeadingSpace(s);
      TrimLeftOnce(s, n);
      a := TrimLeftLeaves(s[n..], t);
      BlankFront(s[..n], a);
      Regrouped(s[..n], a, t);
      a := s[..n] + a;
    }
  }

  lemma {:induction false} TrimRightLeaves(s: string, t: string) returns (b: string)
    requires t == TrimRight(s)
    ensures IsBlank(b) && s == t + b && TrailingSpace(t) == 0
    decreases |s|
  {
    NothingIsBlank();
    b := "";
    if TrailingSpace(s) > 0 {
      var n := |s| - TrailingSpace(s);
      TrimRightOnce(s, n);
      b := TrimRightLeaves(s[..n], t);
      BlankBack(b, s[n..]);
      Regrouped(t, b, s[n..]);
      b := b + s[n..];
    }
  }

  /** What starts a text starts what it is continued to. */
  lemma LeadingKept(t: string, b: string)
    requires LeadingSpace(t) > 0
    ensures LeadingSpace(t + b) > 0
  {
    var n := LeadingSpace(t);
    assert t + b == t[..n] + (t[n..] + b);
    LeadingIs(t[..n], t[n..] + b);
  }

  /** Trimming leaves a text that neither starts nor ends with white space, and drops white space only. */
  lemma TrimLeaves(s: string) returns (a: string, b: string)
    ensures IsBlank(a) && IsBlank(b) && s == a + Trim(s) + b && IsTrimmed(Trim(s))
  {
    a := TrimLeftLeaves(s, TrimLeft(s));
    b := TrimRightLeaves(TrimLeft(s), Trim(s));
    Regrouped(a, Trim(s), b);
    if LeadingSpace(Trim(s)) > 0 {
      LeadingKept(Trim(s), b);
    }
  }

  /** The trimmed text is the one that the text consists of, but for white space around it, and that is trimmed itself. */
  lemma TrimIff(s: string, t: string)
    ensures Trim(s) == t <==> IsTrimmed(t) && exists a, b :: IsBlank(a) && IsBlank(b) && s == a + t + b
  {
    var a, b := TrimLeaves(s);
    if IsTrimmed(t) && exists a, b :: IsBlank(a) && IsBlank(b) && s == a + t + b {
      var c, d :| IsBlank(c) && IsBlank(d) && s == c + t + d;
      TrimBetween(c, t, d);
    }
  }

  // ---------------------------------------------------------------- strings.Split

  /** The parts with a separator between each two. */
  function Joined(parts: seq<string>, sep: char): string
    requires parts != []
  {
    if |parts| == 1 then parts[0] else parts[0] + ([sep] + Joined(parts[1..], sep))
  }

  predicate Free(parts: seq<string>, sep: char) {
    forall i | 0 <= i < |parts| :: sep !in parts[i]
  }

  lemma {:induction false} SplitOne(s: string, sep: char)
    requires sep !in s
    ensures Split(s, sep) == [s]
    decreases |s|
  {
    if s != "" {
      SplitOne(s[1..], sep);
      assert [s[0]] + s[1..] == s;
    }
  }

  lemma {:induction false} SplitFirst(p: string, rest: string, sep: char)
    requires sep !in p
    ensures Split(p + ([sep] + rest), sep) == [p] + Split(rest, sep)
    decreases |p|
  {
    var s := p + ([sep] + rest);
    if p == "" {
      assert s == [sep] + rest && s[1..] == rest;
    } else {
      assert s[1..] == p[1..] + ([sep] + rest);
      SplitFirst(p[1..], rest, sep);
      assert [p[0]] + p[1..] == p;
    }
  }

  lemma {:induction false} SplitJoined(parts: seq<string>, sep: char)
    requires parts != [] && Free(parts, sep)
    ensures Split(Joined(parts, sep), sep) == parts
    decreases |parts|
  {
    if |parts| == 1 {
      SplitOne(parts[0], sep);
    } else {
      SplitFirst(parts[0], Joined(parts[1..], sep), sep);
      SplitJoined(parts[1..], sep);
    }
  }

  lemma {:induction false} JoinedSplit(s: string, sep: char)
    ensures Free(Split(s, sep), sep) && Joined(Split(s, sep), sep) == s
    decreases |s|
  {
    if s != "" {
      var rest := Split(s[1..], sep);
      JoinedSplit(s[1..], sep);
      if s[0] == sep {
        assert ([""] + rest)[1..] == rest;
        assert "" + ([sep] + s[1..]) == s;
      } else {
        var parts := [[s[0]] + rest[0]] + rest[1..];
        assert parts[1..] == rest[1..];
        if |rest| > 1 {
          assert [s[0]] + rest[0] + ([sep] + Joined(rest[1..], sep)) == [s[0]] + (rest[0] + ([sep] + Joined(rest[1..], sep)));
        }
        assert [s[0]] + s[1..] == s;
      }
    }
  }

  /** The parts a text splits into are those without a separator that give the text when joined. */
  lemma SplitIff(s: string, sep: char, parts: seq<string>)
    ensures Split(s, sep) == parts <==> parts != [] && Free(parts, sep) && s == Joined(parts, sep)
  {
    JoinedSplit(s, sep);
    if parts != [] && Free(parts, sep) && s == Joined(parts, sep) {
      SplitJoined(parts, sep);
    }
  }

  // ---------------------------------------------------------------- strconv.Atoi

  function Power(n: nat): nat {
    if n == 0 then 1 else 10 * Power(n - 1)
  }

  /** The sum of the digits, each times the power of ten of its place. */
  function PlaceValue(digits: string): int {
    if digits == "" then 0
    else (digits[0] as int - '0' as int) * Power(|digits| - 1) + PlaceValue(digits[1..])
  }

  lemma {:induction false} PlaceValuePush(digits: string, d: char)
    ensures PlaceValue(digits + [d]) == PlaceValue(digits) * 10 + (d as int - '0' as int)
    decreases |digits|
  {
    if digits == "" {
      assert (digits + [d])[1..] == "" && Power(0) == 1;
    } else {
      var k := digits[0] as int - '0' as int;
      assert (digits + [d])[1..] == digits[1..] + [d];
      PlaceValuePush(digits[1..], d);
      assert k * Power(|digits|) == k * Power(|digits| - 1) * 10;
    }
  }

  lemma {:induction false} DigitsValueIs(digits: string)
    ensures DigitsValue(digits) == PlaceValue(digits)
    decreases |digits|
  {
    if digits != "" {
      var n := |digits| - 1;
      DigitsValueIs(digits[..n]);
      PlaceValuePush(digits[..n], digits[n]);
      assert digits[..n] + [digits[n]] == digits;
    }
  }

  predicate IsSign(sign: string) {
    sign == "" || sign == "+" || sign == "-"
  }

  function Signed(sign: string, n: int): int {
    if sign == "-" then -n else n
  }

  lemma AtoiParts(s: string, n: int) returns (sign: string, digits: string)
    requires Atoi(s) == Some(n)
    ensures IsSign(sign) && IsNumeral(digits) && s == sign + digits && n == Signed(sign, PlaceValue(digits))
  {
    if s[0] == '-' || s[0] == '+' {
      sign, digits := if s[0] == '-' then "-" else "+", s[1..];
      assert s == [s[0]] + digits;
    } else {
      sign, digits := "", s;
    }
    DigitsValueIs(digits);
  }

  lemma AtoiOf(s: string, sign: string, digits: string)
    requires IsSign(sign) && IsNumeral(digits) && s == sign + digits
    ensures var n := Signed(sign, PlaceValue(digits)); Atoi(s) == if INT_MIN <= n <= INT_MAX then Some(n) else None
  {
    DigitsValueIs(digits);
    if sign == "" {
      assert s == digits && IsDigit(s[0]);
    } else {
      assert s[0] == sign[0] && s[1..] == digits;
    }
  }

  /** A number is read exactly from a sign or none and digits, if it fits 64 bits. */
  lemma AtoiIff(s: string, n: int)
    ensures Atoi(s) == Some(n) <==>
            INT_MIN <= n <= INT_MAX &&
            exists sign, digits :: IsSign(sign) && IsNumeral(digits) && s == sign + digits && n == Signed(sign, PlaceValue(digits))
  {
    if Atoi(s) == Some(n) {
      var sign, digits := AtoiParts(s, n);
    }
    if sign, digits :| IsSign(sign) && IsNumeral(digits) && s == sign + digits && n == Signed(sign, PlaceValue(digits)) {
      AtoiOf(s, sign, digits);
    }
  }
}
