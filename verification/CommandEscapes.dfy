/**
  What a backslash and white space mean to the command parser (process/command_parser.go:15-84), said
  without following its scans: a character is escaped if an odd number of backslashes stands right in
  front of it.
 */
module CommandEscapes {
  import opened CommandParser
  import opened Text
  import opened TextProof

  /** How many backslashes stand right in front of position k, from position o on. */
  function Backslashes(s: string, o: nat, k: nat): nat
    requires o <= k <= |s|
    decreases k
  {
    if k > o && s[k - 1] == '\\' then Backslashes(s, o, k - 1) + 1 else 0
  }

  predicate Escaped(s: string, o: nat, k: nat)
    requires o <= k <= |s|
  {
    Backslashes(s, o, k) % 2 == 1
  }

  /** A character other than a backslash in front does not count. */
  lemma {:induction false} BehindOther(s: string, o: nat, k: nat)
    requires o < k <= |s| && s[o] != '\\'
    ensures Backslashes(s, o, k) == Backslashes(s, o + 1, k)
    decreases k
  {
    if k > o + 1 && s[k - 1] == '\\' {
      BehindOther(s, o, k - 1);
    }
  }

  /** A backslash in front and the character behind it do not change what is escaped later. */
  lemma {:induction false} BehindPair(s: string, o: nat, k: nat)
    requires o + 2 <= k <= |s| && s[o] == '\\'
    ensures Escaped(s, o, k) <==> Escaped(s, o + 2, k)
    decreases k
  {
    if s[k - 1] == '\\' {
      if k > o + 2 {
        BehindPair(s, o, k - 1);
      } else {
        assert Backslashes(s, o, k) == Backslashes(s, o, o + 1) + 1 && Backslashes(s, o, o + 1) == Backslashes(s, o, o) + 1;
      }
    }
  }

  // ---------------------------------------------------------------- findChar

  /** The first unescaped ch from position o on is at k. */
  predicate FirstUnescaped(s: string, o: nat, ch: char, k: int) {
    o <= k < |s| && s[k] == ch && !Escaped(s, o, k) && forall j | o <= j < k && s[j] == ch :: Escaped(s, o, j)
  }

  predicate NoneUnescaped(s: string, o: nat, ch: char) {
    forall j | o <= j < |s| && s[j] == ch :: Escaped(s, o, j)
  }

  lemma {:induction false} FindMeans(s: string, o: nat, ch: char)
    requires ch != '\\'
    ensures if Find(s, o, ch) == -1 then NoneUnescaped(s, o, ch) else FirstUnescaped(s, o, ch, Find(s, o, ch))
    decreases |s| - o
  {
    if o < |s| {
      if s[o] == '\\' {
        FindMeans(s, o + 2, ch);
        assert o + 1 < |s| ==> Backslashes(s, o, o + 1) == Backslashes(s, o, o) + 1;
        forall j | o + 2 <= j < |s|
          ensures Escaped(s, o, j) <==> Escaped(s, o + 2, j)
        {
          BehindPair(s, o, j);
        }
      } else if s[o] != ch {
        FindMeans(s, o + 1, ch);
        forall j | o < j < |s|
          ensures Escaped(s, o, j) <==> Escaped(s, o + 1, j)
        {
          BehindOther(s, o, j);
        }
      }
    }
  }

  /** findChar finds the first character that is not escaped, and nothing if there is none. */
  lemma FindIff(s: string, o: nat, ch: char, k: nat)
    requires ch != '\\'
    ensures Find(s, o, ch) == k <==> FirstUnescaped(s, o, ch, k)
    ensures Find(s, o, ch) == -1 <==> NoneUnescaped(s, o, ch)
  {
    FindMeans(s, o, ch);
  }

  // ---------------------------------------------------------------- where an argument ends

  predicate IsStop(c: char) {
    IsSpace(c) || IsQuote(c)
  }

  /** The first white space or quote that is not escaped, or the end. */
  predicate FirstStop(s: string, j: nat, p: nat) {
    && j <= p <= |s| && (p < |s| ==> IsStop(s[p]) && !Escaped(s, j, p))
    && forall i | j <= i < p && IsStop(s[i]) :: Escaped(s, j, i)
  }

  /** How the argument ends whose first stop is at p. */
  function EndAt(s: string, j: nat, p: nat): (nat, Ending)
    requires j <= p <= |s|
  {
    if p == |s| then (|s|, if Escaped(s, j, p) then Open else Plain)
    else if IsSpace(s[p]) then (p, Plain)
    else if NoneUnescaped(s, p + 1, s[p]) then (|s|, Open)
    else (Find(s, p + 1, s[p]) + 1, Quoted)
  }

  lemma StopBehindOther(s: string, j: nat, p: nat)
    requires FirstStop(s, j, p) && j < |s| && !IsStop(s[j]) && s[j] != '\\'
    ensures FirstStop(s, j + 1, p) && EndAt(s, j, p) == EndAt(s, j + 1, p)
  {
    forall i | j < i <= |s|
      ensures Escaped(s, j, i) <==> Escaped(s, j + 1, i)
    {
      BehindOther(s, j, i);
    }
  }

  lemma StopBehindPair(s: string, j: nat, p: nat)
    requires FirstStop(s, j, p) && j + 2 <= |s| && s[j] == '\\'
    ensures FirstStop(s, j + 2, p) && EndAt(s, j, p) == EndAt(s, j + 2, p)
  {
    assert Backslashes(s, j, j + 1) == Backslashes(s, j, j) + 1;
    forall i | j + 2 <= i <= |s|
      ensures Escaped(s, j, i) <==> Escaped(s, j + 2, i)
    {
      BehindPair(s, j, i);
    }
  }

  /** Where and how an argument ends is decided by the first white space or quote that is not escaped. */
  lemma {:induction false} ArgMeans(s: string, j: nat, p: nat)
    requires FirstStop(s, j, p)
    ensures Arg(s, j) == EndAt(s, j, p)
    decreases |s| - j
  {
    if j < |s| && !IsStop(s[j]) {
      if s[j] != '\\' {
        StopBehindOther(s, j, p);
        ArgMeans(s, j + 1, p);
      } else if j + 2 <= |s| {
        StopBehindPair(s, j, p);
        ArgMeans(s, j + 2, p);
      } else {
        assert Backslashes(s, j, j + 1) == Backslashes(s, j, j) + 1;
      }
    } else if p < |s| && IsQuote(s[p]) {
      FindMeans(s, p + 1, s[p]);
    }
  }

  lemma {:induction false} SomeStop(s: string, j: nat, p: nat) returns (q: nat)
    requires j <= p <= |s| && forall i | j <= i < p && IsStop(s[i]) :: Escaped(s, j, i)
    ensures FirstStop(s, j, q)
    decreases |s| - p
  {
    if p == |s| || (IsStop(s[p]) && !Escaped(s, j, p)) {
      q := p;
    } else {
      q := SomeStop(s, j, p + 1);
    }
  }

  /** A command without leading white space starts with an argument up to that place. */
  lemma FirstArgument(s: string) returns (p: nat)
    requires s != "" && !IsSpace(s[0])
    ensures FirstStop(s, 0, p) && EndAt(s, 0, p).0 <= |s|
    ensures Words(s) == [s[..EndAt(s, 0, p).0]] + Words(s[EndAt(s, 0, p).0..])
  {
    p := SomeStop(s, 0, 0);
    ArgMeans(s, 0, p);
  }

  /** The white space of a single byte is that of the code points below 256. */
  lemma SpaceIff(c: char)
    requires c < 256 as char
    ensures IsSpace(c) <==> IsWhite(c as int)
  {
  }
}
