/** Splitting a command line into arguments (process/command_parser.go:15-84). */
module CommandParser {
  import opened Text

  // ---------------------------------------------------------------- what an argument is

  predicate IsQuote(c: char) {
    c == '"' || c == '\''
  }

  /** The first unescaped ch of s from position o on, or -1. */
  function Find(s: string, o: nat, ch: char): (k: int)
    ensures k == -1 || o <= k < |s|
    decreases |s| - o
  {
    if o >= |s| then -1
    else if s[o] == '\\' then Find(s, o + 2, ch)
    else if s[o] == ch then o
    else Find(s, o + 1, ch)
  }

  /** Closed arguments end at white space, at the end of the command or with a quoted part. */
  datatype Ending = Plain | Quoted | Open

  /** Where an argument at the start of s ends, when it has been read up to j, and how. */
  function Arg(s: string, j: nat): (r: (nat, Ending))
    ensures r.0 <= |s| && (r.1 == Open ==> r.0 == |s|) && (j <= |s| ==> j <= r.0)
    ensures r.1 == Quoted ==> 0 < r.0
    decreases |s| - j
  {
    if j > |s| then (|s|, Open)
    else if j == |s| || IsSpace(s[j]) then (j, Plain)
    else if s[j] == '\\' then Arg(s, j + 2)
    else if IsQuote(s[j]) then
      var k := Find(s, j + 1, s[j]);
      if k == -1 then (|s|, Open) else (k + 1, Quoted)
    else Arg(s, j + 1)
  }

  predicate IsBlank(s: string) {
    forall i | 0 <= i < |s| :: IsSpace(s[i])
  }

  /** w is one whole argument. */
  predicate IsWord(w: string) {
    w != "" && !IsSpace(w[0]) && Arg(w, 0).0 == |w|
  }

  function Ends(w: string): Ending {
    Arg(w, 0).1
  }

  /** The arguments of a command, as written. */
  function Words(s: string): seq<string>
    decreases |s|
  {
    var u := DropSpace(s);
    if u == "" then []
    else
      ArgAdvances(u);
      [u[..Arg(u, 0).0]] + Words(u[Arg(u, 0).0..])
  }

  lemma ArgAdvances(u: string)
    requires u != "" && !IsSpace(u[0])
    ensures Arg(u, 0).0 > 0
  {
  }

  // ---------------------------------------------------------------- locality

  lemma {:induction false} FindGrows(s: string, t: string, o: nat, ch: char)
    requires Find(s, o, ch) != -1
    ensures Find(s + t, o, ch) == Find(s, o, ch)
    decreases |s| - o
  {
    if s[o] == '\\' {
      FindGrows(s, t, o + 2, ch);
    } else if s[o] != ch {
      FindGrows(s, t, o + 1, ch);
    }
  }

  lemma {:induction false} FindShrinks(s: string, e: nat, o: nat, ch: char)
    requires e <= |s| && -1 < Find(s, o, ch) < e
    ensures Find(s[..e], o, ch) == Find(s, o, ch)
    decreases |s| - o
  {
    if s[o] == '\\' {
      FindShrinks(s, e, o + 2, ch);
    } else if s[o] != ch {
      FindShrinks(s, e, o + 1, ch);
    }
  }

  /** May t follow directly on an argument that ends in this way? */
  predicate MayFollow(how: Ending, t: string) {
    match how
    case Plain => t == "" || IsSpace(t[0])
    case Quoted => true
    case Open => t == ""
  }

  /** An argument is read the same way in front of anything that may follow it. */
  lemma {:induction false} ArgGrows(w: string, t: string, j: nat)
    requires Arg(w, j).0 == |w| && MayFollow(Arg(w, j).1, t)
    ensures Arg(w + t, j) == Arg(w, j)
    decreases |w| - j
  {
    if t == "" {
      assert w + t == w;
    } else if j < |w| {
      if IsQuote(w[j]) {
        FindGrows(w, t, j + 1, w[j]);
      } else if w[j] == '\\' {
        ArgGrows(w, t, j + 2);
      } else {
        ArgGrows(w, t, j + 1);
      }
    }
  }

  /** Cut off where it ends, an argument is read the same way, and what is left may follow it. */
  lemma {:induction false} ArgShrinks(s: string, j: nat)
    ensures Arg(s[..Arg(s, j).0], j) == Arg(s, j)
    ensures MayFollow(Arg(s, j).1, s[Arg(s, j).0..])
    decreases |s| - j
  {
    var e := Arg(s, j).0;
    if Arg(s, j).1 == Open {
      assert s[..e] == s;
    } else if j < |s| && !IsSpace(s[j]) {
      if s[j] == '\\' {
        ArgShrinks(s, j + 2);
      } else if IsQuote(s[j]) {
        FindShrinks(s, e, j + 1, s[j]);
      } else {
        ArgShrinks(s, j + 1);
      }
    }
  }

  // ---------------------------------------------------------------- the grammar

  /** Text put together from arguments and the white space in front of, between and behind them. */
  function Weave(gaps: seq<string>, words: seq<string>): string
    requires |gaps| == |words| + 1
  {
    if words == [] then gaps[0] else gaps[0] + (words[0] + Weave(gaps[1..], words[1..]))
  }

  /** White space may be missing only behind a quoted argument, and only the last argument may be left open. */
  predicate Separated(gaps: seq<string>, words: seq<string>)
    requires |gaps| == |words| + 1
  {
    && (forall i | 0 <= i < |gaps| :: IsBlank(gaps[i]))
    && (forall i | 0 <= i < |words| :: IsWord(words[i]) && MayFollow(Ends(words[i]), Weave(gaps[i + 1..], words[i + 1..])))
  }

  lemma {:induction false} DropSpaceBlank(g: string, t: string)
    requires IsBlank(g) && (t == "" || !IsSpace(t[0]))
    ensures DropSpace(g + t) == t
    decreases |g|
  {
    if g == "" {
      assert g + t == t;
    } else {
      assert (g + t)[1..] == g[1..] + t;
      DropSpaceBlank(g[1..], t);
    }
  }

  lemma {:induction false} LeadingBlank(s: string) returns (gap: string)
    ensures IsBlank(gap) && s == gap + DropSpace(s)
    decreases |s|
  {
    gap := "";
    if s != "" && IsSpace(s[0]) {
      var more := LeadingBlank(s[1..]);
      gap := [s[0]] + more;
      assert s == [s[0]] + s[1..];
    }
  }

  /** Any text put together from arguments in this way splits into just these. */
  lemma {:induction false} WeaveSplits(gaps: seq<string>, words: seq<string>)
    requires |gaps| == |words| + 1 && Separated(gaps, words)
    ensures Words(Weave(gaps, words)) == words
    decreases |words|
  {
    if words == [] {
      DropSpaceBlank(gaps[0], "");
      assert gaps[0] + "" == gaps[0];
    } else {
      var w, rest := words[0], Weave(gaps[1..], words[1..]);
      DropSpaceBlank(gaps[0], w + rest);
      ArgGrows(w, rest, 0);
      SeparatedTail(gaps, words);
      WeaveSplits(gaps[1..], words[1..]);
      assert (w + rest)[|w|..] == rest;
    }
  }

  lemma SeparatedTail(gaps: seq<string>, words: seq<string>)
    requires |gaps| == |words| + 1 && Separated(gaps, words) && words != []
    ensures Separated(gaps[1..], words[1..])
  {
    forall i | 0 <= i < |words| - 1
      ensures MayFollow(Ends(words[1..][i]), Weave(gaps[1..][i + 1..], words[1..][i + 1..]))
    {
      assert gaps[1..][i + 1..] == gaps[i + 2..] && words[1..][i + 1..] == words[i + 2..];
    }
  }

  lemma SeparatedCons(g: string, w: string, gaps: seq<string>, words: seq<string>)
    requires |gaps| == |words| + 1 && Separated(gaps, words)
    requires IsBlank(g) && IsWord(w) && MayFollow(Ends(w), Weave(gaps, words))
    ensures Separated([g] + gaps, [w] + words)
    ensures Weave([g] + gaps, [w] + words) == g + (w + Weave(gaps, words))
  {
    var gs, ws := [g] + gaps, [w] + words;
    assert gs[1..] == gaps && ws[1..] == words;
    forall i | 0 <= i < |ws|
      ensures IsWord(ws[i]) && MayFollow(Ends(ws[i]), Weave(gs[i + 1..], ws[i + 1..]))
    {
      if i > 0 {
        assert gs[i + 1..] == gaps[i..] && ws[i + 1..] == words[i..];
      }
    }
  }

  /** Every command is put together in this way from its arguments: only white space is left out. */
  lemma {:induction false} SplitWeaves(s: string) returns (gaps: seq<string>)
    ensures |gaps| == |Words(s)| + 1 && Separated(gaps, Words(s)) && Weave(gaps, Words(s)) == s
    decreases |s|
  {
    var u := DropSpace(s);
    var gap := LeadingBlank(s);
    if u == "" {
      gaps := [s];
    } else {
      ArgAdvances(u);
      var e := Arg(u, 0).0;
      var more := SplitWeaves(u[e..]);
      ArgShrinks(u, 0);
      FirstWord(u, e);
      SeparatedCons(gap, u[..e], more, Words(u[e..]));
      gaps := [gap] + more;
    }
  }

  lemma FirstWord(u: string, e: nat)
    requires u != "" && !IsSpace(u[0]) && e == Arg(u, 0).0 > 0 && Arg(u[..e], 0) == Arg(u, 0)
    ensures IsWord(u[..e]) && Ends(u[..e]) == Arg(u, 0).1 && u[..e] + u[e..] == u
  {
  }

  /** A command has these arguments if and only if it is these arguments, properly set off by white space. */
  lemma SplitsIff(s: string, words: seq<string>)
    ensures Words(s) == words <==>
            exists gaps :: |gaps| == |words| + 1 && Separated(gaps, words) && Weave(gaps, words) == s
  {
    if Words(s) == words {
      var gaps := SplitWeaves(s);
    }
    if gaps :| |gaps| == |words| + 1 && Separated(gaps, words) && Weave(gaps, words) == s {
      WeaveSplits(gaps, words);
    }
  }

  // ---------------------------------------------------------------- the parser

  /** Failed: no argument; Panics: a slice with its end before its start. */
  datatype Parsed = Args(args: seq<string>) | Failed | Panics

  /** Dropping the quotes of an argument that starts with one; the last byte goes even if it is no quote. */
  function Strip(w: string): string
    requires w != "" && !LoneQuote(w)
  {
    if IsQuote(w[0]) then w[1..|w| - 1] else w
  }

  predicate LoneQuote(w: string) {
    |w| == 1 && IsQuote(w[0])
  }

  predicate Strippable(words: seq<string>) {
    forall i | 0 <= i < |words| :: words[i] != "" && !LoneQuote(words[i])
  }

  function StripAll(words: seq<string>): seq<string>
    requires Strippable(words)
  {
    seq(|words|, i requires 0 <= i < |words| => Strip(words[i]))
  }

  /** What parsing a command gives. */
  function Parsing(s: string): Parsed {
    var words := Words(s);
    if !Strippable(words) then Panics
    else if words == [] then Failed
    else Args(StripAll(words))
  }

  method FindChar(s: string, offset: nat, ch: char) returns (k: int)
    ensures k == Find(s, offset, ch)
  {
    var i := offset;
    while i < |s|
      invariant Find(s, i, ch) == Find(s, offset, ch)
    {
      if s[i] == '\\' {
        i := i + 1;
      } else if s[i] == ch {
        return i;
      }
      i := i + 1;
    }
    return -1;
  }

  /** The first position from offset on that is not white space, or -1. */
  method SkipSpace(s: string, offset: nat) returns (k: int)
    requires offset <= |s|
    ensures if DropSpace(s[offset..]) == "" then k == -1 else offset <= k < |s| && DropSpace(s[offset..]) == s[k..]
  {
    var i := offset;
    while i < |s|
      invariant offset <= i <= |s| && DropSpace(s[offset..]) == DropSpace(s[i..])
    {
      if !IsSpace(s[i]) {
        return i;
      }
      assert s[i..][1..] == s[i + 1..];
      i := i + 1;
    }
    return -1;
  }

  method AppendArgument(arg: string, args: seq<string>) returns (ok: bool, r: seq<string>)
    requires arg != ""
    ensures ok <==> !LoneQuote(arg)
    ensures ok ==> r == args + [Strip(arg)]
  {
    if arg[0] == '"' || arg[0] == '\'' {
      if |arg| == 1 {
        return false, args;
      }
      return true, args + [arg[1..|arg| - 1]];
    }
    return true, args + [arg];
  }

  /** The inner loop: where the argument that starts at i ends, and where the search goes on. */
  method ArgumentEnd(command: string, i: nat) returns (e: nat, next: nat)
    requires i < |command| && !IsSpace(command[i])
    ensures i < e <= next <= |command|
    ensures e == i + Arg(command[i..], 0).0
    ensures next == e || (next == e + 1 && IsSpace(command[e]))
  {
    var u := command[i..];
    ArgAdvances(u);
    var j := i;
    while j < |command|
      invariant i <= j && Arg(u, j - i) == Arg(u, 0)
    {
      if IsSpace(command[j]) {
        return j, j + 1;
      } else if command[j] == '\\' {
        j := j + 1;
      } else if command[j] == '"' || command[j] == '\'' {
        var k := FindChar(command, j + 1, command[j]);
        FindInSuffix(command, i, j + 1, command[j]);
        if k == -1 {
          return |command|, |command|;
        } else {
          return k + 1, k + 1;
        }
      }
      j := j + 1;
    }
    return |command|, |command|;
  }

  lemma {:induction false} FindInSuffix(s: string, i: nat, o: nat, ch: char)
    requires i <= |s| && i <= o
    ensures Find(s, o, ch) == if Find(s[i..], o - i, ch) == -1 then -1 else Find(s[i..], o - i, ch) + i
    decreases |s| - o
  {
    if o < |s| {
      if s[o] == '\\' {
        FindInSuffix(s, i, o + 2, ch);
      } else if s[o] != ch {
        FindInSuffix(s, i, o + 1, ch);
      }
    }
  }

  lemma StripPush(words: seq<string>, w: string)
    requires Strippable(words) && w != "" && !LoneQuote(w)
    ensures Strippable(words + [w]) && StripAll(words + [w]) == StripAll(words) + [Strip(w)]
  {
  }

  lemma WordsAt(s: string, i: nat, k: nat, e: nat)
    requires i <= k < |s| && DropSpace(s[i..]) == s[k..] && !IsSpace(s[k])
    requires e == k + Arg(s[k..], 0).0
    ensures Words(s[i..]) == [s[k..e]] + Words(s[e..])
  {
    assert s[k..][..e - k] == s[k..e];
    assert s[k..][e - k..] == s[e..];
  }

  lemma WordsSkip(s: string, e: nat)
    requires e < |s| && IsSpace(s[e])
    ensures Words(s[e..]) == Words(s[e + 1..])
  {
    assert s[e..][1..] == s[e + 1..];
  }

  /** One turn of the loop moves one argument from the rest to those already found. */
  lemma WordFound(s: string, words: seq<string>, i: nat, k: nat, e: nat, next: nat)
    requires i <= k < |s| && DropSpace(s[i..]) == s[k..] && !IsSpace(s[k])
    requires e == k + Arg(s[k..], 0).0
    requires Words(s) == words + Words(s[i..])
    requires next == e || (next == e + 1 <= |s| && IsSpace(s[e]))
    ensures Words(s) == words + [s[k..e]] + Words(s[next..])
  {
    WordsNext(s, i, k, e, next);
    Regroup(Words(s), words, s[k..e], Words(s[next..]), Words(s[i..]));
  }

  lemma WordsNext(s: string, i: nat, k: nat, e: nat, next: nat)
    requires i <= k < |s| && DropSpace(s[i..]) == s[k..] && !IsSpace(s[k])
    requires e == k + Arg(s[k..], 0).0
    requires next == e || (next == e + 1 <= |s| && IsSpace(s[e]))
    ensures Words(s[i..]) == [s[k..e]] + Words(s[next..])
  {
    WordsAt(s, i, k, e);
    if next > e {
      WordsSkip(s, e);
    }
  }

  lemma Regroup(all: seq<string>, words: seq<string>, w: string, rest: seq<string>, tail: seq<string>)
    requires all == words + tail && tail == [w] + rest
    ensures all == words + [w] + rest
  {
  }

  lemma LoneQuotePanics(s: string, words: seq<string>, w: string, rest: seq<string>)
    requires Words(s) == words + [w] + rest && LoneQuote(w)
    ensures Parsing(s) == Panics
  {
    assert Words(s)[|words|] == w;
  }

  method ParseCommand(command: string) returns (r: Parsed)
    ensures r == Parsing(command)
  {
    var args: seq<string> := [];
    ghost var words: seq<string> := [];
    var i := 0;
    assert command[0..] == command;
    while i < |command|
      invariant 0 <= i <= |command|
      invariant Words(command) == words + Words(command[i..])
      invariant Strippable(words) && args == StripAll(words)
      decreases |command| - i
    {
      var j := SkipSpace(command, i);
      if j == -1 {
        break;
      }
      var e, next := ArgumentEnd(command, j);
      WordFound(command, words, i, j, e, next);
      var ok, more := AppendArgument(command[j..e], args);
      if !ok {
        LoneQuotePanics(command, words, command[j..e], Words(command[next..]));
        return Panics;
      }
      StripPush(words, command[j..e]);
      words := words + [command[j..e]];
      args := more;
      i := next;
    }
    assert Words(command[i..]) == [];
    return if |args| <= 0 then Failed else Args(args);
  }

  // ---------------------------------------------------------------- what it means

  /** No quote is left open and the command does not end in a lone backslash. */
  predicate AllClosed(s: string) {
    forall i | 0 <= i < |Words(s)| :: Ends(Words(s)[i]) != Open
  }

  lemma OpenLone(w: string)
    requires LoneQuote(w)
    ensures IsWord(w) && Ends(w) == Open
  {
  }

  /** Only the last argument of a command can be left open. */
  lemma {:induction false} OpenIsLast(s: string, i: nat)
    requires i < |Words(s)| && Ends(Words(s)[i]) == Open
    ensures i == |Words(s)| - 1
    decreases |s|
  {
    var u := DropSpace(s);
    var _ := LeadingBlank(s);
    ArgAdvances(u);
    ArgShrinks(u, 0);
    var rest := u[Arg(u, 0).0..];
    if i > 0 {
      OpenIsLast(rest, i - 1);
    }
  }

  /**
    The parser panics exactly if the command ends in a quote that opens a new argument; it fails
    exactly on a blank command.
   */
  lemma Outcomes(s: string)
    ensures Parsing(s) == Panics <==> |Words(s)| > 0 && LoneQuote(Words(s)[|Words(s)| - 1])
    ensures Parsing(s) == Failed <==> IsBlank(s)
    ensures AllClosed(s) ==> Parsing(s) != Panics
  {
    var gaps := SplitWeaves(s);
    forall i | 0 <= i < |Words(s)|
      ensures LoneQuote(Words(s)[i]) ==> i == |Words(s)| - 1
    {
      if LoneQuote(Words(s)[i]) {
        OpenLone(Words(s)[i]);
        OpenIsLast(s, i);
      }
    }
    if IsBlank(s) {
      DropSpaceBlank(s, "");
      assert s + "" == s;
    }
  }

  /** The quote at the start of w is closed by its last byte. */
  predicate ClosedByLast(w: string)
    requires w != ""
  {
    Find(w, 1, w[0]) == |w| - 1
  }

  /** Nothing is dropped at the end of w, or what is dropped is the closing quote. */
  predicate DropsClosingQuote(w: string)
    requires w != ""
  {
    !IsQuote(w[0]) || ClosedByLast(w)
  }

  lemma WordDrops(w: string)
    requires IsWord(w) && !LoneQuote(w)
    ensures DropsClosingQuote(w) <==> !IsQuote(w[0]) || Ends(w) != Open
    ensures w == if IsQuote(w[0]) then [w[0]] + Strip(w) + [w[|w| - 1]] else Strip(w)
  {
  }

  /**
    Every argument of a command but a lone quote: nothing is dropped at its end, or what is dropped is
    the closing quote, if and only if it does not start with a quote or is not left open.
   */
  lemma DropsClosingQuoteIff(s: string, i: nat)
    requires i < |Words(s)| && !LoneQuote(Words(s)[i])
    ensures var w := Words(s)[i];
            && w != ""
            && (DropsClosingQuote(w) <==> !IsQuote(w[0]) || Ends(w) != Open)
            && w == if IsQuote(w[0]) then [w[0]] + Strip(w) + [w[|w| - 1]] else Strip(w)
  {
    var gaps := SplitWeaves(s);
    WordDrops(Words(s)[i]);
  }

  lemma OpenArgument(w: string)
    requires w == "\"ab"
    ensures IsWord(w) && Ends(w) == Open && !LoneQuote(w) && Strip(w) == "a"
  {
    assert Find(w, 2, '"') == Find(w, 3, '"') == -1;
    assert w[1..2] == "a";
  }

  lemma TwoWords(x: string, w: string)
    requires x == "x" && IsWord(w) && Ends(w) == Open
    ensures Words(x + (" " + w)) == [x, w]
  {
    var gaps, words := ["", " ", ""], [x, w];
    assert Arg(x, 0) == (1, Plain);
    assert gaps[2..] == [""] && words[2..] == [] && gaps[1..] == [" ", ""] && words[1..] == [w];
    assert gaps[1..][1..] == [""] && words[1..][1..] == [];
    assert Weave([""], []) == "";
    assert Weave([" ", ""], [w]) == " " + (w + "");
    assert w + "" == w;
    WeaveSplits(gaps, words);
    assert Weave(gaps, words) == "" + (x + (" " + w)) == x + (" " + w);
  }

  /** The last argument of this command is left open, and a byte of it is lost. */
  lemma OpenLosesByte()
    ensures Parsing("x \"ab") == Args(["x", "a"])
  {
    OpenArgument("\"ab");
    TwoWords("x", "\"ab");
    assert "x \"ab" == "x" + (" " + "\"ab");
    assert StripAll(["x", "\"ab"]) == [Strip("x"), Strip("\"ab")];
  }

  /** An argument and the quote character it is put in. */
  datatype Quotation = Quotation(mark: char, text: string)

  function Quote(q: Quotation): string {
    [q.mark] + q.text + [q.mark]
  }

  function QuoteAll(args: seq<Quotation>): seq<string> {
    seq(|args|, i requires 0 <= i < |args| => Quote(args[i]))
  }

  function TextsOf(args: seq<Quotation>): seq<string> {
    seq(|args|, i requires 0 <= i < |args| => args[i].text)
  }

  /** Single or double quotes around text without that quote and without backslashes. */
  predicate IsQuotation(q: Quotation) {
    (q.mark == '"' || q.mark == '\'') && forall i | 0 <= i < |q.text| :: q.text[i] != q.mark && q.text[i] != '\\'
  }

  lemma {:induction false} FindClosing(q: Quotation, o: nat)
    requires IsQuotation(q) && 1 <= o <= |q.text| + 1
    ensures Find(Quote(q), o, q.mark) == |q.text| + 1
    decreases |q.text| + 1 - o
  {
    if o <= |q.text| {
      assert Quote(q)[o] == q.text[o - 1];
      FindClosing(q, o + 1);
    }
  }

  lemma QuoteIsWord(q: Quotation)
    requires IsQuotation(q)
    ensures IsWord(Quote(q)) && Ends(Quote(q)) == Quoted && !LoneQuote(Quote(q)) && Strip(Quote(q)) == q.text
  {
    FindClosing(q, 1);
  }

  predicate Quotable(args: seq<Quotation>) {
    forall k | 0 <= k < |args| :: IsQuotation(args[k])
  }

  lemma QuotedSeparated(args: seq<Quotation>, gaps: seq<string>)
    requires |gaps| == |args| + 1 && Quotable(args) && forall i | 0 <= i < |gaps| :: IsBlank(gaps[i])
    ensures Separated(gaps, QuoteAll(args))
  {
    forall k | 0 <= k < |args|
      ensures IsWord(QuoteAll(args)[k]) && Ends(QuoteAll(args)[k]) == Quoted
    {
      QuoteIsWord(args[k]);
    }
  }

  lemma QuotedStripped(args: seq<Quotation>)
    requires Quotable(args)
    ensures Strippable(QuoteAll(args)) && StripAll(QuoteAll(args)) == TextsOf(args)
  {
    forall k | 0 <= k < |args|
      ensures QuoteAll(args)[k] != "" && !LoneQuote(QuoteAll(args)[k]) && Strip(QuoteAll(args)[k]) == args[k].text
    {
      QuoteIsWord(args[k]);
    }
  }

  /**
    Arguments without backslashes, each in double or single quotes that do not occur in it, and joined
    by any white space, even none, come back from the parser as they were.
   */
  lemma QuotedRoundTrip(args: seq<Quotation>, gaps: seq<string>)
    requires args != [] && |gaps| == |args| + 1
    requires Quotable(args) && forall i | 0 <= i < |gaps| :: IsBlank(gaps[i])
    ensures Parsing(Weave(gaps, QuoteAll(args))) == Args(TextsOf(args))
  {
    QuotedSeparated(args, gaps);
    QuotedStripped(args);
    WeaveSplits(gaps, QuoteAll(args));
  }
}
