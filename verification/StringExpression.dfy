/** Expanding %(name)s and %(name)d in the values of the configuration (config/string_expression.go:37-91). */
module StringExpression {
  import opened Text

  type Env = map<string, string>

  /** What fmt.Sprintf makes of the flags between the percent sign and the d, and a number. */
  type Formatter = (string, int) -> string

  datatype Result = Ok(text: string) | Unbound(name: string) | NotInteger(value: string) | BadType(typ: char) | BadFormat

  predicate IsLetter(c: char) {
    'a' <= c <= 'z' || 'A' <= c <= 'Z'
  }

  /** The first closing parenthesis of s from position i on, or the end of s. */
  function CloseFrom(s: string, i: nat): (k: nat)
    ensures i <= |s| ==> i <= k <= |s|
    ensures i <= k
    decreases |s| - i
  {
    if i < |s| && s[i] != ')' then CloseFrom(s, i + 1) else i
  }

  function LetterFrom(s: string, i: nat): (k: nat)
    ensures i <= k
    decreases |s| - i
  {
    if i < |s| && !IsLetter(s[i]) then LetterFrom(s, i + 1) else i
  }

  /** What one turn of the loop does. */
  datatype Turn = Done(result: Result) | More(text: string)

  /** Where the first reference starts, where its name ends, and where its type stands. */
  datatype Place = Place(start: nat, end: nat, typ: nat)

  lemma Opening(s: string, i: int)
    ensures At(s, "%(", i) <==> 0 <= i < |s| - 1 && s[i] == '%' && s[i + 1] == '('
  {
    var pat := "%(";
    assert pat[0] == '%' && pat[1] == '(';
  }

  function FirstReference(s: string): (r: Option<Place>)
    ensures r.Some? ==> r.value.start + 2 <= r.value.end < r.value.typ && r.value.end <= |s|
    ensures r.Some? ==> s[r.value.start] == '%'
  {
    var start := Index(s, "%(");
    if start == -1 then None
    else
      Opening(s, start);
      var end := CloseFrom(s, start + 2);
      Some(Place(start, end, LetterFrom(s, end + 1)))
  }

  /** What becomes of a text with a reference between before and after. */
  function Apply(env: Env, fmt: Formatter, before: string, name: string, flags: string, typ: char, after: string): Turn {
    if name !in env then Done(Unbound(name))
    else if typ == 'd' then
      match Atoi(env[name])
      case None => Done(NotInteger(env[name]))
      case Some(i) => More(before + fmt(flags, i) + after)
    else if typ == 's' then More(before + env[name] + after)
    else Done(BadType(typ))
  }

  function Expand(env: Env, fmt: Formatter, s: string): Turn {
    match FirstReference(s)
    case None => Done(Ok(s))
    case Some(p) =>
      if p.typ >= |s| then Done(BadFormat)
      else Apply(env, fmt, s[..p.start], s[p.start + 2..p.end], s[p.end + 1..p.typ], s[p.typ], s[p.typ + 1..])
  }

  /** The result of a loop of such turns, if it ends within n of them. */
  function Loop(turn: string -> Turn, s: string, n: nat): Option<Result>
    decreases n
  {
    if n == 0 then None
    else
      match turn(s)
      case Done(r) => Some(r)
      case More(t) => Loop(turn, t, n - 1)
  }

  /** All texts that the first n turns start from satisfy ok, but for one that ends the loop. */
  predicate Along(turn: string -> Turn, ok: string -> bool, s: string, n: nat)
    decreases n
  {
    n == 0 ||
    match turn(s)
    case Done(_) => true
    case More(t) => ok(s) && Along(turn, ok, t, n - 1)
  }

  lemma {:induction false} LoopLonger(turn: string -> Turn, s: string, n: nat, m: nat)
    requires Loop(turn, s, n).Some? && n <= m
    ensures Loop(turn, s, m) == Loop(turn, s, n)
    decreases n
  {
    if turn(s).More? {
      LoopLonger(turn, turn(s).text, n - 1, m - 1);
    }
  }

  lemma LoopTurns(turn: string -> Turn, s: string, n: nat)
    ensures turn(s).More? ==> Loop(turn, s, n + 1) == Loop(turn, turn(s).text, n)
    ensures turn(s).Done? ==> Loop(turn, s, n + 1) == Some(turn(s).result)
  {
  }

  /** Every turn on a text that satisfies ok lowers the measure. */
  ghost predicate Shrinks(turn: string -> Turn, ok: string -> bool, measure: string -> nat) {
    forall t :: ok(t) && turn(t).More? ==> measure(turn(t).text) < measure(t)
  }

  /** A loop whose turns lower a measure ends. */
  lemma {:induction false} LoopEnds(turn: string -> Turn, ok: string -> bool, measure: string -> nat, s: string, n: nat)
    requires Shrinks(turn, ok, measure) && Along(turn, ok, s, n) && measure(s) < n
    ensures Loop(turn, s, n).Some?
    decreases n
  {
    if turn(s).More? {
      LoopEnds(turn, ok, measure, turn(s).text, n - 1);
    }
  }

  /** A loop whose turns keep a condition under which they never end it does not end. */
  lemma {:induction false} LoopForever(turn: string -> Turn, again: string -> bool, s: string, n: nat)
    requires forall t :: again(t) ==> turn(t).More? && again(turn(t).text)
    requires again(s)
    ensures Loop(turn, s, n) == None
    decreases n
  {
    if n > 0 {
      LoopForever(turn, again, turn(s).text, n - 1);
    }
  }

  function Expanding(env: Env, fmt: Formatter): string -> Turn {
    s => Expand(env, fmt, s)
  }

  /** The result of Eval, if it takes at most n turns. */
  function Run(env: Env, fmt: Formatter, s: string, n: nat): Option<Result> {
    Loop(Expanding(env, fmt), s, n)
  }

  ghost predicate Terminates(env: Env, fmt: Formatter, s: string) {
    exists n: nat :: Run(env, fmt, s, n).Some?
  }

  class StringExpression {
    var env: Env

    constructor (env: Env)
      ensures this.env == env
    {
      this.env := env;
    }

    method Add(key: string, value: string)
      modifies this
      ensures env == old(env)[key := value]
    {
      env := env[key := value];
    }

    /** One turn of the loop of Eval. */
    method TakeTurn(fmt: Formatter, s: string) returns (turn: Turn)
      ensures turn == Expand(env, fmt, s)
    {
      var start := Index(s, "%(");
      if start == -1 {
        return Done(Ok(s));
      }
      Opening(s, start);
      var end, typ := Delimit(s, start);
      if typ < |s| {
        var varName := s[start + 2..end];
        if varName !in env {
          return Done(Unbound(varName));
        }
        var varValue := env[varName];
        if s[typ] == 'd' {
          match Atoi(varValue) {
            case None => return Done(NotInteger(varValue));
            case Some(i) => return More(s[..start] + fmt(s[end + 1..typ], i) + s[typ + 1..]);
          }
        } else if s[typ] == 's' {
          return More(s[..start] + varValue + s[typ + 1..]);
        } else {
          return Done(BadType(s[typ]));
        }
      } else {
        return Done(BadFormat);
      }
    }

    /** Eval returns only if the run ends. */
    method Eval(fmt: Formatter, s0: string) returns (r: Result)
      requires Terminates(env, fmt, s0)
      ensures exists n: nat :: Run(env, fmt, s0, n) == Some(r)
    {
      ghost var n: nat :| Run(env, fmt, s0, n).Some?;
      ghost var left: nat := n;
      var s := s0;
      while true
        invariant Run(env, fmt, s, left) == Run(env, fmt, s0, n)
        decreases left
      {
        var turn := TakeTurn(fmt, s);
        if turn.Done? {
          return turn.result;
        }
        s := turn.text;
        left := left - 1;
      }
    }
  }

  /** The two scans for the end of the name and for the type. */
  method Delimit(s: string, start: nat) returns (end: nat, typ: nat)
    requires start + 1 < |s| && s[start + 1] == '('
    ensures start + 2 <= end <= |s| && end < typ
    ensures end == CloseFrom(s, start + 2) && typ == LetterFrom(s, end + 1)
  {
    end := start + 1;
    while end < |s| && s[end] != ')'
      invariant start + 1 <= end <= |s|
      invariant end == start + 1 || CloseFrom(s, end) == CloseFrom(s, start + 2)
    {
      end := end + 1;
    }
    typ := end + 1;
    while typ < |s| && !IsLetter(s[typ])
      invariant end < typ && LetterFrom(s, typ) == LetterFrom(s, end + 1)
    {
      typ := typ + 1;
    }
  }

  // ---------------------------------------------------------------- termination

  function Marks(s: string): nat {
    if s == "" then 0 else Marks(s[..|s| - 1]) + if s[|s| - 1] == '%' then 1 else 0
  }

  lemma {:induction false} MarksConcat(s: string, t: string)
    ensures Marks(s + t) == Marks(s) + Marks(t)
    decreases |t|
  {
    if t == "" {
      assert s + t == s;
    } else {
      assert (s + t)[..|s + t| - 1] == s + t[..|t| - 1];
      MarksConcat(s, t[..|t| - 1]);
    }
  }

  predicate NoMark(s: string) {
    '%' !in s
  }

  lemma {:induction false} NoMarks(s: string)
    ensures NoMark(s) <==> Marks(s) == 0
    decreases |s|
  {
    if s != "" {
      NoMarks(s[..|s| - 1]);
      assert s == s[..|s| - 1] + [s[|s| - 1]];
    }
  }

  /** Digits that fmt.Sprintf takes as flags and a width; it refuses widths above a million. */
  predicate IsWidth(s: string) {
    |s| <= 6 && forall i | 0 <= i < |s| :: IsDigit(s[i])
  }

  /** No number that is formatted with a width has a percent sign. */
  ghost predicate PlainNumbers(fmt: Formatter) {
    forall flags, i :: IsWidth(flags) ==> NoMark(fmt(flags, i))
  }

  /** Nor has any value of a variable. */
  ghost predicate Plain(env: Env, fmt: Formatter) {
    (forall k | k in env :: NoMark(env[k])) && PlainNumbers(fmt)
  }

  /** The first reference of s, if it is one to a number, has just a width. */
  predicate HasWidth(s: string) {
    match FirstReference(s)
    case None => true
    case Some(p) => p.typ < |s| && s[p.typ] == 'd' ==> IsWidth(s[p.end + 1..p.typ])
  }

  /** So do all that the run comes to in n turns. */
  predicate WidthsOnly(env: Env, fmt: Formatter, s: string, n: nat) {
    Along(Expanding(env, fmt), HasWidth, s, n)
  }

  lemma Replaced(s: string, start: nat, typ: nat, value: string)
    requires start < typ < |s| && s[start] == '%' && NoMark(value)
    ensures Marks(s[..start] + value + s[typ + 1..]) < Marks(s)
  {
    assert s == s[..start] + ("%" + s[start + 1..typ + 1]) + s[typ + 1..];
    MarksConcat(s[..start], "%" + s[start + 1..typ + 1]);
    MarksConcat(s[..start] + ("%" + s[start + 1..typ + 1]), s[typ + 1..]);
    MarksConcat("%", s[start + 1..typ + 1]);
    assert Marks("%") == 1;
    MarksConcat(s[..start], value);
    MarksConcat(s[..start] + value, s[typ + 1..]);
    NoMarks(value);
  }

  lemma ApplyShrinks(env: Env, fmt: Formatter, s: string, start: nat, name: string, flags: string, typ: nat, t: string)
    requires Plain(env, fmt) && start < typ < |s| && s[start] == '%' && (s[typ] == 'd' ==> IsWidth(flags))
    requires Apply(env, fmt, s[..start], name, flags, s[typ], s[typ + 1..]) == More(t)
    ensures Marks(t) < Marks(s)
  {
    Replaced(s, start, typ, if s[typ] == 'd' then fmt(flags, Atoi(env[name]).value) else env[name]);
  }

  lemma PlaceFits(s: string, p: Place)
    requires HasWidth(s) && FirstReference(s) == Some(p) && p.typ < |s|
    ensures s[p.start] == '%' && (s[p.typ] == 'd' ==> IsWidth(s[p.end + 1..p.typ]))
  {
  }

  lemma MoreApplies(env: Env, fmt: Formatter, s: string, p: Place)
    requires Expand(env, fmt, s).More? && FirstReference(s) == Some(p)
    ensures p.typ < |s|
    ensures Expand(env, fmt, s) == Apply(env, fmt, s[..p.start], s[p.start + 2..p.end], s[p.end + 1..p.typ], s[p.typ], s[p.typ + 1..])
  {
  }

  lemma TurnShrinksAt(env: Env, fmt: Formatter, s: string, p: Place, t: string)
    requires Plain(env, fmt) && HasWidth(s) && FirstReference(s) == Some(p) && p.typ < |s|
    requires Apply(env, fmt, s[..p.start], s[p.start + 2..p.end], s[p.end + 1..p.typ], s[p.typ], s[p.typ + 1..]) == More(t)
    ensures Marks(t) < Marks(s)
  {
    PlaceFits(s, p);
    ApplyShrinks(env, fmt, s, p.start, s[p.start + 2..p.end], s[p.end + 1..p.typ], p.typ, t);
  }

  /** Each turn uses up at least one percent sign. */
  lemma TurnShrinks(env: Env, fmt: Formatter, s: string)
    requires Plain(env, fmt) && HasWidth(s) && Expand(env, fmt, s).More?
    ensures Marks(Expand(env, fmt, s).text) < Marks(s)
  {
    var p := FirstReference(s).value;
    MoreApplies(env, fmt, s, p);
    TurnShrinksAt(env, fmt, s, p, Expand(env, fmt, s).text);
  }

  lemma TurnsShrink(env: Env, fmt: Formatter)
    requires Plain(env, fmt)
    ensures Shrinks(Expanding(env, fmt), HasWidth, Marks)
  {
    forall t | HasWidth(t) && Expanding(env, fmt)(t).More?
      ensures Marks(Expanding(env, fmt)(t).text) < Marks(t)
    {
      TurnShrinks(env, fmt, t);
    }
  }

  /** With such values a run that comes to widths only takes no more turns than the text has percent signs, and one. */
  lemma WidthsTerminate(env: Env, fmt: Formatter, s: string, n: nat)
    requires Plain(env, fmt) && Marks(s) < n && WidthsOnly(env, fmt, s, n)
    ensures Run(env, fmt, s, n).Some?
    ensures Terminates(env, fmt, s)
  {
    TurnsShrink(env, fmt);
    LoopEnds(Expanding(env, fmt), HasWidth, Marks, s, n);
  }

  // ---------------------------------------------------------------- templates

  /** Literal text, a reference to a string, one to a number, and one of another type, which is an error. */
  datatype Piece =
    | Lit(text: string)
    | Str(name: string, flags: string)
    | Num(name: string, flags: string)
    | Bad(name: string, flags: string, typ: char)

  function Written(p: Piece): string {
    match p
    case Lit(text) => text
    case Str(name, flags) => "%(" + name + ")" + flags + "s"
    case Num(name, flags) => "%(" + name + ")" + flags + "d"
    case Bad(name, flags, typ) => "%(" + name + ")" + flags + [typ]
  }

  function Template(pieces: seq<Piece>): string {
    if pieces == [] then "" else Written(pieces[0]) + Template(pieces[1..])
  }

  /** What may stand between the name and the type: the flags of a string are not looked at. */
  predicate NoLetter(s: string) {
    forall i | 0 <= i < |s| :: !IsLetter(s[i])
  }

  predicate WellFormed(p: Piece) {
    match p
    case Lit(text) => NoMark(text)
    case Str(name, flags) => ')' !in name && NoLetter(flags)
    case Num(name, flags) => ')' !in name && IsWidth(flags)
    case Bad(name, flags, typ) => ')' !in name && NoLetter(flags) && 'A' <= typ <= 'z' && !('Z' < typ < 'a') && typ != 's' && typ != 'd'
  }

  /** What a piece stands for. */
  function Meaning(env: Env, fmt: Formatter, p: Piece): Result {
    match p
    case Lit(text) => Ok(text)
    case Str(name, _) => if name in env then Ok(env[name]) else Unbound(name)
    case Num(name, flags) =>
      if name !in env then Unbound(name)
      else (match Atoi(env[name]) case None => NotInteger(env[name]) case Some(i) => Ok(fmt(flags, i)))
    case Bad(name, _, typ) => if name in env then BadType(typ) else Unbound(name)
  }

  function Meanings(env: Env, fmt: Formatter): Piece -> Result {
    p => Meaning(env, fmt, p)
  }

  /** All pieces replaced at once; the first that has no meaning decides the error. */
  function Substituted(meaning: Piece -> Result, pieces: seq<Piece>): Result {
    if pieces == [] then Ok("") else Then(meaning(pieces[0]), Substituted(meaning, pieces[1..]))
  }

  /** One result behind another: the texts joined, or the first error. */
  function Then(a: Result, b: Result): Result {
    if a.Ok? && b.Ok? then Ok(a.text + b.text) else if a.Ok? then b else a
  }

  lemma {:induction false} CloseAt(s: string, i: nat, k: nat)
    requires i <= k < |s| && s[k] == ')' && forall j | i <= j < k :: s[j] != ')'
    ensures CloseFrom(s, i) == k
    decreases k - i
  {
    if i < k {
      CloseAt(s, i + 1, k);
    }
  }

  lemma {:induction false} LetterAt(s: string, i: nat, k: nat)
    requires i <= k < |s| && IsLetter(s[k]) && forall j | i <= j < k :: !IsLetter(s[j])
    ensures LetterFrom(s, i) == k
    decreases k - i
  {
    if i < k {
      LetterAt(s, i + 1, k);
    }
  }

  /** The first reference of a text that starts with a reference behind text without percent signs. */
  lemma ReferenceFound(pre: string, name: string, flags: string, typ: char, rest: string)
    requires NoMark(pre) && ')' !in name && NoLetter(flags) && IsLetter(typ)
    ensures var s := pre + "%(" + name + ")" + flags + [typ] + rest;
            FirstReference(s) == Some(Place(|pre|, |pre| + 2 + |name|, |pre| + 3 + |name| + |flags|))
  {
    var s := pre + "%(" + name + ")" + flags + [typ] + rest;
    ReferenceAt(s, |pre|, |pre| + 2 + |name|, |pre| + 3 + |name| + |flags|);
  }

  lemma ReferenceAt(s: string, start: nat, end: nat, typ: nat)
    requires start + 2 <= end < typ < |s| && s[start] == '%' && s[start + 1] == '(' && s[end] == ')' && IsLetter(s[typ])
    requires forall i | 0 <= i < start :: s[i] != '%'
    requires forall i | start + 2 <= i < end :: s[i] != ')'
    requires forall i | end < i < typ :: !IsLetter(s[i])
    ensures FirstReference(s) == Some(Place(start, end, typ))
  {
    forall i
      ensures At(s, "%(", i) ==> i >= start
    {
      Opening(s, i);
    }
    Opening(s, start);
    CloseAt(s, start + 2, end);
    LetterAt(s, end + 1, typ);
  }

  /** What a turn does on a text that starts with a reference behind text without percent signs. */
  lemma Slices(pre: string, name: string, flags: string, typ: char, rest: string)
    ensures var s, n, f := pre + "%(" + name + ")" + flags + [typ] + rest, |pre| + 2 + |name|, |pre| + 3 + |name| + |flags|;
            && s[..|pre|] == pre && s[|pre| + 2..n] == name && s[n + 1..f] == flags
            && s[f] == typ && s[f + 1..] == rest
  {
  }

  lemma TurnOn(env: Env, fmt: Formatter, pre: string, name: string, flags: string, typ: char, rest: string)
    requires NoMark(pre) && ')' !in name && NoLetter(flags) && IsLetter(typ)
    ensures Expand(env, fmt, pre + "%(" + name + ")" + flags + [typ] + rest) == Apply(env, fmt, pre, name, flags, typ, rest)
  {
    ReferenceFound(pre, name, flags, typ, rest);
    Slices(pre, name, flags, typ, rest);
  }

  lemma StrSpelled(pre: string, name: string, flags: string, rest: string)
    ensures pre + Written(Str(name, flags)) + rest == pre + "%(" + name + ")" + flags + ['s'] + rest
  {
  }

  lemma TurnOnStr(env: Env, fmt: Formatter, pre: string, name: string, flags: string, rest: string)
    requires NoMark(pre) && ')' !in name && NoLetter(flags)
    ensures Expand(env, fmt, pre + Written(Str(name, flags)) + rest) == Apply(env, fmt, pre, name, flags, 's', rest)
  {
    StrSpelled(pre, name, flags, rest);
    TurnOn(env, fmt, pre, name, flags, 's', rest);
  }

  lemma BadSpelled(pre: string, name: string, flags: string, typ: char, rest: string)
    ensures pre + Written(Bad(name, flags, typ)) + rest == pre + "%(" + name + ")" + flags + [typ] + rest
  {
  }

  lemma TurnOnBad(env: Env, fmt: Formatter, pre: string, name: string, flags: string, typ: char, rest: string)
    requires NoMark(pre) && ')' !in name && NoLetter(flags) && IsLetter(typ)
    ensures Expand(env, fmt, pre + Written(Bad(name, flags, typ)) + rest) == Apply(env, fmt, pre, name, flags, typ, rest)
  {
    BadSpelled(pre, name, flags, typ, rest);
    TurnOn(env, fmt, pre, name, flags, typ, rest);
  }

  lemma NumSpelled(pre: string, name: string, flags: string, rest: string)
    ensures pre + Written(Num(name, flags)) + rest == pre + "%(" + name + ")" + flags + ['d'] + rest
  {
  }

  lemma TurnOnNum(env: Env, fmt: Formatter, pre: string, name: string, flags: string, rest: string)
    requires NoMark(pre) && ')' !in name && IsWidth(flags)
    ensures Expand(env, fmt, pre + Written(Num(name, flags)) + rest) == Apply(env, fmt, pre, name, flags, 'd', rest)
  {
    NumSpelled(pre, name, flags, rest);
    TurnOn(env, fmt, pre, name, flags, 'd', rest);
  }

  lemma TurnOnPiece(env: Env, fmt: Formatter, pre: string, p: Piece, rest: string)
    requires NoMark(pre) && WellFormed(p) && !p.Lit?
    ensures Expand(env, fmt, pre + (Written(p) + rest)) == TurnInto(pre, Meaning(env, fmt, p), rest)
  {
    assert pre + (Written(p) + rest) == pre + Written(p) + rest;
    match p
    case Str(name, flags) => TurnOnStr(env, fmt, pre, name, flags, rest);
    case Num(name, flags) => TurnOnNum(env, fmt, pre, name, flags, rest);
    case Bad(name, flags, typ) => TurnOnBad(env, fmt, pre, name, flags, typ, rest);
  }

  lemma NoReference(env: Env, fmt: Formatter, s: string)
    requires NoMark(s)
    ensures Expand(env, fmt, s) == Done(Ok(s))
  {
    Opening(s, Index(s, "%("));
  }

  /**
    A reference without a type: behind the closing parenthesis, or for want of one, no letter follows.
    Whatever the variables are, Eval ends with an error.
   */
  lemma UnfinishedFails(env: Env, fmt: Formatter, pre: string, name: string, rest: string)
    requires NoMark(pre) && ')' !in name && NoLetter(rest)
    ensures Run(env, fmt, pre + ("%(" + name + ")" + rest), 1) == Some(BadFormat)
    ensures Run(env, fmt, pre + ("%(" + name), 1) == Some(BadFormat)
  {
    ClosedFails(env, fmt, pre, name, rest);
    OpenFails(env, fmt, pre, name);
    LoopTurns(Expanding(env, fmt), pre + ("%(" + name + ")" + rest), 0);
    LoopTurns(Expanding(env, fmt), pre + ("%(" + name), 0);
  }

  lemma ClosedFails(env: Env, fmt: Formatter, pre: string, name: string, rest: string)
    requires NoMark(pre) && ')' !in name && NoLetter(rest)
    ensures Expand(env, fmt, pre + ("%(" + name + ")" + rest)) == Done(BadFormat)
  {
    var s := pre + ("%(" + name + ")" + rest);
    CloseAt(s, |pre| + 2, |pre| + 2 + |name|);
    TypeMissing(env, fmt, s, |pre|);
  }

  lemma OpenFails(env: Env, fmt: Formatter, pre: string, name: string)
    requires NoMark(pre) && ')' !in name
    ensures Expand(env, fmt, pre + ("%(" + name)) == Done(BadFormat)
  {
    var t := pre + ("%(" + name);
    NoClose(t, |pre| + 2);
    TypeMissing(env, fmt, t, |pre|);
  }

  lemma TypeMissing(env: Env, fmt: Formatter, s: string, start: nat)
    requires start + 2 <= |s| && s[start] == '%' && s[start + 1] == '(' && forall i | 0 <= i < start :: s[i] != '%'
    requires forall j | CloseFrom(s, start + 2) < j < |s| :: !IsLetter(s[j])
    ensures Expand(env, fmt, s) == Done(BadFormat)
  {
    OpensAt(s, start);
    NoLetterFrom(s, CloseFrom(s, start + 2) + 1);
  }

  lemma OpensAt(s: string, start: nat)
    requires start + 2 <= |s| && s[start] == '%' && s[start + 1] == '(' && forall i | 0 <= i < start :: s[i] != '%'
    ensures Index(s, "%(") == start
  {
    forall i
      ensures At(s, "%(", i) ==> i >= start
    {
      Opening(s, i);
    }
    Opening(s, start);
  }

  lemma {:induction false} NoClose(s: string, i: nat)
    requires forall j | i <= j < |s| :: s[j] != ')'
    ensures CloseFrom(s, i) == if i <= |s| then |s| else i
    decreases |s| - i
  {
    if i < |s| {
      NoClose(s, i + 1);
    }
  }

  lemma {:induction false} NoLetterFrom(s: string, i: nat)
    requires forall j | i <= j < |s| :: !IsLetter(s[j])
    ensures LetterFrom(s, i) >= |s|
    decreases |s| - i
  {
    if i < |s| {
      NoLetterFrom(s, i + 1);
    }
  }

  function TurnInto(pre: string, m: Result, rest: string): Turn {
    if m.Ok? then More(pre + m.text + rest) else Done(m)
  }

  /** Each turn replaces the first reference by its meaning, which brings no new reference. */
  ghost predicate Replaces(turn: string -> Turn, meaning: Piece -> Result) {
    && (forall s :: NoMark(s) ==> turn(s) == Done(Ok(s)))
    && (forall pre, p: Piece, rest :: NoMark(pre) && WellFormed(p) && !p.Lit? ==>
          turn(pre + (Written(p) + rest)) == TurnInto(pre, meaning(p), rest))
    && (forall p: Piece :: p.Lit? ==> meaning(p) == Ok(p.text))
    && (forall p: Piece :: WellFormed(p) && meaning(p).Ok? ==> NoMark(meaning(p).text))
  }

  lemma ExpandReplaces(env: Env, fmt: Formatter)
    requires Plain(env, fmt)
    ensures Replaces(Expanding(env, fmt), Meanings(env, fmt))
  {
    forall s | NoMark(s)
      ensures Expanding(env, fmt)(s) == Done(Ok(s))
    {
      NoReference(env, fmt, s);
    }
    forall pre, p: Piece, rest | NoMark(pre) && WellFormed(p) && !p.Lit?
      ensures Expanding(env, fmt)(pre + (Written(p) + rest)) == TurnInto(pre, Meaning(env, fmt, p), rest)
    {
      TurnOnPiece(env, fmt, pre, p, rest);
    }
  }

  /** A reference takes one turn to become its meaning, and literal text none. */
  lemma PieceExpands(turn: string -> Turn, meaning: Piece -> Result, pre: string, p: Piece, rest: string, n: nat)
    requires Replaces(turn, meaning) && NoMark(pre) && WellFormed(p)
    requires meaning(p).Ok? ==> Loop(turn, pre + meaning(p).text + rest, n).Some?
    ensures Loop(turn, pre + (Written(p) + rest), n + 1) ==
            if meaning(p).Ok? then Loop(turn, pre + meaning(p).text + rest, n) else Some(meaning(p))
  {
    var s := pre + (Written(p) + rest);
    if p.Lit? {
      assert s == pre + meaning(p).text + rest;
      LoopLonger(turn, s, n, n + 1);
    } else {
      LoopTurns(turn, s, n);
    }
  }

  lemma StillNoMark(turn: string -> Turn, meaning: Piece -> Result, pre: string, p: Piece)
    requires Replaces(turn, meaning) && NoMark(pre) && WellFormed(p) && meaning(p).Ok?
    ensures NoMark(pre + meaning(p).text)
  {
    assert NoMark(meaning(p).text);
  }

  lemma {:induction false} ExpandsBehind(turn: string -> Turn, meaning: Piece -> Result, pre: string, pieces: seq<Piece>)
    requires Replaces(turn, meaning) && NoMark(pre) && forall p | p in pieces :: WellFormed(p)
    ensures Loop(turn, pre + Template(pieces), |pieces| + 1) == Some(Then(Ok(pre), Substituted(meaning, pieces)))
    decreases |pieces|
  {
    if pieces == [] {
      assert pre + Template(pieces) == pre;
    } else {
      var m, rest := meaning(pieces[0]), pieces[1..];
      assert pieces[0] in pieces && forall p | p in rest :: p in pieces;
      if m.Ok? {
        StillNoMark(turn, meaning, pre, pieces[0]);
        ExpandsBehind(turn, meaning, pre + m.text, rest);
        ThenThen(pre, m.text, Substituted(meaning, rest));
      } else {
        assert Substituted(meaning, pieces) == m;
      }
      PieceExpands(turn, meaning, pre, pieces[0], Template(rest), |rest| + 1);
    }
  }

  lemma ThenThen(a: string, b: string, r: Result)
    ensures Then(Ok(a + b), r) == Then(Ok(a), Then(Ok(b), r))
  {
    if r.Ok? {
      assert a + b + r.text == a + (b + r.text);
    }
  }

  /** Templates are expanded as if all their references were replaced at once. */
  lemma TemplateExpands(env: Env, fmt: Formatter, pieces: seq<Piece>)
    requires Plain(env, fmt) && forall p | p in pieces :: WellFormed(p)
    ensures Run(env, fmt, Template(pieces), |pieces| + 1) == Some(Substituted(Meanings(env, fmt), pieces))
    ensures Terminates(env, fmt, Template(pieces))
  {
    ExpandReplaces(env, fmt);
    ExpandsBehind(Expanding(env, fmt), Meanings(env, fmt), "", pieces);
    assert "" + Template(pieces) == Template(pieces);
    ThenNothing(Substituted(Meanings(env, fmt), pieces));
  }

  lemma ThenNothing(r: Result)
    ensures Then(Ok(""), r) == r
  {
    if r.Ok? {
      assert "" + r.text == r.text;
    }
  }

  function WithReference(pre: string, name: string, rest: string): string {
    pre + Written(Str(name, "")) + rest
  }

  lemma SelfReferenceTurn(env: Env, fmt: Formatter, pre: string, name: string, more: string, rest: string)
    requires NoMark(pre) && ')' !in name && name in env && env[name] == Written(Str(name, "")) + more
    ensures Expanding(env, fmt)(WithReference(pre, name, rest)) == More(WithReference(pre, name, more + rest))
  {
    TurnOnStr(env, fmt, pre, name, "", rest);
    Regroup(pre, Written(Str(name, "")), more, rest);
  }

  lemma Regroup(a: string, b: string, c: string, d: string)
    ensures a + (b + c) + d == a + b + (c + d)
  {
  }

  /**
    A variable whose value starts with a reference to itself: wherever it is the first reference of a
    text, the text only grows and Eval never returns.
   */
  lemma SelfReferenceNeverEnds(env: Env, fmt: Formatter, pre: string, name: string, more: string, rest: string, n: nat)
    requires NoMark(pre) && ')' !in name && name in env && env[name] == Written(Str(name, "")) + more
    ensures Run(env, fmt, WithReference(pre, name, rest), n) == None
  {
    var turn := Expanding(env, fmt);
    var again: string -> bool := t => exists r :: t == WithReference(pre, name, r);
    forall t | again(t)
      ensures turn(t).More? && again(turn(t).text)
    {
      var r :| t == WithReference(pre, name, r);
      SelfReferenceTurn(env, fmt, pre, name, more, r);
    }
    LoopForever(turn, again, WithReference(pre, name, rest), n);
  }
}
