/**
  Texts whose variables have values without percent signs (config/string_expression.go:44-91): expanding
  them comes to an end within as many turns as they have percent signs, and one.
 */
module PlainExpression {
  import opened StringExpression
  import opened Text

  /** No reference stands right behind a percent sign: "%%(" does not occur. */
  predicate SetApart(s: string) {
    forall i | 0 <= i < |s| - 2 :: !(s[i] == '%' && s[i + 1] == '%' && s[i + 2] == '(')
  }

  /** What follows a reference. */
  function Behind(s: string, r: Option<Place>): (t: string)
    ensures s != "" ==> |t| < |s|
  {
    if r.Some? && r.value.typ < |s| then s[r.value.typ + 1..] else ""
  }

  predicate NumberHasWidth(s: string, p: Place) {
    p.end < p.typ < |s| && s[p.typ] == 'd' ==> IsWidth(s[p.end + 1..p.typ])
  }

  /** Going through s from one reference to the next, those to a number have just a width. */
  predicate Widths(first: string -> Option<Place>, s: string)
    decreases |s|
  {
    s == "" || ((first(s).Some? ==> NumberHasWidth(s, first(s).value)) && Widths(first, Behind(s, first(s))))
  }

  /** Every reference of s to a number has just a width. */
  predicate WidthsIn(s: string) {
    Widths(FirstReference, s)
  }

  /** Text in which no reference starts, whatever follows it. */
  predicate Settled(u: string) {
    (forall i | 0 <= i < |u| - 1 :: !(u[i] == '%' && u[i + 1] == '(')) && (u == "" || u[|u| - 1] != '%')
  }

  lemma SettledJoined(u: string, v: string)
    requires Settled(u) && Settled(v)
    ensures Settled(u + v)
  {
    var w := u + v;
    forall i | 0 <= i < |w| - 1
      ensures !(w[i] == '%' && w[i + 1] == '(')
    {
      assert i < |u| - 1 ==> w[i] == u[i] && w[i + 1] == u[i + 1];
      assert i >= |u| ==> w[i] == v[i - |u|] && w[i + 1] == v[i + 1 - |u|];
    }
  }

  lemma SetApartSuffix(s: string, i: nat)
    requires SetApart(s) && i <= |s|
    ensures SetApart(s[i..])
  {
    forall k | 0 <= k < |s[i..]| - 2
      ensures !(s[i..][k] == '%' && s[i..][k + 1] == '%' && s[i..][k + 2] == '(')
    {
      assert s[i..][k] == s[i + k] && s[i..][k + 1] == s[i + k + 1] && s[i..][k + 2] == s[i + k + 2];
    }
  }

  /** In front of the first reference no other starts. */
  lemma BeforeFirst(s: string, p: Place)
    requires SetApart(s) && FirstReference(s) == Some(p)
    ensures Settled(s[..p.start])
  {
    Opening(s, p.start);
    forall i | 0 <= i < p.start - 1
      ensures !(s[i] == '%' && s[i + 1] == '(')
    {
      Opening(s, i);
    }
    assert p.start > 0 ==> s[p.start - 1] != '%';
  }

  lemma {:induction false} CloseBehind(u: string, s: string, i: nat)
    requires i <= |s|
    ensures CloseFrom(u + s, |u| + i) == |u| + CloseFrom(s, i)
    decreases |s| - i
  {
    if i < |s| {
      assert (u + s)[|u| + i] == s[i];
      if s[i] != ')' {
        CloseBehind(u, s, i + 1);
      }
    }
  }

  lemma {:induction false} LetterBehind(u: string, s: string, i: nat)
    ensures LetterFrom(u + s, |u| + i) == |u| + LetterFrom(s, i)
    decreases |s| - i
  {
    if i < |s| {
      assert (u + s)[|u| + i] == s[i];
      if !IsLetter(s[i]) {
        LetterBehind(u, s, i + 1);
      }
    }
  }

  /** Behind settled text references start where they do in the rest. */
  lemma AtBehind(u: string, s: string, t: string, i: int)
    requires t == u + s && Settled(u)
    ensures At(t, "%(", i) <==> i >= |u| && At(s, "%(", i - |u|)
  {
    Opening(t, i);
    Opening(s, i - |u|);
    assert 0 <= i < |u| ==> t[i] == u[i];
    assert 0 <= i + 1 < |u| ==> t[i + 1] == u[i + 1];
    assert 0 <= i - |u| < |s| ==> t[i] == s[i - |u|];
    assert 0 <= i + 1 - |u| < |s| ==> t[i + 1] == s[i + 1 - |u|];
  }

  lemma IndexBehind(u: string, s: string)
    requires Settled(u)
    ensures Index(u + s, "%(") == if Index(s, "%(") == -1 then -1 else |u| + Index(s, "%(")
  {
    var t := u + s;
    var k, e := Index(s, "%("), Index(t, "%(");
    AtBehind(u, s, t, |u| + k);
    AtBehind(u, s, t, e);
  }

  function Moved(p: Place, far: nat): Place {
    Place(p.start + far, p.end + far, p.typ + far)
  }

  /** Behind settled text the first reference is that of the rest. */
  lemma ReferenceBehind(u: string, s: string)
    requires Settled(u)
    ensures FirstReference(u + s) == if FirstReference(s).None? then None else Some(Moved(FirstReference(s).value, |u|))
  {
    IndexBehind(u, s);
    var start := Index(s, "%(");
    if start != -1 {
      Opening(s, start);
      CloseBehind(u, s, start + 2);
      LetterBehind(u, s, CloseFrom(s, start + 2) + 1);
    }
  }

  /** Such a text with some of its references already expanded. */
  ghost predicate PartlyExpanded(t: string) {
    exists u, s :: t == u + s && Settled(u) && SetApart(s) && WidthsIn(s)
  }

  lemma SlicesBehind(u: string, s: string, p: Place)
    requires p.start <= p.end < p.typ < |s|
    ensures var t := u + s;
            && t[..|u| + p.start] == u + s[..p.start] && t[|u| + p.typ] == s[p.typ] && t[|u| + p.typ + 1..] == s[p.typ + 1..]
            && t[|u| + p.end + 1..|u| + p.typ] == s[p.end + 1..p.typ]
  {
  }

  lemma ApplyPlain(env: Env, fmt: Formatter, before: string, name: string, flags: string, typ: char, after: string) returns (v: string)
    requires Plain(env, fmt) && (typ == 'd' ==> IsWidth(flags)) && Apply(env, fmt, before, name, flags, typ, after).More?
    ensures NoMark(v) && Apply(env, fmt, before, name, flags, typ, after).text == before + v + after
  {
    v := if typ == 'd' then fmt(flags, Atoi(env[name]).value) else env[name];
  }

  function Spliced(t: string, q: Place, v: string): string
    requires q.start <= q.typ < |t|
  {
    t[..q.start] + v + t[q.typ + 1..]
  }

  lemma TurnAt(env: Env, fmt: Formatter, t: string, q: Place) returns (v: string)
    requires Plain(env, fmt) && HasWidth(t) && FirstReference(t) == Some(q) && Expand(env, fmt, t).More?
    ensures q.typ < |t| && q.start <= q.typ && NoMark(v)
    ensures Expand(env, fmt, t).text == Spliced(t, q, v)
  {
    MoreApplies(env, fmt, t, q);
    PlaceFits(t, q);
    v := ApplyPlain(env, fmt, t[..q.start], t[q.start + 2..q.end], t[q.end + 1..q.typ], t[q.typ], t[q.typ + 1..]);
  }

  lemma HasWidthAt(t: string, q: Place)
    requires FirstReference(t) == Some(q) && NumberHasWidth(t, q)
    ensures HasWidth(t)
  {
  }

  lemma HasNoReference(t: string)
    requires FirstReference(t) == None
    ensures HasWidth(t)
  {
  }

  lemma NumberBehind(u: string, s: string, p: Place)
    requires NumberHasWidth(s, p) && p.start <= p.end < p.typ
    ensures NumberHasWidth(u + s, Moved(p, |u|))
  {
    if p.typ < |s| {
      SlicesBehind(u, s, p);
    }
  }

  lemma FirstNumber(s: string, p: Place)
    requires WidthsIn(s) && FirstReference(s) == Some(p)
    ensures NumberHasWidth(s, p) && p.start <= p.end < p.typ
  {
  }

  lemma WidthBehind(u: string, s: string)
    requires Settled(u) && WidthsIn(s)
    ensures HasWidth(u + s)
  {
    ReferenceBehind(u, s);
    match FirstReference(s)
    case None => HasNoReference(u + s);
    case Some(p) =>
      FirstNumber(s, p);
      NumberBehind(u, s, p);
      HasWidthAt(u + s, Moved(p, |u|));
  }

  lemma SplicedIs(t: string, q: Place, v: string, a: string, b: string)
    requires q.start <= q.typ < |t| && t[..q.start] == a && t[q.typ + 1..] == b
    ensures Spliced(t, q, v) == a + v + b
  {
  }

  lemma JoinedBehind(t: string, u: string, s: string, p: Place, v: string)
    requires t == u + s && p.start <= p.end < p.typ < |s|
    ensures Spliced(t, Moved(p, |u|), v) == u + s[..p.start] + v + Behind(s, Some(p))
  {
    SlicesBehind(u, s, p);
    SplicedIs(t, Moved(p, |u|), v, u + s[..p.start], s[p.typ + 1..]);
  }

  lemma TurnTextBehind(env: Env, fmt: Formatter, t: string, u: string, s: string, p: Place) returns (v: string)
    requires t == u + s && FirstReference(t) == Some(Moved(p, |u|)) && HasWidth(t) && p.start <= p.end < p.typ
    requires Plain(env, fmt) && Expand(env, fmt, t).More?
    ensures p.typ < |s| && NoMark(v) && Expand(env, fmt, t).text == u + s[..p.start] + v + Behind(s, Some(p))
  {
    v := TurnAt(env, fmt, t, Moved(p, |u|));
    JoinedBehind(t, u, s, p, v);
  }

  lemma ExpandKeepsApart(env: Env, fmt: Formatter, u: string, s: string)
    requires Plain(env, fmt) && Settled(u) && SetApart(s) && WidthsIn(s) && Expand(env, fmt, u + s).More?
    ensures PartlyExpanded(Expand(env, fmt, u + s).text)
  {
    MoreHasReference(env, fmt, u + s);
    ReferenceBehind(u, s);
    WidthBehind(u, s);
    var p := FirstReference(s).value;
    FirstNumber(s, p);
    var v := TurnTextBehind(env, fmt, u + s, u, s, p);
    NowApart(u, s, p, v);
  }

  lemma MoreHasReference(env: Env, fmt: Formatter, t: string)
    requires Expand(env, fmt, t).More?
    ensures FirstReference(t).Some?
  {
  }

  lemma NowApart(u: string, s: string, p: Place, v: string)
    requires Settled(u) && SetApart(s) && WidthsIn(s) && FirstReference(s) == Some(p) && p.typ < |s| && NoMark(v)
    ensures PartlyExpanded(u + s[..p.start] + v + Behind(s, Some(p)))
  {
    BeforeFirst(s, p);
    SettledJoined(u, s[..p.start]);
    SettledJoined(u + s[..p.start], v);
    SetApartSuffix(s, p.typ + 1);
    assert WidthsIn(Behind(s, FirstReference(s)));
  }

  lemma {:induction false} AlongKept(turn: string -> Turn, ok: string -> bool, kept: string -> bool, s: string, n: nat)
    requires forall t :: kept(t) ==> ok(t) && (turn(t).More? ==> kept(turn(t).text))
    requires kept(s)
    ensures Along(turn, ok, s, n)
    decreases n
  {
    if n > 0 && turn(s).More? {
      AlongKept(turn, ok, kept, turn(s).text, n - 1);
    }
  }

  lemma StaysPartlyExpanded(env: Env, fmt: Formatter, t: string)
    requires Plain(env, fmt) && PartlyExpanded(t)
    ensures HasWidth(t) && (Expand(env, fmt, t).More? ==> PartlyExpanded(Expand(env, fmt, t).text))
  {
    var u, r :| t == u + r && Settled(u) && SetApart(r) && WidthsIn(r);
    WidthBehind(u, r);
    if Expand(env, fmt, t).More? {
      ExpandKeepsApart(env, fmt, u, r);
    }
  }

  lemma AllStayPartlyExpanded(env: Env, fmt: Formatter, kept: string -> bool)
    requires Plain(env, fmt) && forall t :: kept(t) <==> PartlyExpanded(t)
    ensures forall t :: kept(t) ==> HasWidth(t) && (Expanding(env, fmt)(t).More? ==> kept(Expanding(env, fmt)(t).text))
  {
    forall t | kept(t)
      ensures HasWidth(t) && (Expanding(env, fmt)(t).More? ==> kept(Expanding(env, fmt)(t).text))
    {
      StaysPartlyExpanded(env, fmt, t);
    }
  }

  lemma NotYetExpanded(s: string)
    requires SetApart(s) && WidthsIn(s)
    ensures PartlyExpanded(s)
  {
    assert s == "" + s;
    ExpandedUpTo(s, "", s);
  }

  lemma ExpandedUpTo(t: string, u: string, s: string)
    requires t == u + s && Settled(u) && SetApart(s) && WidthsIn(s)
    ensures PartlyExpanded(t)
  {
  }

  /** Along a run on such a text the references left to be expanded are those it had in the first place. */
  lemma WidthsStay(env: Env, fmt: Formatter, s: string, n: nat)
    requires Plain(env, fmt) && SetApart(s) && WidthsIn(s)
    ensures WidthsOnly(env, fmt, s, n)
  {
    var kept: string -> bool := t => PartlyExpanded(t);
    NotYetExpanded(s);
    AllStayPartlyExpanded(env, fmt, kept);
    AlongKept(Expanding(env, fmt), HasWidth, kept, s, n);
  }

  /**
    If no value has a percent sign, no reference of the text stands right behind one, and all its
    references to numbers have just a width, Eval ends after no more turns than the text has percent
    signs, and one.
   */
  lemma PlainTerminates(env: Env, fmt: Formatter, s: string, n: nat)
    requires Plain(env, fmt) && SetApart(s) && WidthsIn(s) && Marks(s) < n
    ensures Run(env, fmt, s, n).Some? && Terminates(env, fmt, s)
  {
    WidthsStay(env, fmt, s, n);
    WidthsTerminate(env, fmt, s, n);
  }
}
