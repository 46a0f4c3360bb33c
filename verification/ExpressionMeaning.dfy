/**
  What a text with references to variables means when references are followed into the values, and when
  that comes to an end.
 */
module ExpressionMeaning {
  import opened DependencyGraph
  import opened ReferenceGraph
  import opened StringExpression
  import opened Text

  /** The values of the variables, as pieces. */
  type Values = map<string, seq<Piece>>

  /** The variables that the pieces refer to as strings. */
  function NamesIn(pieces: seq<Piece>): seq<string> {
    if pieces == [] then []
    else (if pieces[0].Str? then [pieces[0].name] else []) + NamesIn(pieces[1..])
  }

  /** What one piece is replaced by, if following references to the given depth suffices to tell. */
  function EvaluatePiece(values: Values, meaning: Piece -> Result, p: Piece, depth: nat): Option<Result>
    decreases depth, 0
  {
    match p
    case Lit(text) => Some(Ok(text))
    case Num(_, _) => Some(meaning(p))
    case Bad(_, _, _) => Some(meaning(p))
    case Str(name, _) =>
      if name !in values then Some(Unbound(name))
      else if depth == 0 then None
      else Evaluate(values, meaning, values[name], depth - 1)
  }

  /** The pieces replaced from left to right, and the pieces of their values too; the first error ends it. */
  function Evaluate(values: Values, meaning: Piece -> Result, pieces: seq<Piece>, depth: nat): Option<Result>
    decreases depth, |pieces|
  {
    if pieces == [] then Some(Ok(""))
    else Next(EvaluatePiece(values, meaning, pieces[0], depth), Evaluate(values, meaning, pieces[1..], depth))
  }

  function Next(a: Option<Result>, b: Option<Result>): Option<Result> {
    if a.None? || !a.value.Ok? then a
    else if b.None? then None
    else Some(Then(a.value, b.value))
  }

  lemma NextNext(a: Option<Result>, b: Option<Result>, c: Option<Result>)
    ensures Next(a, Next(b, c)) == Next(Next(a, b), c)
  {
    if a.Some? && a.value.Ok? && b.Some? && b.value.Ok? && c.Some? {
      ThenThen(a.value.text, b.value.text, c.value);
    }
  }

  lemma NextNothing(a: Option<Result>)
    ensures Next(a, Some(Ok(""))) == a && Next(Some(Ok("")), a) == a
  {
    if a.Some? {
      ThenNothing(a.value);
      assert a.value.Ok? ==> a.value.text + "" == a.value.text;
    }
  }

  /** A result stays what it is at any greater depth. */
  lemma {:induction false} EvaluateDeeper(values: Values, meaning: Piece -> Result, pieces: seq<Piece>, d: nat, e: nat)
    requires d <= e && Evaluate(values, meaning, pieces, d).Some?
    ensures Evaluate(values, meaning, pieces, e) == Evaluate(values, meaning, pieces, d)
    decreases d, |pieces|
  {
    if pieces != [] {
      PieceDeeper(values, meaning, pieces[0], d, e);
      if EvaluatePiece(values, meaning, pieces[0], d).value.Ok? {
        EvaluateDeeper(values, meaning, pieces[1..], d, e);
      }
    }
  }

  lemma {:induction false} PieceDeeper(values: Values, meaning: Piece -> Result, p: Piece, d: nat, e: nat)
    requires d <= e && EvaluatePiece(values, meaning, p, d).Some?
    ensures EvaluatePiece(values, meaning, p, e) == EvaluatePiece(values, meaning, p, d)
    decreases d, 0
  {
    if p.Str? && p.name in values {
      EvaluateDeeper(values, meaning, values[p.name], d - 1, e - 1);
    }
  }

  lemma EvaluateAgrees(values: Values, meaning: Piece -> Result, pieces: seq<Piece>, d: nat, e: nat)
    requires Evaluate(values, meaning, pieces, d).Some? && Evaluate(values, meaning, pieces, e).Some?
    ensures Evaluate(values, meaning, pieces, d) == Evaluate(values, meaning, pieces, e)
  {
    EvaluateDeeper(values, meaning, pieces, d, if d <= e then e else d);
    EvaluateDeeper(values, meaning, pieces, e, if d <= e then e else d);
  }

  lemma {:induction false} EvaluateConcat(values: Values, meaning: Piece -> Result, p: seq<Piece>, q: seq<Piece>, depth: nat)
    ensures Evaluate(values, meaning, p + q, depth) ==
            Next(Evaluate(values, meaning, p, depth), Evaluate(values, meaning, q, depth))
    decreases |p|
  {
    if p == [] {
      assert p + q == q;
      NextNothing(Evaluate(values, meaning, q, depth));
    } else {
      assert (p + q)[1..] == p[1..] + q;
      EvaluateConcat(values, meaning, p[1..], q, depth);
      NextNext(EvaluatePiece(values, meaning, p[0], depth), Evaluate(values, meaning, p[1..], depth),
               Evaluate(values, meaning, q, depth));
    }
  }

  lemma EvaluateOne(values: Values, meaning: Piece -> Result, p: Piece, depth: nat)
    ensures Evaluate(values, meaning, [p], depth) == EvaluatePiece(values, meaning, p, depth)
  {
    assert [p][1..] == [] && Evaluate(values, meaning, [], depth) == Some(Ok(""));
    NextNothing(EvaluatePiece(values, meaning, p, depth));
  }

  // ---------------------------------------------------------------- when the result is a text

  /** The variables that the value of each variable refers to. */
  function References(values: Values): Graph {
    map n | n in values :: NamesIn(values[n])
  }

  predicate IsOther(p: Piece) {
    p.Num? || p.Bad?
  }

  /** All numbers referred to are such, and there are references to nothing but strings and numbers. */
  predicate NumbersHold(meaning: Piece -> Result, pieces: seq<Piece>) {
    forall p | p in pieces && IsOther(p) :: meaning(p).Ok?
  }

  /** The pieces lead to variables that exist, and there and in the pieces all numbers are such. */
  ghost predicate NothingMissing(values: Values, meaning: Piece -> Result, pieces: seq<Piece>) {
    && NumbersHold(meaning, pieces)
    && forall n | LeadsTo(References(values), NamesIn(pieces), n) :: n in values && NumbersHold(meaning, values[n])
  }

  /** The pieces lead into no cycle of variables that refer to one another. */
  ghost predicate NoCycle(values: Values, pieces: seq<Piece>) {
    !LeadsIntoCycle(References(values), NamesIn(pieces))
  }

  predicate Expands(values: Values, meaning: Piece -> Result, pieces: seq<Piece>, depth: nat) {
    var r := Evaluate(values, meaning, pieces, depth);
    r.Some? && r.value.Ok?
  }

  predicate NameExpands(values: Values, meaning: Piece -> Result, name: string, depth: nat) {
    name in values && depth > 0 && Expands(values, meaning, values[name], depth - 1)
  }

  lemma {:induction false} ExpandsPieces(values: Values, meaning: Piece -> Result, pieces: seq<Piece>, depth: nat)
    ensures Expands(values, meaning, pieces, depth) <==>
            NumbersHold(meaning, pieces) && forall n | n in NamesIn(pieces) :: NameExpands(values, meaning, n, depth)
    decreases |pieces|
  {
    if pieces != [] {
      var p, rest := pieces[0], pieces[1..];
      ExpandsPieces(values, meaning, rest, depth);
      var a := EvaluatePiece(values, meaning, p, depth);
      assert Expands(values, meaning, pieces, depth) <==> a.Some? && a.value.Ok? && Expands(values, meaning, rest, depth);
      assert a.Some? && a.value.Ok? <==>
        (IsOther(p) ==> meaning(p).Ok?) && (p.Str? ==> NameExpands(values, meaning, p.name, depth));
      assert forall q :: q in pieces <==> q == p || q in rest;
      assert forall n :: n in NamesIn(pieces) <==> (p.Str? && n == p.name) || n in NamesIn(rest);
    }
  }

  lemma {:induction false} ExpandsBounded(values: Values, meaning: Piece -> Result, pieces: seq<Piece>, depth: nat)
    requires Expands(values, meaning, pieces, depth)
    ensures Bounded(References(values), NamesIn(pieces), depth)
    decreases depth
  {
    ExpandsPieces(values, meaning, pieces, depth);
    forall n | n in NamesIn(pieces) && n in References(values)
      ensures depth > 0 && Bounded(References(values), NamesIn(values[n]), depth - 1)
    {
      assert NameExpands(values, meaning, n, depth);
      ExpandsBounded(values, meaning, values[n], depth - 1);
    }
  }

  lemma {:induction false} WalkExpands(values: Values, meaning: Piece -> Result, pieces: seq<Piece>, depth: nat, p: seq<string>)
    requires Expands(values, meaning, pieces, depth) && IsWalk(References(values), p) && p[0] in NamesIn(pieces)
    ensures p[|p| - 1] in values && NumbersHold(meaning, values[p[|p| - 1]])
    decreases |p|
  {
    ExpandsPieces(values, meaning, pieces, depth);
    assert NameExpands(values, meaning, p[0], depth);
    ExpandsPieces(values, meaning, values[p[0]], depth - 1);
    if |p| > 1 {
      WalkTail(References(values), p);
      WalkExpands(values, meaning, values[p[0]], depth - 1, p[1..]);
    }
  }

  /** Nothing is missing where the pieces lead to a text. */
  lemma ExpandsSound(values: Values, meaning: Piece -> Result, pieces: seq<Piece>, depth: nat)
    requires Expands(values, meaning, pieces, depth)
    ensures NothingMissing(values, meaning, pieces) && NoCycle(values, pieces)
  {
    ExpandsPieces(values, meaning, pieces, depth);
    forall n | LeadsTo(References(values), NamesIn(pieces), n)
      ensures n in values && NumbersHold(meaning, values[n])
    {
      var p :| IsWalk(References(values), p) && p[0] in NamesIn(pieces) && p[|p| - 1] == n;
      WalkExpands(values, meaning, pieces, depth, p);
    }
    ExpandsBounded(values, meaning, pieces, depth);
    BoundedAcyclic(References(values), NamesIn(pieces), depth);
  }

  /** Nor is it in the value of a variable that the pieces refer to. */
  lemma NothingMissingBehind(values: Values, meaning: Piece -> Result, pieces: seq<Piece>, name: string)
    requires NothingMissing(values, meaning, pieces) && name in NamesIn(pieces)
    ensures name in values && NothingMissing(values, meaning, values[name])
  {
    var g := References(values);
    LeadsToOwn(g, NamesIn(pieces), name);
    forall n | LeadsTo(g, NamesIn(values[name]), n)
      ensures n in values && NumbersHold(meaning, values[n])
    {
      LeadsFurther(g, NamesIn(pieces), name, n);
    }
  }

  lemma {:induction false} BoundedExpands(values: Values, meaning: Piece -> Result, pieces: seq<Piece>, depth: nat)
    requires NothingMissing(values, meaning, pieces) && Bounded(References(values), NamesIn(pieces), depth)
    ensures Expands(values, meaning, pieces, depth)
    decreases depth
  {
    forall n | n in NamesIn(pieces)
      ensures NameExpands(values, meaning, n, depth)
    {
      NothingMissingBehind(values, meaning, pieces, n);
      assert n in References(values);
      BoundedExpands(values, meaning, values[n], depth - 1);
    }
    ExpandsPieces(values, meaning, pieces, depth);
  }

  /** The result is a text exactly if the pieces lead to nothing that is missing and into no cycle. */
  lemma ExpandsIff(values: Values, meaning: Piece -> Result, pieces: seq<Piece>)
    ensures Expands(values, meaning, pieces, |values|) <==> NothingMissing(values, meaning, pieces) && NoCycle(values, pieces)
  {
    if Expands(values, meaning, pieces, |values|) {
      ExpandsSound(values, meaning, pieces, |values|);
    } else if NothingMissing(values, meaning, pieces) && NoCycle(values, pieces) {
      assert References(values).Keys == values.Keys;
      AcyclicBounded(References(values), NamesIn(pieces));
      BoundedExpands(values, meaning, pieces, |values|);
    }
  }

  lemma NothingMissingRest(values: Values, meaning: Piece -> Result, pieces: seq<Piece>)
    requires NothingMissing(values, meaning, pieces) && pieces != []
    ensures NothingMissing(values, meaning, pieces[1..]) && (IsOther(pieces[0]) ==> meaning(pieces[0]).Ok?)
  {
    var g := References(values);
    assert pieces[0] in pieces;
    forall n | LeadsTo(g, NamesIn(pieces[1..]), n)
      ensures n in values && NumbersHold(meaning, values[n])
    {
      var p :| IsWalk(g, p) && p[0] in NamesIn(pieces[1..]) && p[|p| - 1] == n;
      assert p[0] in NamesIn(pieces);
    }
  }

  /** Where nothing is missing no result is an error. */
  lemma {:induction false} NeverFails(values: Values, meaning: Piece -> Result, pieces: seq<Piece>, depth: nat)
    requires NothingMissing(values, meaning, pieces) && Evaluate(values, meaning, pieces, depth).Some?
    ensures Expands(values, meaning, pieces, depth)
    decreases depth, |pieces|
  {
    if pieces != [] {
      var p := pieces[0];
      NothingMissingRest(values, meaning, pieces);
      if p.Str? {
        assert p.name in NamesIn(pieces);
        NothingMissingBehind(values, meaning, pieces, p.name);
        NeverFails(values, meaning, values[p.name], depth - 1);
      }
      NeverFails(values, meaning, pieces[1..], depth);
    }
  }

  // ---------------------------------------------------------------- when there is a result

  /** The piece is replaced by a text. */
  ghost predicate BecomesText(values: Values, meaning: Piece -> Result, p: Piece) {
    NothingMissing(values, meaning, [p]) && NoCycle(values, [p])
  }

  /** The pieces up to the first that is not replaced by a text. */
  ghost function LivePart(values: Values, meaning: Piece -> Result, pieces: seq<Piece>): seq<Piece> {
    if pieces == [] then []
    else if BecomesText(values, meaning, pieces[0]) then [pieces[0]] + LivePart(values, meaning, pieces[1..])
    else [pieces[0]]
  }

  /** The references that are followed: nothing in front of them fails or goes on for ever. */
  ghost function LiveNames(values: Values, meaning: Piece -> Result, pieces: seq<Piece>): seq<string> {
    NamesIn(LivePart(values, meaning, pieces))
  }

  ghost function LiveReferences(values: Values, meaning: Piece -> Result): Graph {
    map n | n in values :: LiveNames(values, meaning, values[n])
  }

  /** Of the references that are followed none leads into a cycle of such references. */
  ghost predicate NoLiveCycle(values: Values, meaning: Piece -> Result, pieces: seq<Piece>) {
    !LeadsIntoCycle(LiveReferences(values, meaning), LiveNames(values, meaning, pieces))
  }

  /** A piece with a result becomes a text or fails. */
  lemma PieceText(values: Values, meaning: Piece -> Result, p: Piece, depth: nat)
    requires EvaluatePiece(values, meaning, p, depth).Some?
    ensures EvaluatePiece(values, meaning, p, depth).value.Ok? <==> BecomesText(values, meaning, p)
  {
    EvaluateOne(values, meaning, p, depth);
    ExpandsIff(values, meaning, [p]);
    if Expands(values, meaning, [p], depth) {
      ExpandsSound(values, meaning, [p], depth);
    } else if BecomesText(values, meaning, p) {
      EvaluateAgrees(values, meaning, [p], depth, |values|);
    }
  }

  predicate NameEvaluates(values: Values, meaning: Piece -> Result, name: string, depth: nat) {
    name in values ==> depth > 0 && Evaluate(values, meaning, values[name], depth - 1).Some?
  }

  lemma LiveStep(values: Values, meaning: Piece -> Result, pieces: seq<Piece>, name: string)
    requires pieces != []
    ensures name in LiveNames(values, meaning, pieces) <==>
            || (pieces[0].Str? && name == pieces[0].name)
            || (BecomesText(values, meaning, pieces[0]) && name in LiveNames(values, meaning, pieces[1..]))
  {
    var p, rest := pieces[0], LivePart(values, meaning, pieces[1..]);
    assert ([p] + rest)[1..] == rest && NamesIn([p][1..]) == [];
  }

  /** The pieces have a result exactly if the values of all references followed do. */
  lemma {:induction false} LiveEvaluates(values: Values, meaning: Piece -> Result, pieces: seq<Piece>, depth: nat)
    ensures Evaluate(values, meaning, pieces, depth).Some? <==>
            forall n | n in LiveNames(values, meaning, pieces) :: NameEvaluates(values, meaning, n, depth)
    decreases |pieces|
  {
    if pieces != [] {
      var p, rest := pieces[0], pieces[1..];
      LiveEvaluates(values, meaning, rest, depth);
      forall n
        ensures n in LiveNames(values, meaning, pieces) <==>
                (p.Str? && n == p.name) || (BecomesText(values, meaning, p) && n in LiveNames(values, meaning, rest))
      {
        LiveStep(values, meaning, pieces, n);
      }
      assert p.Str? ==> (EvaluatePiece(values, meaning, p, depth).Some? <==> NameEvaluates(values, meaning, p.name, depth));
      if EvaluatePiece(values, meaning, p, depth).Some? {
        PieceText(values, meaning, p, depth);
      }
    }
  }

  lemma {:induction false} EvaluatesBounded(values: Values, meaning: Piece -> Result, pieces: seq<Piece>, depth: nat)
    ensures Evaluate(values, meaning, pieces, depth).Some? <==>
            Bounded(LiveReferences(values, meaning), LiveNames(values, meaning, pieces), depth)
    decreases depth
  {
    LiveEvaluates(values, meaning, pieces, depth);
    var g := LiveReferences(values, meaning);
    forall n | n in LiveNames(values, meaning, pieces) && n in g
      ensures NameEvaluates(values, meaning, n, depth) <==> depth > 0 && Bounded(g, g[n], depth - 1)
    {
      if depth > 0 {
        EvaluatesBounded(values, meaning, values[n], depth - 1);
      }
    }
  }

  /** There is a result exactly if no reference followed leads into a cycle, and then the number of variables is depth enough. */
  lemma EvaluatesIff(values: Values, meaning: Piece -> Result, pieces: seq<Piece>, depth: nat)
    ensures Evaluate(values, meaning, pieces, |values|).Some? <==> NoLiveCycle(values, meaning, pieces)
    ensures Evaluate(values, meaning, pieces, depth).Some? ==> NoLiveCycle(values, meaning, pieces)
  {
    var g, names := LiveReferences(values, meaning), LiveNames(values, meaning, pieces);
    assert g.Keys == values.Keys;
    EvaluatesBounded(values, meaning, pieces, depth);
    EvaluatesBounded(values, meaning, pieces, |values|);
    if Evaluate(values, meaning, pieces, depth).Some? {
      BoundedAcyclic(g, names, depth);
    }
    if NoLiveCycle(values, meaning, pieces) {
      AcyclicBounded(g, names);
    } else if Bounded(g, names, |values|) {
      BoundedAcyclic(g, names, |values|);
    }
  }
}
