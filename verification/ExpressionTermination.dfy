/**
  When the expansion of %(name)s and %(name)d comes to an end, and with what (config/string_expression.go:44-91),
  for texts and values put together from literal text and references.
 */
module ExpressionTermination {
  import opened ExpressionMeaning
  import opened StringExpression
  import opened Text

  /** A piece as it can be written; a variable that it refers to has its value described if it is bound. */
  predicate Proper(values: Values, bound: set<string>, p: Piece) {
    WellFormed(p) && (p.Str? && p.name in bound ==> p.name in values)
  }

  predicate IsTemplate(values: Values, bound: set<string>, pieces: seq<Piece>) {
    forall p | p in pieces :: Proper(values, bound, p)
  }

  predicate Closed(values: Values, bound: set<string>) {
    forall n | n in values :: IsTemplate(values, bound, values[n])
  }

  /**
    The values of the variables that the pieces lead to, if they exist, are those of the environment;
    other variables may have any value.
   */
  predicate Describes(values: Values, env: Env, pieces: seq<Piece>) {
    && IsTemplate(values, env.Keys, pieces)
    && Closed(values, env.Keys)
    && Bindings(values, env)
  }

  predicate Bindings(values: Values, env: Env) {
    forall n | n in values :: n in env && env[n] == Template(values[n])
  }

  // ---------------------------------------------------------------- the loop on pieces

  /** A text of which a part without percent signs is settled, and the rest are pieces. */
  datatype State = State(pre: string, pieces: seq<Piece>)

  datatype Moved = Ends(result: Result) | Skips(to: State) | Replaces(to: State)

  /** Literal text is passed over; a reference is replaced by the value of its variable or by a number, or fails. */
  function Move(values: Values, meaning: Piece -> Result, s: State): Moved {
    if s.pieces == [] then Ends(Ok(s.pre))
    else
      match s.pieces[0]
      case Lit(text) => Skips(State(s.pre + text, s.pieces[1..]))
      case Str(name, _) =>
        if name in values then Replaces(State(s.pre, values[name] + s.pieces[1..])) else Ends(Unbound(name))
      case _ =>
        var m := meaning(s.pieces[0]);
        if m.Ok? then Replaces(State(s.pre + m.text, s.pieces[1..])) else Ends(m)
  }

  function Moving(values: Values, meaning: Piece -> Result): State -> Moved {
    s => Move(values, meaning, s)
  }

  /** Where such moves end with at most n replacements, counting the end as one. */
  function Unfold(move: State -> Moved, s: State, n: nat): Option<Result>
    decreases n, |s.pieces|
  {
    if n == 0 then None
    else
      match move(s)
      case Ends(r) => Some(r)
      case Skips(t) => if |t.pieces| < |s.pieces| then Unfold(move, t, n) else None
      case Replaces(t) => Unfold(move, t, n - 1)
  }

  /** A turn does on the text of a state what a move does on the state, and skipping leaves the text as it is. */
  ghost predicate Simulates(turn: string -> Turn, text: State -> string, good: State -> bool, move: State -> Moved) {
    forall s {:trigger move(s)} :: good(s) ==>
      match move(s)
      case Ends(r) => turn(text(s)) == Done(r)
      case Skips(t) => good(t) && |t.pieces| < |s.pieces| && text(t) == text(s)
      case Replaces(t) => good(t) && turn(text(s)) == More(text(t))
  }

  /** The loop does on the text what the moves do on the pieces. */
  lemma {:induction false} LoopUnfolds(turn: string -> Turn, text: State -> string, good: State -> bool, move: State -> Moved, s: State, n: nat)
    requires Simulates(turn, text, good, move) && good(s)
    ensures Loop(turn, text(s), n) == Unfold(move, s, n)
    decreases n, |s.pieces|
  {
    if n > 0 {
      LoopTurns(turn, text(s), n - 1);
      match move(s) {
        case Ends(_) =>
        case Skips(t) => LoopUnfolds(turn, text, good, move, t, n);
        case Replaces(t) => LoopUnfolds(turn, text, good, move, t, n - 1);
      }
    }
  }

  function TextOf(s: State): string {
    s.pre + Template(s.pieces)
  }

  predicate Good(values: Values, bound: set<string>, s: State) {
    NoMark(s.pre) && IsTemplate(values, bound, s.pieces)
  }

  lemma {:induction false} TemplateConcat(p: seq<Piece>, q: seq<Piece>)
    ensures Template(p + q) == Template(p) + Template(q)
    decreases |p|
  {
    if p == [] {
      assert p + q == q;
    } else {
      assert (p + q)[1..] == p[1..] + q;
      TemplateConcat(p[1..], q);
    }
  }

  lemma Regrouped(a: string, b: string, c: string)
    ensures a + (b + c) == a + b + c
  {
  }

  lemma FirstPiece(s: State)
    requires s.pieces != []
    ensures TextOf(s) == s.pre + (Written(s.pieces[0]) + Template(s.pieces[1..]))
  {
  }

  lemma MoveIsGood(values: Values, bound: set<string>, meaning: Piece -> Result, s: State)
    requires Closed(values, bound) && Good(values, bound, s)
    requires forall p: Piece :: WellFormed(p) && IsOther(p) && meaning(p).Ok? ==> NoMark(meaning(p).text)
    ensures !Move(values, meaning, s).Ends? ==> Good(values, bound, Move(values, meaning, s).to)
    ensures s.pieces != [] ==> Proper(values, bound, s.pieces[0])
  {
    assert s.pieces != [] ==> s.pieces[0] in s.pieces;
  }

  lemma LitMove(pre: string, text: string, rest: string)
    ensures pre + (Written(Lit(text)) + rest) == pre + text + rest
  {
    Regrouped(pre, text, rest);
  }

  lemma StrMove(env: Env, fmt: Formatter, values: Values, s: State)
    requires Bindings(values, env) && Good(values, env.Keys, s) && s.pieces != [] && s.pieces[0].Str? && Proper(values, env.Keys, s.pieces[0])
    ensures match Move(values, Meanings(env, fmt), s)
            case Replaces(t) => Expand(env, fmt, TextOf(s)) == More(TextOf(t))
            case Ends(r) => Expand(env, fmt, TextOf(s)) == Done(r)
            case Skips(_) => false
  {
    var name, rest := s.pieces[0].name, s.pieces[1..];
    FirstPiece(s);
    TurnOnPiece(env, fmt, s.pre, s.pieces[0], Template(rest));
    if name in values {
      TemplateConcat(values[name], rest);
      Regrouped(s.pre, env[name], Template(rest));
    }
  }

  lemma OtherMove(env: Env, fmt: Formatter, values: Values, s: State)
    requires Good(values, env.Keys, s) && s.pieces != [] && IsOther(s.pieces[0]) && WellFormed(s.pieces[0])
    ensures match Move(values, Meanings(env, fmt), s)
            case Replaces(t) => Expand(env, fmt, TextOf(s)) == More(TextOf(t))
            case Ends(r) => Expand(env, fmt, TextOf(s)) == Done(r)
            case Skips(_) => false
  {
    FirstPiece(s);
    TurnOnPiece(env, fmt, s.pre, s.pieces[0], Template(s.pieces[1..]));
  }

  /** A turn of Eval and a move. */
  lemma MoveTurns(env: Env, fmt: Formatter, values: Values, s: State)
    requires Bindings(values, env) && Closed(values, env.Keys) && PlainNumbers(fmt) && Good(values, env.Keys, s)
    ensures match Move(values, Meanings(env, fmt), s)
            case Ends(r) => Expand(env, fmt, TextOf(s)) == Done(r)
            case Skips(t) => |t.pieces| < |s.pieces| && TextOf(t) == TextOf(s)
            case Replaces(t) => Expand(env, fmt, TextOf(s)) == More(TextOf(t))
    ensures !Move(values, Meanings(env, fmt), s).Ends? ==> Good(values, env.Keys, Move(values, Meanings(env, fmt), s).to)
  {
    MoveIsGood(values, env.Keys, Meanings(env, fmt), s);
    if s.pieces == [] {
      assert TextOf(s) == s.pre;
      NoReference(env, fmt, s.pre);
    } else {
      match s.pieces[0] {
        case Lit(text) =>
          FirstPiece(s);
          LitMove(s.pre, text, Template(s.pieces[1..]));
        case Str(_, _) => StrMove(env, fmt, values, s);
        case _ => OtherMove(env, fmt, values, s);
      }
    }
  }

  lemma RunUnfolds(env: Env, fmt: Formatter, values: Values, pieces: seq<Piece>, n: nat)
    requires Describes(values, env, pieces) && PlainNumbers(fmt)
    ensures Run(env, fmt, Template(pieces), n) == Unfold(Moving(values, Meanings(env, fmt)), State("", pieces), n)
  {
    var good: State -> bool := s => Good(values, env.Keys, s);
    var text: State -> string := s => TextOf(s);
    var move := Moving(values, Meanings(env, fmt));
    forall s {:trigger move(s)} | good(s)
      ensures match move(s)
              case Ends(r) => Expanding(env, fmt)(text(s)) == Done(r)
              case Skips(t) => good(t) && |t.pieces| < |s.pieces| && text(t) == text(s)
              case Replaces(t) => good(t) && Expanding(env, fmt)(text(s)) == More(text(t))
    {
      MoveTurns(env, fmt, values, s);
    }
    LoopUnfolds(Expanding(env, fmt), text, good, move, State("", pieces), n);
    assert TextOf(State("", pieces)) == Template(pieces);
  }

  // ---------------------------------------------------------------- the loop and the meaning

  lemma LitUnfold(values: Values, meaning: Piece -> Result, pre: string, text: string, rest: seq<Piece>, n: nat)
    ensures Unfold(Moving(values, meaning), State(pre, [Lit(text)] + rest), n) == Unfold(Moving(values, meaning), State(pre + text, rest), n)
  {
    assert ([Lit(text)] + rest)[1..] == rest;
  }

  lemma StrUnfold(values: Values, meaning: Piece -> Result, pre: string, name: string, flags: string, rest: seq<Piece>, n: nat)
    ensures Unfold(Moving(values, meaning), State(pre, [Str(name, flags)] + rest), n + 1) ==
            if name in values then Unfold(Moving(values, meaning), State(pre, values[name] + rest), n) else Some(Unbound(name))
  {
    assert ([Str(name, flags)] + rest)[1..] == rest;
  }

  lemma OtherUnfold(values: Values, meaning: Piece -> Result, pre: string, p: Piece, rest: seq<Piece>, n: nat)
    requires IsOther(p)
    ensures Unfold(Moving(values, meaning), State(pre, [p] + rest), n + 1) ==
            if meaning(p).Ok? then Unfold(Moving(values, meaning), State(pre + meaning(p).text, rest), n) else Some(meaning(p))
  {
    assert ([p] + rest)[1..] == rest;
  }

  /** Where the moves go on once they have dealt with pieces whose result is r. */
  function After(values: Values, meaning: Piece -> Result, pre: string, r: Result, more: seq<Piece>, n: nat): Option<Result> {
    if r.Ok? then Unfold(Moving(values, meaning), State(pre + r.text, more), n) else Some(r)
  }

  function TurnsOfPiece(values: Values, p: Piece, depth: nat): nat
    decreases depth, 0
  {
    match p
    case Lit(_) => 0
    case Num(_, _) => 1
    case Bad(_, _, _) => 1
    case Str(name, _) => if name in values && depth > 0 then 1 + Turns(values, values[name], depth - 1) else 0
  }

  /** How many turns it takes to replace pieces that become text. */
  function Turns(values: Values, pieces: seq<Piece>, depth: nat): nat
    decreases depth, |pieces|
  {
    if pieces == [] then 0 else TurnsOfPiece(values, pieces[0], depth) + Turns(values, pieces[1..], depth)
  }

  lemma {:induction false} PieceUnfoldsTo(values: Values, meaning: Piece -> Result, pre: string, p: Piece, depth: nat, more: seq<Piece>, n: nat)
    requires EvaluatePiece(values, meaning, p, depth).Some? && n > 0
    ensures Unfold(Moving(values, meaning), State(pre, [p] + more), n + TurnsOfPiece(values, p, depth)) ==
            After(values, meaning, pre, EvaluatePiece(values, meaning, p, depth).value, more, n)
    decreases depth, 0
  {
    match p
    case Lit(text) => LitUnfold(values, meaning, pre, text, more, n);
    case Num(_, _) => OtherUnfold(values, meaning, pre, p, more, n);
    case Bad(_, _, _) => OtherUnfold(values, meaning, pre, p, more, n);
    case Str(name, flags) =>
      if name in values {
        StrUnfold(values, meaning, pre, name, flags, more, n + Turns(values, values[name], depth - 1));
        UnfoldsTo(values, meaning, pre, values[name], depth - 1, more, n);
      } else {
        StrUnfold(values, meaning, pre, name, flags, more, n - 1);
      }
  }

  /** In some turns the loop comes to the result of the pieces, whatever follows them. */
  lemma {:induction false} UnfoldsTo(values: Values, meaning: Piece -> Result, pre: string, pieces: seq<Piece>, depth: nat, more: seq<Piece>, n: nat)
    requires Evaluate(values, meaning, pieces, depth).Some? && n > 0
    ensures Unfold(Moving(values, meaning), State(pre, pieces + more), n + Turns(values, pieces, depth)) ==
            After(values, meaning, pre, Evaluate(values, meaning, pieces, depth).value, more, n)
    decreases depth, |pieces|
  {
    if pieces == [] {
      assert pieces + more == more && pre + "" == pre;
    } else {
      var p, rest := pieces[0], pieces[1..];
      var a, b := EvaluatePiece(values, meaning, p, depth), Evaluate(values, meaning, rest, depth);
      assert pieces + more == [p] + (rest + more);
      PieceUnfoldsTo(values, meaning, pre, p, depth, rest + more, n + Turns(values, rest, depth));
      if a.value.Ok? {
        UnfoldsTo(values, meaning, pre + a.value.text, rest, depth, more, n);
        AfterBoth(values, meaning, pre, a.value.text, b.value, more, n);
      }
    }
  }

  lemma AfterBoth(values: Values, meaning: Piece -> Result, pre: string, text: string, r: Result, more: seq<Piece>, n: nat)
    ensures After(values, meaning, pre, Then(Ok(text), r), more, n) == After(values, meaning, pre + text, r, more, n)
  {
    if r.Ok? {
      Regrouped(pre, text, r.text);
    }
  }

  /** If the moves end with at most n replacements, so does following references to the depth n. */
  lemma {:induction false} UnfoldEvaluates(values: Values, meaning: Piece -> Result, pre: string, pieces: seq<Piece>, n: nat)
    requires Unfold(Moving(values, meaning), State(pre, pieces), n).Some?
    ensures Evaluate(values, meaning, pieces, n).Some?
    decreases n, |pieces|
  {
    if pieces != [] {
      var p, rest := pieces[0], pieces[1..];
      assert pieces == [p] + rest;
      match p {
        case Lit(text) =>
          LitUnfold(values, meaning, pre, text, rest, n);
          UnfoldEvaluates(values, meaning, pre + text, rest, n);
        case Str(name, flags) =>
          StrUnfold(values, meaning, pre, name, flags, rest, n - 1);
          if name in values {
            UnfoldEvaluates(values, meaning, pre, values[name] + rest, n - 1);
            EvaluateConcat(values, meaning, values[name], rest, n - 1);
            if Evaluate(values, meaning, rest, n - 1).Some? {
              EvaluateDeeper(values, meaning, rest, n - 1, n);
            }
          }
        case _ =>
          OtherUnfold(values, meaning, pre, p, rest, n - 1);
          if meaning(p).Ok? {
            UnfoldEvaluates(values, meaning, pre + meaning(p).text, rest, n - 1);
            EvaluateDeeper(values, meaning, rest, n - 1, n);
          }
      }
    }
  }

  // ---------------------------------------------------------------- the results

  lemma UnfoldsToResult(values: Values, meaning: Piece -> Result, pieces: seq<Piece>, depth: nat, n: nat)
    requires Evaluate(values, meaning, pieces, depth).Some? && n == 1 + Turns(values, pieces, depth)
    ensures Unfold(Moving(values, meaning), State("", pieces), n) == Evaluate(values, meaning, pieces, depth)
  {
    UnfoldsTo(values, meaning, "", pieces, depth, [], 1);
    assert pieces + [] == pieces;
    var r := Evaluate(values, meaning, pieces, depth).value;
    assert r.Ok? ==> "" + r.text == r.text;
  }

  /** Eval comes to the result of the pieces. */
  lemma EvaluatesRuns(env: Env, fmt: Formatter, values: Values, pieces: seq<Piece>, depth: nat) returns (n: nat)
    requires Describes(values, env, pieces) && PlainNumbers(fmt) && Evaluate(values, Meanings(env, fmt), pieces, depth).Some?
    ensures Run(env, fmt, Template(pieces), n) == Evaluate(values, Meanings(env, fmt), pieces, depth)
  {
    n := 1 + Turns(values, pieces, depth);
    UnfoldsToResult(values, Meanings(env, fmt), pieces, depth, n);
    RunUnfolds(env, fmt, values, pieces, n);
  }

  lemma RunEvaluates(env: Env, fmt: Formatter, values: Values, pieces: seq<Piece>, n: nat)
    requires Describes(values, env, pieces) && PlainNumbers(fmt) && Run(env, fmt, Template(pieces), n).Some?
    ensures Evaluate(values, Meanings(env, fmt), pieces, |values|) == Run(env, fmt, Template(pieces), n)
  {
    var meaning := Meanings(env, fmt);
    RunUnfolds(env, fmt, values, pieces, n);
    UnfoldEvaluates(values, meaning, "", pieces, n);
    EvaluatesIff(values, meaning, pieces, n);
    var m := EvaluatesRuns(env, fmt, values, pieces, |values|);
    SameResult(Expanding(env, fmt), Template(pieces), n, m);
  }

  lemma SameResult(turn: string -> Turn, s: string, n: nat, m: nat)
    requires Loop(turn, s, n).Some? && Loop(turn, s, m).Some?
    ensures Loop(turn, s, n) == Loop(turn, s, m)
  {
    LoopLonger(turn, s, n, if n <= m then m else n);
    LoopLonger(turn, s, m, if n <= m then m else n);
  }

  /**
    Eval ends with a text or an error if and only if replacing the references from left to right, and
    those in the values, to a depth of as many references as there are variables gives just that.
   */
  lemma EvalIff(env: Env, fmt: Formatter, values: Values, pieces: seq<Piece>, r: Result)
    requires Describes(values, env, pieces) && PlainNumbers(fmt)
    ensures (exists n: nat :: Run(env, fmt, Template(pieces), n) == Some(r)) <==>
            Evaluate(values, Meanings(env, fmt), pieces, |values|) == Some(r)
  {
    if n: nat :| Run(env, fmt, Template(pieces), n) == Some(r) {
      RunEvaluates(env, fmt, values, pieces, n);
    }
    if Evaluate(values, Meanings(env, fmt), pieces, |values|) == Some(r) {
      var n := EvaluatesRuns(env, fmt, values, pieces, |values|);
    }
  }

  /**
    Eval ends if and only if no reference that it follows leads into a cycle of references that it
    follows, whether or not variables are missing.
   */
  lemma TerminatesIff(env: Env, fmt: Formatter, values: Values, pieces: seq<Piece>)
    requires Describes(values, env, pieces) && PlainNumbers(fmt)
    ensures Terminates(env, fmt, Template(pieces)) <==> NoLiveCycle(values, Meanings(env, fmt), pieces)
  {
    EvaluatesIff(values, Meanings(env, fmt), pieces, |values|);
    if Terminates(env, fmt, Template(pieces)) {
      var n: nat :| Run(env, fmt, Template(pieces), n).Some?;
      RunEvaluates(env, fmt, values, pieces, n);
    }
    if NoLiveCycle(values, Meanings(env, fmt), pieces) {
      var n := EvaluatesRuns(env, fmt, values, pieces, |values|);
    }
  }

  ghost predicate Succeeds(env: Env, fmt: Formatter, s: string) {
    exists n: nat :: Run(env, fmt, s, n).Some? && Run(env, fmt, s, n).value.Ok?
  }

  /**
    Eval returns a text if and only if the references of the text lead only to variables that exist, and
    to integers where these are called for, and into no cycle.
   */
  lemma SucceedsIff(env: Env, fmt: Formatter, values: Values, pieces: seq<Piece>)
    requires Describes(values, env, pieces) && PlainNumbers(fmt)
    ensures Succeeds(env, fmt, Template(pieces)) <==>
            NothingMissing(values, Meanings(env, fmt), pieces) && NoCycle(values, pieces)
  {
    ExpandsIff(values, Meanings(env, fmt), pieces);
    if Succeeds(env, fmt, Template(pieces)) {
      var n: nat :| Run(env, fmt, Template(pieces), n).Some? && Run(env, fmt, Template(pieces), n).value.Ok?;
      RunEvaluates(env, fmt, values, pieces, n);
    }
    if Expands(values, Meanings(env, fmt), pieces, |values|) {
      var n := EvaluatesRuns(env, fmt, values, pieces, |values|);
    }
  }

  /** Where nothing is missing Eval ends if and only if the references of the text lead into no cycle at all. */
  lemma TerminatesIffNoCycle(env: Env, fmt: Formatter, values: Values, pieces: seq<Piece>)
    requires Describes(values, env, pieces) && PlainNumbers(fmt) && NothingMissing(values, Meanings(env, fmt), pieces)
    ensures Terminates(env, fmt, Template(pieces)) <==> NoCycle(values, pieces)
  {
    SucceedsIff(env, fmt, values, pieces);
    if Terminates(env, fmt, Template(pieces)) {
      var n: nat :| Run(env, fmt, Template(pieces), n).Some?;
      RunEvaluates(env, fmt, values, pieces, n);
      NeverFails(values, Meanings(env, fmt), pieces, |values|);
      assert Succeeds(env, fmt, Template(pieces));
    }
  }
}
