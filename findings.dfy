/**
 * Two loops of the parser as they are written, beside the corrected loops
 * the rest of the model uses, with the inputs on which they differ.
 */
module Findings {
  import opened Results
  import opened Tokens
  import opened Numbers
  import opened Ast
  import opened LexSpec
  import opened ParseSpec

  // ---------------------------------------------------------------------------
  // A second rest parameter
  // ---------------------------------------------------------------------------

  /**
   * One turn of the parameter loop as written: `...` is accepted even after
   * a rest parameter, because only a plain name checks the rest flag.
   */
  function ParamStepAsWritten(ts: seq<Token>, i: nat, rest: bool, acc: seq<Parameter>): (r: Result<ParamTurn, ParseError>)
    ensures r.Success? ==> i < r.value.next
  {
    if Tok(ts, i).kind.DotDotDot? then
      if Tok(ts, i + 2).kind.Eq? then Failure(RestWithDefault)
      else Success(ParamTurn(i + 2, true, acc + [Parameter(Identifier(Tok(ts, i + 1).literal), None, true)]))
    else ParamStep(ts, i, rest, acc)
  }

  /** The parameter loop as written, one turn of `ParamStepAsWritten` per token until `)` or the end. */
  function ParseParamsAsWritten(ts: seq<Token>, i: nat, rest: bool, acc: seq<Parameter>): (r: Parse<seq<Parameter>>)
    ensures r.Success? ==> i <= r.value.last
    decreases Dist(ts, i)
  {
    var t := Tok(ts, i);
    if t.kind.Eof? || t.kind.RParen? then Success(Parsed(acc, i))
    else
      match ParamStepAsWritten(ts, i, rest, acc)
      case Failure(err) => Failure(err)
      case Success(turn) => ParseParamsAsWritten(ts, turn.next, turn.rest, turn.params)
  }

  /** The tokens of `...a, ...b)`, the parameter list after its `(`. */
  function TwoRestParams(): seq<Token>
  {
    [Token(DotDotDot, "..."), Token(Ident, "a"), Token(Comma, ","),
     Token(DotDotDot, "..."), Token(Ident, "b"), Token(RParen, ")")]
  }

  /** As written, `(...a, ...b)` is a list of two rest parameters; the corrected loop rejects it. */
  lemma TwoRestParamsAccepted()
    ensures ParseParamsAsWritten(TwoRestParams(), 0, false, []) ==
      Success(Parsed([Parameter(Identifier("a"), None, true), Parameter(Identifier("b"), None, true)], 5))
    ensures ParseParams(TwoRestParams(), 0, false, []) == Failure(RestNotLast)
  {
    var ts := TwoRestParams();
    var a := [Parameter(Identifier("a"), None, true)];
    var ab := a + [Parameter(Identifier("b"), None, true)];
    assert Tok(ts, 0).kind.DotDotDot? && Tok(ts, 1).literal == "a" && Tok(ts, 2).kind.Comma?;
    assert Tok(ts, 3).kind.DotDotDot? && Tok(ts, 4).literal == "b" && Tok(ts, 5).kind.RParen?;
    var first := ParamStepAsWritten(ts, 0, false, []).value;
    assert first.next == 2 && first.rest && first.params == a;
    var second := ParamStepAsWritten(ts, 3, true, a).value;
    assert second.next == 5 && second.rest && second.params == ab;
    assert ParseParamsAsWritten(ts, 3, true, a) == Success(Parsed(ab, 5));
    assert ParseParamsAsWritten(ts, 2, true, a) == Success(Parsed(ab, 5));
    assert ParseParamsAsWritten(ts, 0, false, []) == Success(Parsed(ab, 5));
    assert ab == [Parameter(Identifier("a"), None, true), Parameter(Identifier("b"), None, true)];
    assert ParseParams(ts, 2, true, a) == Failure(RestNotLast);
    assert ParamStep(ts, 0, false, []).value == first;
  }

  /** Only the last parameter of `ps` may be a rest parameter. */
  predicate RestOnlyLast(ps: seq<Parameter>)
  {
    forall k | 0 <= k < |ps| - 1 :: !ps[k].hasDotDotDot
  }

  /** The rest flag of the parameter loop says whether the last parameter so far is a rest parameter. */
  predicate RestFlagAgrees(rest: bool, ps: seq<Parameter>)
  {
    rest == (|ps| > 0 && ps[|ps| - 1].hasDotDotDot)
  }

  /** No parameter of `ps` is both a rest parameter and has a default value. */
  predicate NoRestDefault(ps: seq<Parameter>)
  {
    forall k | 0 <= k < |ps| :: !(ps[k].hasDotDotDot && ps[k].defaultValue.Some?)
  }

  /** One turn of the corrected loop keeps the rest parameter last and apart from default values. */
  lemma StepKeepsRestLast(ts: seq<Token>, i: nat, rest: bool, acc: seq<Parameter>)
    requires RestOnlyLast(acc) && RestFlagAgrees(rest, acc) && NoRestDefault(acc)
    requires ParamStep(ts, i, rest, acc).Success?
    ensures var turn := ParamStep(ts, i, rest, acc).value;
      RestOnlyLast(turn.params) && RestFlagAgrees(turn.rest, turn.params) && NoRestDefault(turn.params)
  {
  }

  /**
   * A parameter list the corrected loop accepts has its rest parameter, if
   * any, last, and no parameter is both a rest parameter and has a default.
   */
  lemma {:induction false} RestIsLast(ts: seq<Token>, i: nat, rest: bool, acc: seq<Parameter>)
    requires RestOnlyLast(acc) && RestFlagAgrees(rest, acc) && NoRestDefault(acc)
    requires ParseParams(ts, i, rest, acc).Success?
    ensures RestOnlyLast(ParseParams(ts, i, rest, acc).value.value)
    ensures NoRestDefault(ParseParams(ts, i, rest, acc).value.value)
    decreases Dist(ts, i)
  {
    var t := Tok(ts, i);
    if !t.kind.Eof? && !t.kind.RParen? {
      var turn := ParamStep(ts, i, rest, acc).value;
      StepKeepsRestLast(ts, i, rest, acc);
      RestIsLast(ts, turn.next, turn.rest, turn.params);
    }
  }

  /** A turn the corrected loop accepts is the same turn as written. */
  lemma StepAgrees(ts: seq<Token>, i: nat, rest: bool, acc: seq<Parameter>)
    requires ParamStep(ts, i, rest, acc).Success?
    ensures ParamStepAsWritten(ts, i, rest, acc) == ParamStep(ts, i, rest, acc)
  {
  }

  /** A parameter list without a second rest parameter parses the same way in both loops. */
  lemma {:induction false} ParamsAgreeWithoutSecondRest(ts: seq<Token>, i: nat, rest: bool, acc: seq<Parameter>)
    requires ParseParams(ts, i, rest, acc).Success?
    ensures ParseParamsAsWritten(ts, i, rest, acc) == ParseParams(ts, i, rest, acc)
    decreases Dist(ts, i)
  {
    var t := Tok(ts, i);
    if !t.kind.Eof? && !t.kind.RParen? {
      var turn := ParamStep(ts, i, rest, acc).value;
      StepAgrees(ts, i, rest, acc);
      ParamsAgreeWithoutSecondRest(ts, turn.next, turn.rest, turn.params);
    }
  }

  // ---------------------------------------------------------------------------
  // The last statement of a program
  // ---------------------------------------------------------------------------

  /**
   * The program loop as written: it runs while the peek token is not `Eof`,
   * so a turn that would start on the last token is never taken. Each turn
   * calls the corrected `ParseStatement` (and through it the corrected
   * parameter loop), so this is the only difference it carries.
   */
  function ProgramLoopAsWritten(ts: seq<Token>, i: nat, acc: seq<Statement>): Result<Program, ParseError>
    decreases Dist(ts, i)
  {
    if Tok(ts, i + 1).kind.Eof? then Success(Program(acc))
    else
      match ParseStatement(ts, i)
      case Failure(err) => Failure(err)
      case Success(s) => ProgramLoopAsWritten(ts, s.last + 1, acc + [s.value])
  }

  function ParseProgramAsWritten(ts: seq<Token>): Result<Program, ParseError>
  {
    ProgramLoopAsWritten(ts, 0, [])
  }

  /** As written, the program `x` has no statements; the corrected loop keeps its one statement. */
  lemma SingleTokenProgramDropped()
    ensures ParseProgramAsWritten([Token(Ident, "x")]) == Success(Program([]))
    ensures ParseProgram([Token(Ident, "x")]) == Success(Program([ExpressionStatement(Identifier("x"))]))
  {
    var ts := [Token(Ident, "x")];
    assert Tok(ts, 0) == Token(Ident, "x") && Tok(ts, 1).kind.Eof?;
    assert ParseExpression(ts, 0, Lowest) == Success(Parsed(Identifier("x"), 0));
    assert ParseStatement(ts, 0) == Success(Parsed(ExpressionStatement(Identifier("x")), 0));
    assert [] + [ExpressionStatement(Identifier("x"))] == [ExpressionStatement(Identifier("x"))];
  }

  /**
   * Whether the corrected loop, run from `i`, starts a turn on the last
   * token of the stream.
   */
  predicate ReachesLast(ts: seq<Token>, i: nat)
    decreases Dist(ts, i)
  {
    if |ts| <= i then false
    else if i + 1 == |ts| then true
    else
      match ParseStatement(ts, i)
      case Failure(_) => false
      case Success(s) => ReachesLast(ts, s.last + 1)
  }

  /** On a lexed stream the two loops agree unless a turn starts on the last token. */
  lemma {:induction false} LoopsAgree(ts: seq<Token>, i: nat, acc: seq<Statement>)
    requires NoEof(ts) && !ReachesLast(ts, i)
    ensures ProgramLoopAsWritten(ts, i, acc) == ProgramLoop(ts, i, acc)
    decreases Dist(ts, i)
  {
    if i < |ts| {
      assert !Tok(ts, i).kind.Eof? && !Tok(ts, i + 1).kind.Eof?;
      match ParseStatement(ts, i)
      case Failure(_) =>
      case Success(s) => LoopsAgree(ts, s.last + 1, acc + [s.value]);
    }
  }

  /**
   * When a turn starts on the last token, the loop as written succeeds with
   * the statements the corrected loop has gathered at that point; the
   * corrected loop then takes that last turn, which may add a statement or
   * fail.
   */
  lemma {:induction false} LastTurnDropped(ts: seq<Token>, i: nat, acc: seq<Statement>)
    requires NoEof(ts) && ReachesLast(ts, i)
    ensures ProgramLoopAsWritten(ts, i, acc).Success?
    ensures ProgramLoop(ts, i, acc) == ProgramLoop(ts, |ts| - 1, ProgramLoopAsWritten(ts, i, acc).value.statements)
    decreases Dist(ts, i)
  {
    if i + 1 < |ts| {
      assert !Tok(ts, i).kind.Eof? && !Tok(ts, i + 1).kind.Eof?;
      match ParseStatement(ts, i)
      case Success(s) => LastTurnDropped(ts, s.last + 1, acc + [s.value]);
    }
  }

  /** The stream of `a; let`. */
  function DanglingLet(): seq<Token>
  {
    [Token(Ident, "a"), Token(Semi, ";"), Token(Let, "let")]
  }

  /** As written, `a; let` is the program `a`; the corrected loop reports the missing name. */
  lemma DanglingLetAccepted()
    ensures ParseProgramAsWritten(DanglingLet()) == Success(Program([ExpressionStatement(Identifier("a"))]))
    ensures ParseProgram(DanglingLet()) == Failure(UnexpectedToken(Ident, Eof))
  {
    var ts := DanglingLet();
    assert Tok(ts, 0) == Token(Ident, "a") && Tok(ts, 1).kind.Semi? && Tok(ts, 2).kind.Let? && Tok(ts, 3).kind.Eof?;
    assert ParseExpression(ts, 0, Lowest) == Success(Parsed(Identifier("a"), 0));
    assert ParseStatement(ts, 0) == Success(Parsed(ExpressionStatement(Identifier("a")), 1));
    assert ParseStatement(ts, 2) == Failure(UnexpectedToken(Ident, Eof));
    assert [] + [ExpressionStatement(Identifier("a"))] == [ExpressionStatement(Identifier("a"))];
  }
}
