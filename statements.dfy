/**
 * Statements written out as tokens and read back: declarations, returns,
 * expression statements, parameter lists, blocks and function statements,
 * and the statement examples of the parser's test suite.
 */
module Statements {
  import opened Results
  import opened Tokens
  import opened Numbers
  import opened Ast
  import opened LexSpec
  import opened ParseSpec
  import opened Precedence
  import opened Findings
  import opened Vectors

  const Semicolon := Token(Semi, ";")

  /** Moving the first of `xs` onto the end of `acc`. */
  lemma Regroup<T>(acc: seq<T>, xs: seq<T>)
    requires xs != []
    ensures acc + [xs[0]] + xs[1..] == acc + xs
  {
    assert [xs[0]] + xs[1..] == xs;
  }

  // ---------------------------------------------------------------------------
  // One statement
  // ---------------------------------------------------------------------------

  /**
   * `let`, `const` or `var`, a name and `=`, then the tokens of `e` up to a
   * token that ends an expression: a declaration of the name with value `e`,
   * which takes a semicolon after it.
   */
  lemma {:induction false} LetAt(ts: seq<Token>, i: nat, name: string, e: Expression, end: nat)
    requires WellFormed(e) && i + 3 <= end <= |ts| && ts[i + 3..end] == Unparse(e)
    requires Tok(ts, i).kind in {Let, Const, Var}
    requires Tok(ts, i + 1) == Token(Ident, name) && Tok(ts, i + 2).kind.Eq?
    requires StopsAt(Tok(ts, end), Lowest)
    ensures ParseStatement(ts, i) ==
      Success(Parsed(LetStatement(Tok(ts, i).kind, Identifier(name), e), SkipSemi(ts, end - 1)))
  {
    ParseEmbedded(ts, i + 3, e, end);
    assert ParseLet(ts, i) == Success(Parsed(LetStatement(Tok(ts, i).kind, Identifier(name), e), end - 1));
  }

  /**
   * `return`, then the tokens of `e` up to a token that ends an expression:
   * a return of `e`, which takes a semicolon after it.
   */
  lemma {:induction false} ReturnAt(ts: seq<Token>, i: nat, e: Expression, end: nat)
    requires WellFormed(e) && i + 1 <= end <= |ts| && ts[i + 1..end] == Unparse(e)
    requires Tok(ts, i).kind.Return? && StopsAt(Tok(ts, end), Lowest)
    ensures ParseStatement(ts, i) == Success(Parsed(ReturnStatement(e), SkipSemi(ts, end - 1)))
  {
    ParseEmbedded(ts, i + 1, e, end);
    assert ParseReturn(ts, i) == Success(Parsed(ReturnStatement(e), end - 1));
  }

  /**
   * The tokens of `e` up to a token that ends an expression: an expression
   * statement of `e`. Both the expression statement and the statement loop
   * skip a semicolon, so up to two are taken after it.
   */
  lemma {:induction false} ExpressionAt(ts: seq<Token>, i: nat, e: Expression, end: nat)
    requires WellFormed(e) && i <= end <= |ts| && ts[i..end] == Unparse(e)
    requires StopsAt(Tok(ts, end), Lowest)
    ensures ParseStatement(ts, i) == Success(Parsed(ExpressionStatement(e), SkipSemi(ts, SkipSemi(ts, end - 1))))
  {
    ParseEmbedded(ts, i, e, end);
    UnparseStartsExpression(e);
    assert Tok(ts, i) == ts[i..end][0];
    assert ParseExpressionStatement(ts, i) == Success(Parsed(ExpressionStatement(e), SkipSemi(ts, end - 1)));
  }

  // ---------------------------------------------------------------------------
  // Writing statements out
  // ---------------------------------------------------------------------------

  /** The statements written out here: declarations, returns and expression statements of trees the parser builds. */
  predicate Simple(s: Statement)
  {
    match s
    case LetStatement(_, _, e) => WellFormed(e)
    case ReturnStatement(e) => WellFormed(e)
    case ExpressionStatement(e) => WellFormed(e)
    case _ => false
  }

  predicate AllSimple(ss: seq<Statement>)
  {
    forall k | 0 <= k < |ss| :: Simple(ss[k])
  }

  /** The tokens of a statement, closed by a semicolon; they never start with `;`, `}` or `Eof`. */
  function StatementTokens(s: Statement): (ts: seq<Token>)
    requires Simple(s)
    ensures 2 <= |ts| && !ts[0].kind.Semi? && !ts[0].kind.RBrace? && !ts[0].kind.Eof?
  {
    match s
    case LetStatement(k, id, e) => [Token(k, KindText(k)), Token(Ident, id.value), Token(Eq, "=")] + Unparse(e) + [Semicolon]
    case ReturnStatement(e) => [Token(Return, "return")] + Unparse(e) + [Semicolon]
    case ExpressionStatement(e) =>
      UnparseStartsExpression(e);
      Unparse(e) + [Semicolon]
  }

  /** The tokens of a sequence of statements, one after the other. */
  function StatementsTokens(ss: seq<Statement>): (ts: seq<Token>)
    requires AllSimple(ss)
    ensures ss != [] ==> |ts| > 0 && ts[0] == StatementTokens(ss[0])[0]
    decreases |ss|
  {
    if ss == [] then [] else StatementTokens(ss[0]) + StatementsTokens(ss[1..])
  }

  /** A written-out statement contains no `Eof`. */
  lemma StatementHasNoEof(s: Statement)
    requires Simple(s)
    ensures NoEof(StatementTokens(s))
  {
    match s
    case LetStatement(k, id, e) =>
      UnparseHasNoEof(e);
      NoEofConcat([Token(k, KindText(k)), Token(Ident, id.value), Token(Eq, "=")], Unparse(e));
      NoEofConcat([Token(k, KindText(k)), Token(Ident, id.value), Token(Eq, "=")] + Unparse(e), [Semicolon]);
    case ReturnStatement(e) =>
      UnparseHasNoEof(e);
      NoEofConcat([Token(Return, "return")], Unparse(e));
      NoEofConcat([Token(Return, "return")] + Unparse(e), [Semicolon]);
    case ExpressionStatement(e) =>
      UnparseHasNoEof(e);
      NoEofConcat(Unparse(e), [Semicolon]);
  }

  /** Written-out statements contain no `Eof`. */
  lemma {:induction false} StatementsHaveNoEof(ss: seq<Statement>)
    requires AllSimple(ss)
    ensures NoEof(StatementsTokens(ss))
    decreases |ss|
  {
    if ss != [] {
      StatementHasNoEof(ss[0]);
      StatementsHaveNoEof(ss[1..]);
      NoEofConcat(StatementTokens(ss[0]), StatementsTokens(ss[1..]));
    }
  }

  /** A written-out declaration, closed by its semicolon. */
  lemma {:induction false} LetWritten(ts: seq<Token>, i: nat, k: DeclKind, id: IdentifierNode, e: Expression, end: nat)
    requires WellFormed(e) && i <= end <= |ts|
    requires ts[i..end] == [Token(k, KindText(k)), Token(Ident, id.value), Token(Eq, "=")] + Unparse(e) + [Semicolon]
    ensures i + 1 < end && ParseStatement(ts, i) == Success(Parsed(LetStatement(k, id, e), end - 1))
  {
    var head := [Token(k, KindText(k)), Token(Ident, id.value), Token(Eq, "=")];
    SplitAt(ts, i, end - 1, end, head + Unparse(e), [Semicolon]);
    SplitAt(ts, i, i + 3, end - 1, head, Unparse(e));
    assert ts[end - 1] == ts[end - 1..end][0];
    assert ts[i] == ts[i..i + 3][0] && ts[i + 1] == ts[i..i + 3][1] && ts[i + 2] == ts[i..i + 3][2];
    LetAt(ts, i, id.value, e, end - 1);
  }

  /** A written-out return, closed by its semicolon. */
  lemma {:induction false} ReturnWritten(ts: seq<Token>, i: nat, e: Expression, end: nat)
    requires WellFormed(e) && i <= end <= |ts|
    requires ts[i..end] == [Token(Return, "return")] + Unparse(e) + [Semicolon]
    ensures i + 1 < end && ParseStatement(ts, i) == Success(Parsed(ReturnStatement(e), end - 1))
  {
    SplitAt(ts, i, end - 1, end, [Token(Return, "return")] + Unparse(e), [Semicolon]);
    SplitAt(ts, i, i + 1, end - 1, [Token(Return, "return")], Unparse(e));
    assert ts[end - 1] == ts[end - 1..end][0];
    assert ts[i] == ts[i..i + 1][0];
    ReturnAt(ts, i, e, end - 1);
  }

  /** A written-out expression statement, closed by its semicolon and not followed by another. */
  lemma {:induction false} ExpressionWritten(ts: seq<Token>, i: nat, e: Expression, end: nat)
    requires WellFormed(e) && i <= end <= |ts|
    requires ts[i..end] == Unparse(e) + [Semicolon] && !Tok(ts, end).kind.Semi?
    ensures i + 1 < end && ParseStatement(ts, i) == Success(Parsed(ExpressionStatement(e), end - 1))
  {
    SplitAt(ts, i, end - 1, end, Unparse(e), [Semicolon]);
    assert ts[end - 1] == ts[end - 1..end][0];
    ExpressionAt(ts, i, e, end - 1);
  }

  /**
   * The tokens of a statement, followed by a token other than `;`, are that
   * statement, ending on its semicolon.
   */
  lemma {:induction false} StatementAt(ts: seq<Token>, i: nat, s: Statement, end: nat)
    requires Simple(s) && i <= end <= |ts| && ts[i..end] == StatementTokens(s)
    requires !Tok(ts, end).kind.Semi?
    ensures i + 1 < end && ParseStatement(ts, i) == Success(Parsed(s, end - 1))
  {
    match s
    case LetStatement(k, id, e) => LetWritten(ts, i, k, id, e, end);
    case ReturnStatement(e) => ReturnWritten(ts, i, e, end);
    case ExpressionStatement(e) => ExpressionWritten(ts, i, e, end);
  }

  /** The first token of written-out statements is none of `;`, `}` and `Eof`; there is one unless there are no statements. */
  lemma FirstToken(ts: seq<Token>, i: nat, end: nat, ss: seq<Statement>)
    requires AllSimple(ss) && i <= end <= |ts| && ts[i..end] == StatementsTokens(ss)
    ensures i == end <==> ss == []
    ensures i < end ==> !ts[i].kind.Semi? && !ts[i].kind.RBrace? && !ts[i].kind.Eof?
  {
    if ss != [] {
      assert ts[i] == ts[i..end][0];
    }
  }

  /** Where the first of written-out statements ends, the rest begin; the token there is not `;`. */
  lemma {:induction false} SplitFirst(ts: seq<Token>, i: nat, end: nat, ss: seq<Statement>) returns (mid: nat)
    requires AllSimple(ss) && ss != [] && i <= end <= |ts| && ts[i..end] == StatementsTokens(ss)
    requires !Tok(ts, end).kind.Semi?
    ensures i <= mid <= end && ts[i..mid] == StatementTokens(ss[0]) && !Tok(ts, mid).kind.Semi?
    ensures AllSimple(ss[1..]) && ts[mid..end] == StatementsTokens(ss[1..])
    ensures mid == end <==> ss[1..] == []
    ensures mid < end ==> !ts[mid].kind.RBrace?
    ensures i < |ts| && !ts[i].kind.Eof? && !ts[i].kind.RBrace?
  {
    mid := i + |StatementTokens(ss[0])|;
    SplitAt(ts, i, mid, end, StatementTokens(ss[0]), StatementsTokens(ss[1..]));
    FirstToken(ts, i, end, ss);
    FirstToken(ts, mid, end, ss[1..]);
  }

  /** The first of written-out statements, read by the statement parser. */
  lemma {:induction false} FirstStatement(ts: seq<Token>, i: nat, end: nat, ss: seq<Statement>) returns (mid: nat)
    requires AllSimple(ss) && ss != [] && i <= end <= |ts| && ts[i..end] == StatementsTokens(ss)
    requires !Tok(ts, end).kind.Semi?
    ensures i + 1 < mid <= end && AllSimple(ss[1..]) && ts[mid..end] == StatementsTokens(ss[1..])
    ensures i < |ts| && !ts[i].kind.Eof? && !ts[i].kind.RBrace?
    ensures ParseStatement(ts, i) == Success(Parsed(ss[0], mid - 1))
  {
    mid := SplitFirst(ts, i, end, ss);
    StatementAt(ts, i, ss[0], mid);
  }

  /** One turn of the block loop over a statement that was read. */
  lemma BlockStep(ts: seq<Token>, i: nat, acc: seq<Statement>, s: Statement, next: nat)
    requires 0 < next && i < |ts| && !ts[i].kind.Eof? && !ts[i].kind.RBrace? && ParseStatement(ts, i) == Success(Parsed(s, next - 1))
    ensures BlockLoop(ts, i, acc) == BlockLoop(ts, next, acc + [s])
  {
    assert Tok(ts, i) == ts[i];
    assert ParseStatement(ts, i).value.last + 1 == next;
  }

  /** One turn of the corrected program loop over a statement that was read. */
  lemma ProgramStep(ts: seq<Token>, i: nat, acc: seq<Statement>, s: Statement, next: nat)
    requires 0 < next && i < |ts| && !ts[i].kind.Eof? && ParseStatement(ts, i) == Success(Parsed(s, next - 1))
    ensures ProgramLoop(ts, i, acc) == ProgramLoop(ts, next, acc + [s])
  {
    assert ParseStatement(ts, i).value.last + 1 == next;
  }

  /** The corrected program loop reads written-out statements back. */
  lemma {:induction false} ProgramAt(ts: seq<Token>, i: nat, ss: seq<Statement>, acc: seq<Statement>)
    requires AllSimple(ss) && i <= |ts| && ts[i..|ts|] == StatementsTokens(ss)
    ensures ProgramLoop(ts, i, acc) == Success(Program(acc + ss))
    decreases |ss|
  {
    if ss == [] {
      assert i == |ts|;
      assert acc + ss == acc;
    } else {
      var mid := FirstStatement(ts, i, |ts|, ss);
      ProgramStep(ts, i, acc, ss[0], mid);
      ProgramAt(ts, mid, ss[1..], acc + [ss[0]]);
      Regroup(acc, ss);
    }
  }

  /** A turn that does not start on the last token moves the question to the next turn. */
  lemma LastTurnStep(ts: seq<Token>, i: nat, s: Statement, next: nat)
    requires 0 < next && i + 1 < |ts| && ParseStatement(ts, i) == Success(Parsed(s, next - 1))
    ensures ReachesLast(ts, i) == ReachesLast(ts, next)
  {
  }

  /** On written-out statements the corrected loop never starts a turn on the last token. */
  lemma {:induction false} NoTurnOnLast(ts: seq<Token>, i: nat, ss: seq<Statement>)
    requires AllSimple(ss) && i <= |ts| && ts[i..|ts|] == StatementsTokens(ss)
    ensures !ReachesLast(ts, i)
    decreases |ss|
  {
    if ss != [] {
      var mid := FirstStatement(ts, i, |ts|, ss);
      LastTurnStep(ts, i, ss[0], mid);
      NoTurnOnLast(ts, mid, ss[1..]);
    }
  }

  /** Both program loops read a written-out sequence of statements back. */
  lemma {:induction false} StatementsRoundTrip(ss: seq<Statement>)
    requires AllSimple(ss)
    ensures ParseProgram(StatementsTokens(ss)) == Success(Program(ss))
    ensures ParseProgramAsWritten(StatementsTokens(ss)) == Success(Program(ss))
  {
    var ts := StatementsTokens(ss);
    assert ts[0..|ts|] == ts;
    ProgramAt(ts, 0, ss, []);
    NoTurnOnLast(ts, 0, ss);
    StatementsHaveNoEof(ss);
    LoopsAgree(ts, 0, []);
    assert [] + ss == ss;
  }

  /** The block loop reads written-out statements back up to the closing `}`. */
  lemma {:induction false} BlockAt(ts: seq<Token>, i: nat, ss: seq<Statement>, acc: seq<Statement>, end: nat)
    requires AllSimple(ss) && i <= end < |ts| && ts[i..end] == StatementsTokens(ss) && ts[end].kind.RBrace?
    ensures BlockLoop(ts, i, acc) == Success(Parsed(BlockStatement(acc + ss), end))
    decreases |ss|
  {
    if ss == [] {
      assert i == end;
      assert acc + ss == acc;
    } else {
      var mid := FirstStatement(ts, i, end, ss);
      BlockStep(ts, i, acc, ss[0], mid);
      BlockAt(ts, mid, ss[1..], acc + [ss[0]], end);
      Regroup(acc, ss);
    }
  }

  /**
   * The body of a function whose `)` is at `close` and whose `}` is the last
   * token before `end`: written-out statements from after the `{` at
   * `close + 1` are read as its block, up to that `}`.
   */
  lemma BodyAt(ts: seq<Token>, ss: seq<Statement>, close: nat, end: nat)
    requires AllSimple(ss)
    requires close + 2 <= end - 1 < |ts| && ts[close + 2..end - 1] == StatementsTokens(ss) && ts[end - 1].kind.RBrace?
    ensures BlockLoop(ts, close + 2, []) == Success(Parsed(BlockStatement(ss), end - 1))
  {
    BlockAt(ts, close + 2, ss, [], end - 1);
    assert [] + ss == ss;
  }

  // ---------------------------------------------------------------------------
  // Parameter lists
  // ---------------------------------------------------------------------------

  /** Every default value is a tree the parser builds. */
  predicate DefaultsWellFormed(ps: seq<Parameter>)
  {
    forall k | 0 <= k < |ps| :: ps[k].defaultValue.Some? ==> WellFormed(ps[k].defaultValue.value)
  }

  /** A parameter list the parser accepts: only the last parameter may be a rest parameter, and it has no default value. */
  predicate ParamsWritable(ps: seq<Parameter>)
  {
    DefaultsWellFormed(ps) && RestOnlyLast(ps) && NoRestDefault(ps)
  }

  /** The tokens of one parameter: `...` and a name, a name, or a name, `=` and the default value. */
  function ParamTokens(p: Parameter): (ts: seq<Token>)
    requires p.defaultValue.Some? ==> WellFormed(p.defaultValue.value)
    ensures 0 < |ts| && (ts[0].kind.DotDotDot? || ts[0].kind.Ident?)
  {
    if p.hasDotDotDot then [Token(DotDotDot, "..."), Token(Ident, p.identifier.value)]
    else
      match p.defaultValue
      case None => [Token(Ident, p.identifier.value)]
      case Some(d) => [Token(Ident, p.identifier.value), Token(Eq, "=")] + Unparse(d)
  }

  /** The tokens of a parameter list, without its parentheses: the parameters separated by commas. */
  function ParamListTokens(ps: seq<Parameter>): seq<Token>
    requires DefaultsWellFormed(ps)
    decreases |ps|
  {
    if ps == [] then []
    else if |ps| == 1 then ParamTokens(ps[0])
    else ParamTokens(ps[0]) + ([Token(Comma, ",")] + ParamListTokens(ps[1..]))
  }

  /** One turn of the parameter loop over a written-out parameter followed by `,` or `)`. */
  lemma {:induction false} ParamAt(ts: seq<Token>, i: nat, p: Parameter, mid: nat, acc: seq<Parameter>)
    requires p.defaultValue.Some? ==> WellFormed(p.defaultValue.value)
    requires !(p.hasDotDotDot && p.defaultValue.Some?)
    requires i <= mid <= |ts| && ts[i..mid] == ParamTokens(p)
    requires Tok(ts, mid).kind.Comma? || Tok(ts, mid).kind.RParen?
    ensures ParamStep(ts, i, false, acc) == Success(ParamTurn(mid, p.hasDotDotDot, acc + [p]))
  {
    var name := Token(Ident, p.identifier.value);
    if p.hasDotDotDot {
      assert ts[i] == ts[i..mid][0] && ts[i + 1] == ts[i..mid][1];
    } else if p.defaultValue.None? {
      assert ts[i] == ts[i..mid][0];
    } else {
      var d := p.defaultValue.value;
      SplitAt(ts, i, i + 2, mid, [name, Token(Eq, "=")], Unparse(d));
      assert ts[i] == ts[i..i + 2][0] && ts[i + 1] == ts[i..i + 2][1];
      ParseEmbedded(ts, i + 2, d, mid);
    }
  }

  /** The parameter loop over the last written-out parameter, followed by `)`. */
  lemma LastParamTurn(ts: seq<Token>, i: nat, p: Parameter, end: nat, acc: seq<Parameter>)
    requires p.defaultValue.Some? ==> WellFormed(p.defaultValue.value)
    requires !(p.hasDotDotDot && p.defaultValue.Some?)
    requires i <= end < |ts| && ts[i..end] == ParamTokens(p) && ts[end].kind.RParen?
    ensures ParseParams(ts, i, false, acc) == Success(Parsed(acc + [p], end))
  {
    ParamAt(ts, i, p, end, acc);
    assert ts[i] == ts[i..end][0];
  }

  /** The parameter loop over a list of one written-out parameter, followed by `)`. */
  lemma OneParam(ts: seq<Token>, i: nat, ps: seq<Parameter>, acc: seq<Parameter>, end: nat)
    requires ParamsWritable(ps) && |ps| == 1 && i <= end < |ts| && ts[i..end] == ParamListTokens(ps) && ts[end].kind.RParen?
    ensures ParseParams(ts, i, false, acc) == Success(Parsed(acc + ps, end))
  {
    LastParamTurn(ts, i, ps[0], end, acc);
    assert acc + [ps[0]] == acc + ps;
  }

  /** The parameter loop over a written-out parameter and the comma after it. */
  lemma ParamCommaTurn(ts: seq<Token>, i: nat, p: Parameter, mid: nat, acc: seq<Parameter>)
    requires (p.defaultValue.Some? ==> WellFormed(p.defaultValue.value)) && !p.hasDotDotDot
    requires i <= mid < |ts| && ts[i..mid] == ParamTokens(p) && ts[mid].kind.Comma?
    ensures ParseParams(ts, i, false, acc) == ParseParams(ts, mid + 1, false, acc + [p])
  {
    ParamAt(ts, i, p, mid, acc);
    assert ts[i] == ts[i..mid][0];
  }

  /** Where the first of several written-out parameters ends, a comma follows, then the rest. */
  lemma {:induction false} ParamSplit(ts: seq<Token>, i: nat, ps: seq<Parameter>, end: nat) returns (mid: nat)
    requires ParamsWritable(ps) && |ps| > 1 && i <= end <= |ts| && ts[i..end] == ParamListTokens(ps)
    ensures i <= mid < end && ts[i..mid] == ParamTokens(ps[0]) && ts[mid].kind.Comma?
    ensures ts[mid + 1..end] == ParamListTokens(ps[1..]) && ParamsWritable(ps[1..])
    ensures (ps[0].defaultValue.Some? ==> WellFormed(ps[0].defaultValue.value)) && !ps[0].hasDotDotDot
  {
    mid := i + |ParamTokens(ps[0])|;
    SplitAt(ts, i, mid, end, ParamTokens(ps[0]), [Token(Comma, ",")] + ParamListTokens(ps[1..]));
    SplitAt(ts, mid, mid + 1, end, [Token(Comma, ",")], ParamListTokens(ps[1..]));
    assert ts[mid] == ts[mid..mid + 1][0];
  }

  /** The parameter loop stops at `)`. */
  lemma ParamsEnd(ts: seq<Token>, i: nat, acc: seq<Parameter>)
    requires i < |ts| && ts[i].kind.RParen?
    ensures ParseParams(ts, i, false, acc) == Success(Parsed(acc, i))
  {
  }

  /** The parameter loop reads a written-out parameter list back, stopping at the `)` after it. */
  lemma {:induction false} ParamsAt(ts: seq<Token>, i: nat, ps: seq<Parameter>, acc: seq<Parameter>, end: nat)
    requires ParamsWritable(ps) && i <= end < |ts| && ts[i..end] == ParamListTokens(ps) && ts[end].kind.RParen?
    ensures ParseParams(ts, i, false, acc) == Success(Parsed(acc + ps, end))
    decreases |ps|
  {
    if ps == [] {
      assert i == end;
      ParamsEnd(ts, i, acc);
      assert acc + ps == acc;
    } else if |ps| == 1 {
      OneParam(ts, i, ps, acc, end);
    } else {
      var mid := ParamSplit(ts, i, ps, end);
      ParamCommaTurn(ts, i, ps[0], mid, acc);
      ParamsAt(ts, mid + 1, ps[1..], acc + [ps[0]], end);
      Regroup(acc, ps);
    }
  }

  // ---------------------------------------------------------------------------
  // Function statements
  // ---------------------------------------------------------------------------

  /**
   * `function`, a name, `(`, a parameter list the parameter loop reads as
   * `ps` up to `)`, then a block the block loop reads as `body`: a function
   * statement.
   */
  lemma {:induction false} FunctionParsed(ts: seq<Token>, i: nat, name: string, ps: seq<Parameter>, close: nat, body: BlockStatement, last: nat)
    requires Tok(ts, i + 1) == Token(Ident, name) && Tok(ts, i + 2).kind.LParen?
    requires ParseParams(ts, i + 3, false, []) == Success(Parsed(ps, close))
    requires Tok(ts, close + 1).kind.LBrace? && BlockLoop(ts, close + 2, []) == Success(Parsed(body, last))
    ensures ParseFunction(ts, i) == Success(Parsed(FunctionStatement(name, ps, body), last))
  {
  }

  /** A function written out around the tokens `params` of its parameter list and `stmts` of its body. */
  function FunctionShape(name: string, params: seq<Token>, stmts: seq<Token>): seq<Token>
  {
    [Token(Func, "function"), Token(Ident, name), OpenParen] + params + [CloseParen, Token(LBrace, "{")] + stmts + [Token(RBrace, "}")]
  }

  /** A function written out with its keyword, name, parameter list and a body of written-out statements. */
  function FunctionTokens(name: string, ps: seq<Parameter>, body: seq<Statement>): seq<Token>
    requires DefaultsWellFormed(ps) && AllSimple(body)
  {
    FunctionShape(name, ParamListTokens(ps), StatementsTokens(body))
  }

  /** A slice made of five parts, cut back into them. */
  lemma {:induction false} SplitFive(ts: seq<Token>, i: nat, end: nat, a: seq<Token>, b: seq<Token>, c: seq<Token>, d: seq<Token>, e: seq<Token>)
    requires i <= end <= |ts| && ts[i..end] == a + b + c + d + e
    ensures i + |a| + |b| + |c| + |d| + |e| == end
    ensures ts[i..i + |a|] == a && ts[i + |a|..i + |a| + |b|] == b
    ensures ts[i + |a| + |b|..i + |a| + |b| + |c|] == c
    ensures ts[i + |a| + |b| + |c|..end - |e|] == d && ts[end - |e|..end] == e
  {
    SplitAt(ts, i, end - |e|, end, a + b + c + d, e);
    SplitAt(ts, i, end - |e| - |d|, end - |e|, a + b + c, d);
    SplitAt(ts, i, i + |a| + |b|, end - |e| - |d|, a + b, c);
    SplitAt(ts, i, i + |a|, i + |a| + |b|, a, b);
  }

  /**
   * Where the parts of a function written out around the tokens `params` of
   * its parameters and `stmts` of its body lie: `close` is the index of its `)`.
   */
  lemma {:induction false} FunctionLayout(ts: seq<Token>, i: nat, name: string, params: seq<Token>, stmts: seq<Token>, end: nat, close: nat)
    requires i <= end <= |ts| && ts[i..end] == FunctionShape(name, params, stmts) && close == i + 3 + |params|
    ensures close + 2 < end
    ensures ts[i + 3..close] == params && ts[close] == CloseParen
    ensures ts[close + 2..end - 1] == stmts && ts[end - 1] == Token(RBrace, "}")
    ensures Tok(ts, i).kind.Func? && Tok(ts, i + 1) == Token(Ident, name) && Tok(ts, i + 2).kind.LParen?
    ensures Tok(ts, close + 1).kind.LBrace?
  {
    var head := [Token(Func, "function"), Token(Ident, name), OpenParen];
    var middle := [CloseParen, Token(LBrace, "{")];
    var tail := [Token(RBrace, "}")];
    SplitFive(ts, i, end, head, params, middle, stmts, tail);
    assert ts[i] == ts[i..i + 3][0] && ts[i + 1] == ts[i..i + 3][1] && ts[i + 2] == ts[i..i + 3][2];
    assert ts[close] == ts[close..close + 2][0] && ts[close + 1] == ts[close..close + 2][1];
    assert ts[end - 1] == ts[end - 1..end][0];
  }

  /**
   * The parameter list of a function written out from `i` to `end`, around
   * the tokens `stmts` of its body, read up to its `)`, which is followed by
   * `{`.
   */
  lemma {:induction false} FunctionParamsAt(ts: seq<Token>, i: nat, name: string, ps: seq<Parameter>, stmts: seq<Token>, end: nat) returns (close: nat)
    requires ParamsWritable(ps) && i <= end <= |ts| && ts[i..end] == FunctionShape(name, ParamListTokens(ps), stmts)
    ensures close == i + 3 + |ParamListTokens(ps)| && close + 2 < end
    ensures Tok(ts, i).kind.Func? && Tok(ts, i + 1) == Token(Ident, name) && Tok(ts, i + 2).kind.LParen? && Tok(ts, close + 1).kind.LBrace?
    ensures ParseParams(ts, i + 3, false, []) == Success(Parsed(ps, close))
  {
    close := i + 3 + |ParamListTokens(ps)|;
    FunctionLayout(ts, i, name, ParamListTokens(ps), stmts, end, close);
    ParamsAt(ts, i + 3, ps, [], close);
    assert [] + ps == ps;
  }

  /** Where the statements of a function written out from `i` to `end` lie: between its `{` and its `}`. */
  lemma FunctionBodyLayout(ts: seq<Token>, i: nat, name: string, ps: seq<Parameter>, body: seq<Statement>, end: nat, close: nat)
    requires ParamsWritable(ps) && AllSimple(body) && i <= end <= |ts| && ts[i..end] == FunctionTokens(name, ps, body)
    requires close == i + 3 + |ParamListTokens(ps)|
    ensures close + 2 <= end - 1 < |ts| && ts[close + 2..end - 1] == StatementsTokens(body) && ts[end - 1].kind.RBrace?
  {
    FunctionLayout(ts, i, name, ParamListTokens(ps), StatementsTokens(body), end, close);
  }

  /** The body of a function written out from `i` to `end`, read from after its `{` up to its `}`. */
  lemma FunctionBodyAt(ts: seq<Token>, i: nat, name: string, ps: seq<Parameter>, body: seq<Statement>, end: nat, close: nat)
    requires ParamsWritable(ps) && AllSimple(body) && i <= end <= |ts| && ts[i..end] == FunctionTokens(name, ps, body)
    requires close == i + 3 + |ParamListTokens(ps)|
    ensures BlockLoop(ts, close + 2, []) == Success(Parsed(BlockStatement(body), end - 1))
  {
    FunctionBodyLayout(ts, i, name, ps, body, end, close);
    BodyAt(ts, body, close, end);
  }

  /**
   * A function statement the function parser reads, not followed by a
   * semicolon, is the statement there, ending at its `}`.
   */
  lemma {:induction false} FunctionStatementAt(ts: seq<Token>, i: nat, name: string, ps: seq<Parameter>, close: nat, body: BlockStatement, next: nat)
    requires Tok(ts, i).kind.Func? && Tok(ts, i + 1) == Token(Ident, name) && Tok(ts, i + 2).kind.LParen?
    requires ParseParams(ts, i + 3, false, []) == Success(Parsed(ps, close))
    requires 0 < next && Tok(ts, close + 1).kind.LBrace? && BlockLoop(ts, close + 2, []) == Success(Parsed(body, next - 1))
    requires !Tok(ts, next).kind.Semi?
    ensures ParseStatement(ts, i) == Success(Parsed(FunctionStatement(name, ps, body), next - 1))
  {
    FunctionParsed(ts, i, name, ps, close, body, next - 1);
    assert SkipSemi(ts, next - 1) == next - 1;
  }


  /**
   * The tokens of a function statement, written out from `i` to `end` and not
   * followed by a semicolon, are read as that function.
   */
  lemma {:induction false} FunctionAt(ts: seq<Token>, i: nat, name: string, ps: seq<Parameter>, body: seq<Statement>, end: nat)
    requires ParamsWritable(ps) && AllSimple(body) && i <= end <= |ts| && ts[i..end] == FunctionTokens(name, ps, body)
    requires !Tok(ts, end).kind.Semi?
    ensures i + 1 < end && !ts[i].kind.Eof? && !ts[i + 1].kind.Eof?
    ensures ParseStatement(ts, i) == Success(Parsed(FunctionStatement(name, ps, BlockStatement(body)), end - 1))
  {
    var close := FunctionParamsAt(ts, i, name, ps, StatementsTokens(body), end);
    FunctionBodyAt(ts, i, name, ps, body, end, close);
    FunctionStatementAt(ts, i, name, ps, close, BlockStatement(body), end);
  }

  /** `return` and the tokens of `e`, without a semicolon. */
  function BareReturnTokens(e: Expression): seq<Token>
    requires WellFormed(e)
  {
    [Token(Return, "return")] + Unparse(e)
  }

  /** A function whose body is a single `return`, closed by `}` without a semicolon. */
  function ReturningFunctionTokens(name: string, ps: seq<Parameter>, e: Expression): seq<Token>
    requires DefaultsWellFormed(ps) && WellFormed(e)
  {
    FunctionShape(name, ParamListTokens(ps), BareReturnTokens(e))
  }

  /**
   * The body of a function whose `)` is at `close` and whose `}` is the last
   * token before `end`, holding only `return` and the tokens of `e`: the
   * semicolon may be left out.
   */
  lemma {:induction false} ReturnBlockAt(ts: seq<Token>, e: Expression, close: nat, end: nat)
    requires WellFormed(e)
    requires close + 2 <= end - 1 < |ts| && ts[close + 2..end - 1] == BareReturnTokens(e) && ts[end - 1].kind.RBrace?
    ensures BlockLoop(ts, close + 2, []) == Success(Parsed(BlockStatement([ReturnStatement(e)]), end - 1))
  {
    var i, last := close + 2, end - 1;
    SplitAt(ts, i, i + 1, last, [Token(Return, "return")], Unparse(e));
    assert ts[i] == ts[i..i + 1][0];
    ReturnAt(ts, i, e, last);
    assert SkipSemi(ts, last - 1) == last - 1;
    BlockStep(ts, i, [], ReturnStatement(e), last);
    assert [] + [ReturnStatement(e)] == [ReturnStatement(e)];
  }


  /** The body of a single-return function written out from `i` to `end`, read up to its `}`. */
  lemma {:induction false} ReturningBodyAt(ts: seq<Token>, i: nat, name: string, ps: seq<Parameter>, e: Expression, end: nat, close: nat)
    requires ParamsWritable(ps) && WellFormed(e) && i <= end <= |ts| && ts[i..end] == ReturningFunctionTokens(name, ps, e)
    requires close == i + 3 + |ParamListTokens(ps)|
    ensures BlockLoop(ts, close + 2, []) == Success(Parsed(BlockStatement([ReturnStatement(e)]), end - 1))
  {
    FunctionLayout(ts, i, name, ParamListTokens(ps), BareReturnTokens(e), end, close);
    ReturnBlockAt(ts, e, close, end);
  }

  /**
   * The tokens of a single-return function without the semicolon, written out
   * from `i` to `end` and not followed by one, are read as that function.
   */
  lemma {:induction false} ReturningFunctionAt(ts: seq<Token>, i: nat, name: string, ps: seq<Parameter>, e: Expression, end: nat)
    requires ParamsWritable(ps) && WellFormed(e) && i <= end <= |ts| && ts[i..end] == ReturningFunctionTokens(name, ps, e)
    requires !Tok(ts, end).kind.Semi?
    ensures i + 1 < end && !ts[i].kind.Eof? && !ts[i + 1].kind.Eof?
    ensures ParseStatement(ts, i) == Success(Parsed(FunctionStatement(name, ps, BlockStatement([ReturnStatement(e)])), end - 1))
  {
    var close := FunctionParamsAt(ts, i, name, ps, BareReturnTokens(e), end);
    ReturningBodyAt(ts, i, name, ps, e, end, close);
    FunctionStatementAt(ts, i, name, ps, close, BlockStatement([ReturnStatement(e)]), end);
  }

  /** One turn of the program loop as written over a statement that was read. */
  lemma AsWrittenStep(ts: seq<Token>, i: nat, acc: seq<Statement>, s: Statement, next: nat)
    requires 0 < next && i + 1 < |ts| && !ts[i + 1].kind.Eof? && ParseStatement(ts, i) == Success(Parsed(s, next - 1))
    ensures ProgramLoopAsWritten(ts, i, acc) == ProgramLoopAsWritten(ts, next, acc + [s])
  {
  }

  /** A stream the statement parser reads whole, from its first token to its last, is a program of that one statement for both program loops. */
  lemma OneStatementProgram(ts: seq<Token>, s: Statement)
    requires 1 < |ts| && !ts[0].kind.Eof? && !ts[1].kind.Eof?
    requires ParseStatement(ts, 0) == Success(Parsed(s, |ts| - 1))
    ensures ParseProgram(ts) == Success(Program([s]))
    ensures ParseProgramAsWritten(ts) == Success(Program([s]))
  {
    ProgramStep(ts, 0, [], s, |ts|);
    AsWrittenStep(ts, 0, [], s, |ts|);
    assert [] + [s] == [s];
  }

  /** The tokens of a function statement are read back as that function by both program loops. */
  lemma {:induction false} FunctionRoundTrip(name: string, ps: seq<Parameter>, body: seq<Statement>)
    requires ParamsWritable(ps) && AllSimple(body)
    ensures ParseProgram(FunctionTokens(name, ps, body)) == Success(Program([FunctionStatement(name, ps, BlockStatement(body))]))
    ensures ParseProgramAsWritten(FunctionTokens(name, ps, body)) == Success(Program([FunctionStatement(name, ps, BlockStatement(body))]))
  {
    var ts := FunctionTokens(name, ps, body);
    assert ts[0..|ts|] == ts;
    FunctionAt(ts, 0, name, ps, body, |ts|);
    assert ts[0].kind.Func? && ts[1].kind.Ident?;
    OneStatementProgram(ts, FunctionStatement(name, ps, BlockStatement(body)));
  }
}
