/**
 * The parser as a function of the token stream. A stream is the sequence of
 * tokens the scanner returns before `Eof`; past its end the scanner keeps
 * returning `Eof`. A parser state is the index of the current token (the peek
 * token is the next index), and every parsing routine returns the node it
 * built together with the index of the token that is current when it
 * returns, or the error it throws.
 */
module ParseSpec {
  import opened Results
  import opened Tokens
  import opened Numbers
  import opened Ast
  import opened LexSpec

  /** The errors the parser throws. */
  datatype ParseError =
    | UnexpectedToken(expected: TokenKind, got: TokenKind)   // `expectPeek` saw another kind
    | NotADeclaration(got: TokenKind)                          // let statement without let, const or var
    | NoPrefixParseFn(kind: TokenKind)                         // no expression can start with this token
    | RestWithDefault                                          // `...x = e`
    | RestNotLast                                              // a parameter after a rest parameter
    | UnexpectedParamToken(got: TokenKind)                     // neither a name, `...` nor a comma in a parameter list

  /** A node and the index of the token that is current after it was parsed. */
  datatype Parsed<+T> = Parsed(value: T, last: nat)

  type Parse<+T> = Result<Parsed<T>, ParseError>

  /** The token at index `i`: `Eof` from the end of the stream on. */
  function Tok(ts: seq<Token>, i: nat): (t: Token)
    ensures i >= |ts| ==> t.kind.Eof?
  {
    if i < |ts| then ts[i] else EofToken
  }

  /** How many tokens are left from index `i` on; the termination measure of every routine. */
  function Dist(ts: seq<Token>, i: nat): nat
  {
    if i < |ts| then |ts| - i else 0
  }

  /** The kinds with a registered prefix parsing function. */
  predicate HasPrefixFn(k: TokenKind)
  {
    k.Number? || k.String? || k.Ident? || k.Minus? || k.LParen?
  }

  /** The kinds with a registered infix parsing function. */
  predicate HasInfixFn(k: TokenKind)
  {
    k.Plus? || k.Minus? || k.Asterisk? || k.Slash? || k.Percent? || k.Cap?
  }

  /**
   * The expression loop at precedence `prec` ends when the peek token is `t`:
   * a semicolon, the end, a token binding no tighter than `prec`, or one
   * without an infix function.
   */
  predicate StopsAt(t: Token, prec: Prec)
  {
    t.kind.Semi? || t.kind.Eof? || Level(PrecedenceOf(t.kind)) <= Level(prec) || !HasInfixFn(t.kind)
  }

  /** Advances past the peek token when it has kind `k`, and throws otherwise. */
  function ExpectPeek(ts: seq<Token>, i: nat, k: TokenKind): (r: Parse<()>)
    ensures r.Success? <==> Tok(ts, i + 1).kind == k
    ensures r.Success? ==> r.value.last == i + 1
    ensures r.Failure? ==> r.error == UnexpectedToken(k, Tok(ts, i + 1).kind)
  {
    if Tok(ts, i + 1).kind == k then Success(Parsed((), i + 1))
    else Failure(UnexpectedToken(k, Tok(ts, i + 1).kind))
  }

  /** Advances past a semicolon in peek position, if there is one. */
  function SkipSemi(ts: seq<Token>, i: nat): (j: nat)
    ensures j == i || j == i + 1
    ensures j == i + 1 <==> Tok(ts, i + 1).kind.Semi?
  {
    if Tok(ts, i + 1).kind.Semi? then i + 1 else i
  }

  // ---------------------------------------------------------------------------
  // Expressions
  // ---------------------------------------------------------------------------

  /** An expression whose operators all bind tighter than `prec`, starting at the current token. */
  function ParseExpression(ts: seq<Token>, i: nat, prec: Prec): (r: Parse<Expression>)
    ensures r.Success? ==> i <= r.value.last < |ts|
    decreases Dist(ts, i), 2
  {
    match Prefix(ts, i)
    case Failure(err) => Failure(err)
    case Success(left) => InfixLoop(ts, left.value, left.last, prec)
  }

  /** The prefix parsing function registered for the current token, applied. */
  function Prefix(ts: seq<Token>, i: nat): (r: Parse<Expression>)
    ensures r.Success? ==> i <= r.value.last < |ts|
    decreases Dist(ts, i), 1
  {
    var t := Tok(ts, i);
    if t.kind.Number? then Success(Parsed(NumberLiteral(NumberValue(t.literal)), i))
    else if t.kind.String? then Success(Parsed(StringLiteral(t.literal), i))
    else if t.kind.Ident? then Success(Parsed(Identifier(t.literal), i))
    else if t.kind.Minus? then PrefixOperator(ts, i)
    else if t.kind.LParen? then Grouped(ts, i)
    else Failure(NoPrefixParseFn(t.kind))
  }

  /** A prefix operator applied to the expression after it, which binds at `PrefixLevel`. */
  function PrefixOperator(ts: seq<Token>, i: nat): (r: Parse<Expression>)
    requires i < |ts|
    ensures r.Success? ==> i < r.value.last < |ts|
    decreases Dist(ts, i), 0
  {
    match ParseExpression(ts, i + 1, PrefixLevel)
    case Failure(err) => Failure(err)
    case Success(right) => Success(Parsed(PrefixExpression(Tok(ts, i).literal, right.value), right.last))
  }

  /** A parenthesised expression: the expression inside, with no node for the parentheses. */
  function Grouped(ts: seq<Token>, i: nat): (r: Parse<Expression>)
    requires i < |ts|
    ensures r.Success? ==> i < r.value.last < |ts| && Tok(ts, r.value.last).kind.RParen?
    decreases Dist(ts, i), 0
  {
    match ParseExpression(ts, i + 1, Lowest)
    case Failure(err) => Failure(err)
    case Success(inner) =>
      match ExpectPeek(ts, inner.last, RParen)
      case Failure(err) => Failure(err)
      case Success(close) => Success(Parsed(inner.value, close.last))
  }

  /**
   * The loop of the expression routine: while the peek token is an infix
   * operator binding tighter than `prec`, it becomes the operator of a node
   * whose left operand is everything parsed so far.
   */
  function InfixLoop(ts: seq<Token>, left: Expression, i: nat, prec: Prec): (r: Parse<Expression>)
    requires i < |ts|
    ensures r.Success? ==> i <= r.value.last < |ts|
    decreases Dist(ts, i), 0
  {
    if StopsAt(Tok(ts, i + 1), prec) then Success(Parsed(left, i))
    else
      match Infix(ts, left, i + 1)
      case Failure(err) => Failure(err)
      case Success(node) => InfixLoop(ts, node.value, node.last, prec)
  }

  /**
   * The infix parsing function, the operator being the current token: the
   * right operand binds tighter than the operator, so equal operators group
   * to the left.
   */
  function Infix(ts: seq<Token>, left: Expression, i: nat): (r: Parse<Expression>)
    requires i < |ts|
    ensures r.Success? ==> i < r.value.last < |ts|
    decreases Dist(ts, i), 0
  {
    var op := Tok(ts, i);
    match ParseExpression(ts, i + 1, PrecedenceOf(op.kind))
    case Failure(err) => Failure(err)
    case Success(right) => Success(Parsed(InfixExpression(left, op.literal, right.value), right.last))
  }

  // ---------------------------------------------------------------------------
  // Statements
  // ---------------------------------------------------------------------------

  /** One statement, chosen by the current token, followed by an optional semicolon. */
  function ParseStatement(ts: seq<Token>, i: nat): (r: Parse<Statement>)
    ensures r.Success? ==> i <= r.value.last
    decreases Dist(ts, i), 5
  {
    var k := Tok(ts, i).kind;
    var body := if k.Let? || k.Const? || k.Var? then ParseLet(ts, i)
                else if k.Return? then ParseReturn(ts, i)
                else if k.Func? then ParseFunction(ts, i)
                else ParseExpressionStatement(ts, i);
    match body
    case Failure(err) => Failure(err)
    case Success(s) => Success(Parsed(s.value, SkipSemi(ts, s.last)))
  }

  /** `let`, `const` or `var`, a name, `=` and the initial value. */
  function ParseLet(ts: seq<Token>, i: nat): (r: Parse<Statement>)
    ensures r.Success? ==> i < r.value.last
    ensures r.Success? ==> r.value.value.LetStatement? && r.value.value.tokenType == Tok(ts, i).kind
    ensures r.Success? ==> Tok(ts, i + 1).kind.Ident? && Tok(ts, i + 2).kind.Eq?
    ensures r.Success? ==> r.value.value.identifier == Identifier(Tok(ts, i + 1).literal)
    ensures var k := Tok(ts, i).kind; !(k.Let? || k.Const? || k.Var?) ==> r == Failure(NotADeclaration(k))
    ensures var k := Tok(ts, i).kind; (k.Let? || k.Const? || k.Var?) && !Tok(ts, i + 1).kind.Ident? ==>
      r == Failure(UnexpectedToken(Ident, Tok(ts, i + 1).kind))
    ensures var k := Tok(ts, i).kind; (k.Let? || k.Const? || k.Var?) && Tok(ts, i + 1).kind.Ident? && !Tok(ts, i + 2).kind.Eq? ==>
      r == Failure(UnexpectedToken(Eq, Tok(ts, i + 2).kind))
    decreases Dist(ts, i), 4
  {
    var k := Tok(ts, i).kind;
    if !k.Let? && !k.Const? && !k.Var? then Failure(NotADeclaration(k))
    else
      if !Tok(ts, i + 1).kind.Ident? then Failure(UnexpectedToken(Ident, Tok(ts, i + 1).kind))
      else if !Tok(ts, i + 2).kind.Eq? then Failure(UnexpectedToken(Eq, Tok(ts, i + 2).kind))
      else
        match ParseExpression(ts, i + 3, Lowest)
        case Failure(err) => Failure(err)
        case Success(e) => Success(Parsed(LetStatement(k, Identifier(Tok(ts, i + 1).literal), e.value), e.last))
  }

  /** `return` and the returned expression. */
  function ParseReturn(ts: seq<Token>, i: nat): (r: Parse<Statement>)
    ensures r.Success? ==> i < r.value.last && r.value.value.ReturnStatement?
    decreases Dist(ts, i), 4
  {
    match ParseExpression(ts, i + 1, Lowest)
    case Failure(err) => Failure(err)
    case Success(e) => Success(Parsed(ReturnStatement(e.value), e.last))
  }

  /** `function`, a name, the parameter list and the body. */
  function ParseFunction(ts: seq<Token>, i: nat): (r: Parse<Statement>)
    ensures r.Success? ==> i < r.value.last && r.value.value.FunctionStatement?
    decreases Dist(ts, i), 4
  {
    if !Tok(ts, i + 1).kind.Ident? then Failure(UnexpectedToken(Ident, Tok(ts, i + 1).kind))
    else if !Tok(ts, i + 2).kind.LParen? then Failure(UnexpectedToken(LParen, Tok(ts, i + 2).kind))
    else
      match ParseParams(ts, i + 3, false, [])
      case Failure(err) => Failure(err)
      case Success(ps) =>
        if !Tok(ts, ps.last + 1).kind.LBrace? then Failure(UnexpectedToken(LBrace, Tok(ts, ps.last + 1).kind))
        else
          match ParseBlock(ts, ps.last + 1)
          case Failure(err) => Failure(err)
          case Success(body) => Success(Parsed(FunctionStatement(Tok(ts, i + 1).literal, ps.value, body.value), body.last))
  }

  /** The state of the parameter loop after one turn: the current token, the rest flag and the parameters so far. */
  datatype ParamTurn = ParamTurn(next: nat, rest: bool, params: seq<Parameter>)

  /**
   * One turn of the parameter loop at the current token: a rest parameter
   * (`...` and a name, which may not have a default value), a name with an
   * optional default value after `=`, or a comma, which is skipped. No
   * parameter may follow a rest parameter. A rest parameter takes the
   * literal of whatever token follows `...` as its name.
   */
  function ParamStep(ts: seq<Token>, i: nat, rest: bool, acc: seq<Parameter>): (r: Result<ParamTurn, ParseError>)
    ensures r.Success? ==> i < r.value.next
  {
    var t := Tok(ts, i);
    if t.kind.DotDotDot? then
      if rest then Failure(RestNotLast)
      else if Tok(ts, i + 2).kind.Eq? then Failure(RestWithDefault)
      else Success(ParamTurn(i + 2, true, acc + [Parameter(Identifier(Tok(ts, i + 1).literal), None, true)]))
    else if t.kind.Ident? then
      if rest then Failure(RestNotLast)
      else if Tok(ts, i + 1).kind.Eq? then
        match ParseExpression(ts, i + 2, Lowest)
        case Failure(err) => Failure(err)
        case Success(d) => Success(ParamTurn(d.last + 1, false, acc + [Parameter(Identifier(t.literal), Some(d.value), false)]))
      else Success(ParamTurn(i + 1, false, acc + [Parameter(Identifier(t.literal), None, false)]))
    else if t.kind.Comma? then Success(ParamTurn(i + 1, rest, acc))
    else Failure(UnexpectedParamToken(t.kind))
  }

  /**
   * The loop over a parameter list, `rest` telling whether a rest parameter
   * was seen: one turn per token until `)` or the end of the stream.
   */
  function ParseParams(ts: seq<Token>, i: nat, rest: bool, acc: seq<Parameter>): (r: Parse<seq<Parameter>>)
    ensures r.Success? ==> i <= r.value.last
    decreases Dist(ts, i)
  {
    var t := Tok(ts, i);
    if t.kind.Eof? || t.kind.RParen? then Success(Parsed(acc, i))
    else
      match ParamStep(ts, i, rest, acc)
      case Failure(err) => Failure(err)
      case Success(turn) => ParseParams(ts, turn.next, turn.rest, turn.params)
  }

  /** A block, the current token being its `{`: statements up to the matching `}` or the end. */
  function ParseBlock(ts: seq<Token>, i: nat): (r: Parse<BlockStatement>)
    ensures r.Success? ==> i < r.value.last
    decreases Dist(ts, i), 7
  {
    BlockLoop(ts, i + 1, [])
  }

  /** The loop of a block: one statement per turn until `}` or the end is current. */
  function BlockLoop(ts: seq<Token>, i: nat, acc: seq<Statement>): (r: Parse<BlockStatement>)
    ensures r.Success? ==> i <= r.value.last
    decreases Dist(ts, i), 6
  {
    var k := Tok(ts, i).kind;
    if k.RBrace? || k.Eof? then Success(Parsed(BlockStatement(acc), i))
    else
      match ParseStatement(ts, i)
      case Failure(err) => Failure(err)
      case Success(s) => BlockLoop(ts, s.last + 1, acc + [s.value])
  }

  /** An expression used as a statement, and an optional semicolon. */
  function ParseExpressionStatement(ts: seq<Token>, i: nat): (r: Parse<Statement>)
    ensures r.Success? ==> i <= r.value.last && r.value.value.ExpressionStatement?
    decreases Dist(ts, i), 4
  {
    match ParseExpression(ts, i, Lowest)
    case Failure(err) => Failure(err)
    case Success(e) => Success(Parsed(ExpressionStatement(e.value), SkipSemi(ts, e.last)))
  }

  // ---------------------------------------------------------------------------
  // Programs
  // ---------------------------------------------------------------------------

  /** The statements of a whole stream. */
  function ParseProgram(ts: seq<Token>): Result<Program, ParseError>
  {
    ProgramLoop(ts, 0, [])
  }

  /** The loop of a program: one statement per turn until the current token is `Eof`. */
  function ProgramLoop(ts: seq<Token>, i: nat, acc: seq<Statement>): Result<Program, ParseError>
    decreases Dist(ts, i)
  {
    if Tok(ts, i).kind.Eof? then Success(Program(acc))
    else
      match ParseStatement(ts, i)
      case Failure(err) => Failure(err)
      case Success(s) => ProgramLoop(ts, s.last + 1, acc + [s.value])
  }

  // ---------------------------------------------------------------------------
  // Where the loops stop
  // ---------------------------------------------------------------------------

  /** A parameter list that parses ends with `)` or the end of the stream as the current token. */
  lemma {:induction false} ParamsStopAtClose(ts: seq<Token>, i: nat, rest: bool, acc: seq<Parameter>)
    requires ParseParams(ts, i, rest, acc).Success?
    ensures var k := Tok(ts, ParseParams(ts, i, rest, acc).value.last).kind; k.RParen? || k.Eof?
    decreases Dist(ts, i)
  {
    var k := Tok(ts, i).kind;
    if !k.Eof? && !k.RParen? {
      var turn := ParamStep(ts, i, rest, acc).value;
      ParamsStopAtClose(ts, turn.next, turn.rest, turn.params);
    }
  }

  /** A block's loop that parses ends with `}` or the end of the stream as the current token. */
  lemma {:induction false} BlockStopsAtClose(ts: seq<Token>, i: nat, acc: seq<Statement>)
    requires BlockLoop(ts, i, acc).Success?
    ensures var k := Tok(ts, BlockLoop(ts, i, acc).value.last).kind; k.RBrace? || k.Eof?
    decreases Dist(ts, i)
  {
    var k := Tok(ts, i).kind;
    if !k.RBrace? && !k.Eof? {
      var s := ParseStatement(ts, i).value;
      BlockStopsAtClose(ts, s.last + 1, acc + [s.value]);
    }
  }
}
