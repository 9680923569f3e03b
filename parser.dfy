/**
 * The parser object: the current and peek tokens, and one method per parsing
 * routine. The tables of registered parsing functions become a fixed case
 * split over the token kind. Each method is
 * proved to return what the matching function of `ParseSpec` returns, and to
 * leave the current token where that function says.
 */
module Parsing {
  import opened Results
  import opened Tokens
  import opened Numbers
  import opened Ast
  import opened ParseSpec

  /** What a routine returned, with the index of the token then current, in the form of `ParseSpec`. */
  function Outcome<T>(r: Result<T, ParseError>, pos: nat): (o: Parse<T>)
    ensures o.Success? <==> r.Success?
    ensures o.Success? ==> o.value == Parsed(r.value, pos)
    ensures o.Failure? ==> o.error == r.error
  {
    match r
    case Success(v) => Success(Parsed(v, pos))
    case Failure(e) => Failure(e)
  }

  /** `r`, with `last` current after it, is what the expression routine gives at `i` and `prec`. */
  predicate ExpressionOutcome(ts: seq<Token>, i: nat, prec: Prec, r: Result<Expression, ParseError>, last: nat)
  {
    Outcome(r, last) == ParseSpec.ParseExpression(ts, i, prec)
  }

  class Parser {
    /** The tokens the scanner returns, before `Eof`; from the end on it returns `Eof`. */
    const tokens: seq<Token>
    /** How many tokens the parser has advanced past: the index of the current token. */
    var pos: nat
    var currentToken: Token
    var peekToken: Token

    /** The current and peek tokens are the stream's tokens at `pos` and after it. */
    predicate Valid()
      reads this
    {
      currentToken == Tok(tokens, pos) && peekToken == Tok(tokens, pos + 1)
    }

    /** Reads the first two tokens of the stream. */
    constructor(ts: seq<Token>)
      ensures Valid() && tokens == ts && pos == 0
    {
      tokens := ts;
      pos := 0;
      currentToken := Tok(ts, 0);
      peekToken := Tok(ts, 1);
    }

    /** The peek token becomes current, and the scanner supplies the next peek token. */
    method NextToken()
      requires Valid()
      modifies this
      ensures Valid() && pos == old(pos) + 1 && currentToken == old(peekToken)
    {
      currentToken := peekToken;
      pos := pos + 1;
      peekToken := Tok(tokens, pos + 1);
    }

    /** The binding power of the current token: its entry in the precedence table, or `Lowest`. */
    function CurrentPrecedence(): (p: Prec)
      reads this
      ensures PrecedenceEntry(currentToken.kind).Some? ==> p == PrecedenceEntry(currentToken.kind).value
      ensures PrecedenceEntry(currentToken.kind).None? ==> p == Lowest
    {
      PrecedenceOf(currentToken.kind)
    }

    /** The binding power of the peek token: its entry in the precedence table, or `Lowest`. */
    function PeekPrecedence(): (p: Prec)
      reads this
      ensures PrecedenceEntry(peekToken.kind).Some? ==> p == PrecedenceEntry(peekToken.kind).value
      ensures PrecedenceEntry(peekToken.kind).None? ==> p == Lowest
    {
      PrecedenceOf(peekToken.kind)
    }

    /** Advances when the peek token has kind `k`; throws, leaving the state alone, otherwise. */
    method ExpectPeek(k: TokenKind) returns (r: Result<(), ParseError>)
      requires Valid()
      modifies this
      ensures Valid()
      ensures Outcome(r, pos) == ParseSpec.ExpectPeek(tokens, old(pos), k)
    {
      if peekToken.kind != k {
        return Failure(UnexpectedToken(k, peekToken.kind));
      }
      NextToken();
      return Success(());
    }

    // -------------------------------------------------------------------------
    // Programs and statements
    // -------------------------------------------------------------------------

    /** Statements until `Eof` is the current token. */
    method ParseProgram() returns (r: Result<Program, ParseError>)
      requires Valid() && pos == 0
      modifies this
      ensures Valid()
      ensures r == ParseSpec.ParseProgram(tokens)
    {
      var statements: seq<Statement> := [];
      while !currentToken.kind.Eof?
        invariant Valid()
        invariant ParseSpec.ParseProgram(tokens) == ProgramLoop(tokens, pos, statements)
        decreases Dist(tokens, pos)
      {
        var s := ParseStatement();
        if s.Failure? {
          return Failure(s.error);
        }
        statements := statements + [s.value];
        NextToken();
      }
      return Success(Program(statements));
    }

    /** One statement, chosen by the current token, and a semicolon after it if there is one. */
    method ParseStatement() returns (r: Result<Statement, ParseError>)
      requires Valid()
      modifies this
      ensures Valid()
      ensures Outcome(r, pos) == ParseSpec.ParseStatement(tokens, old(pos))
      decreases Dist(tokens, pos), 5
    {
      var k := currentToken.kind;
      if k.Let? || k.Const? || k.Var? {
        r := ParseLetStatement();
      } else if k.Return? {
        r := ParseReturnStatement();
      } else if k.Func? {
        r := ParseFunctionStatement();
      } else {
        r := ParseExpressionStatement();
      }
      if r.Failure? {
        return;
      }
      if peekToken.kind.Semi? {
        NextToken();
      }
    }

    /** `let`, `const` or `var`, a name, `=` and the initial value. */
    method ParseLetStatement() returns (r: Result<Statement, ParseError>)
      requires Valid()
      modifies this
      ensures Valid()
      ensures Outcome(r, pos) == ParseSpec.ParseLet(tokens, old(pos))
      decreases Dist(tokens, pos), 4
    {
      var tokenType := currentToken.kind;
      if !tokenType.Let? && !tokenType.Const? && !tokenType.Var? {
        return Failure(NotADeclaration(tokenType));
      }
      var name := ExpectPeek(Ident);
      if name.Failure? {
        return Failure(name.error);
      }
      var identifier := ParseIdent();
      var eq := ExpectPeek(Eq);
      if eq.Failure? {
        return Failure(eq.error);
      }
      NextToken();
      var expression := ParseExpression(Lowest);
      if expression.Failure? {
        return Failure(expression.error);
      }
      return Success(LetStatement(tokenType, identifier, expression.value));
    }

    /** `return` and the returned expression. */
    method ParseReturnStatement() returns (r: Result<Statement, ParseError>)
      requires Valid()
      modifies this
      ensures Valid()
      ensures Outcome(r, pos) == ParseSpec.ParseReturn(tokens, old(pos))
      decreases Dist(tokens, pos), 4
    {
      NextToken();
      var expression := ParseExpression(Lowest);
      if expression.Failure? {
        return Failure(expression.error);
      }
      return Success(ReturnStatement(expression.value));
    }

    /** `function`, a name, the parameter list and the body. */
    method ParseFunctionStatement() returns (r: Result<Statement, ParseError>)
      requires Valid()
      modifies this
      ensures Valid()
      ensures Outcome(r, pos) == ParseSpec.ParseFunction(tokens, old(pos))
      decreases Dist(tokens, pos), 4
    {
      var name := ExpectPeek(Ident);
      if name.Failure? {
        return Failure(name.error);
      }
      var functionName := currentToken.literal;
      var open := ExpectPeek(LParen);
      if open.Failure? {
        return Failure(open.error);
      }
      var parameters := ParseFunctionParams();
      if parameters.Failure? {
        return Failure(parameters.error);
      }
      var brace := ExpectPeek(LBrace);
      if brace.Failure? {
        return Failure(brace.error);
      }
      var body := ParseBlockStatement();
      if body.Failure? {
        return Failure(body.error);
      }
      return Success(FunctionStatement(functionName, parameters.value, body.value));
    }

    /**
     * The parameter list, the current token being its `(`: names with optional
     * default values, rest parameters and commas, up to `)` or the end.
     */
    method ParseFunctionParams() returns (r: Result<seq<Parameter>, ParseError>)
      requires Valid()
      modifies this
      ensures Valid()
      ensures Outcome(r, pos) == ParseParams(tokens, old(pos) + 1, false, [])
      decreases Dist(tokens, pos), 3
    {
      ghost var start := pos;
      NextToken();
      var identifiers: seq<Parameter> := [];
      var hasEncounteredRestToken := false;
      while !currentToken.kind.Eof? && !currentToken.kind.RParen?
        invariant Valid() && start < pos
        invariant ParseParams(tokens, start + 1, false, []) == ParseParams(tokens, pos, hasEncounteredRestToken, identifiers)
        decreases Dist(tokens, pos)
      {
        var step, restSeen := ParseParameter(hasEncounteredRestToken, identifiers);
        if step.Failure? {
          return Failure(step.error);
        }
        identifiers, hasEncounteredRestToken := step.value, restSeen;
      }
      return Success(identifiers);
    }

    /**
     * One turn of the parameter loop: a rest parameter, a name with an
     * optional default value, or a comma, appended to `identifiers`.
     */
    method ParseParameter(hasEncounteredRestToken: bool, identifiers: seq<Parameter>)
      returns (r: Result<seq<Parameter>, ParseError>, restSeen: bool)
      requires Valid()
      modifies this
      ensures Valid()
      ensures ParamStep(tokens, old(pos), hasEncounteredRestToken, identifiers) ==
        if r.Success? then Success(ParamTurn(pos, restSeen, r.value)) else Failure(r.error)
      decreases Dist(tokens, pos), 2
    {
      if (currentToken.kind.DotDotDot? || currentToken.kind.Ident?) && hasEncounteredRestToken {
        return Failure(RestNotLast), true;
      } else if currentToken.kind.DotDotDot? {
        r := ParseRestParameter(identifiers);
        restSeen := true;
      } else if currentToken.kind.Ident? {
        r := ParseNamedParameter(identifiers);
        restSeen := false;
      } else if currentToken.kind.Comma? {
        NextToken();
        return Success(identifiers), hasEncounteredRestToken;
      } else {
        return Failure(UnexpectedParamToken(currentToken.kind)), hasEncounteredRestToken;
      }
    }

    /** A rest parameter, `...` and its name, which may not have a default value. */
    method ParseRestParameter(identifiers: seq<Parameter>) returns (r: Result<seq<Parameter>, ParseError>)
      requires Valid() && currentToken.kind.DotDotDot?
      modifies this
      ensures Valid()
      ensures ParamStep(tokens, old(pos), false, identifiers) ==
        if r.Success? then Success(ParamTurn(pos, true, r.value)) else Failure(r.error)
    {
      NextToken();
      var ident := ParseIdent();
      if peekToken.kind.Eq? {
        return Failure(RestWithDefault);
      }
      NextToken();
      return Success(identifiers + [Parameter(ident, None, true)]);
    }

    /** A named parameter, with a default value when `=` follows the name. */
    method ParseNamedParameter(identifiers: seq<Parameter>) returns (r: Result<seq<Parameter>, ParseError>)
      requires Valid() && currentToken.kind.Ident?
      modifies this
      ensures Valid()
      ensures ParamStep(tokens, old(pos), false, identifiers) ==
        if r.Success? then Success(ParamTurn(pos, false, r.value)) else Failure(r.error)
      decreases Dist(tokens, pos), 1
    {
      ghost var start := pos;
      var ident := ParseIdent();
      var defaultValue: Option<Expression> := None;
      if peekToken.kind.Eq? {
        NextToken();
        NextToken();
        var d := ParseExpression(Lowest);
        ghost var e := ParseSpec.ParseExpression(tokens, start + 2, Lowest);
        assert Outcome(d, pos) == e;
        if d.Failure? {
          return Failure(d.error);
        }
        assert e.value == Parsed(d.value, pos);
        defaultValue := Some(d.value);
      }
      NextToken();
      return Success(identifiers + [Parameter(ident, defaultValue, false)]);
    }

    /** A block, the current token being its `{`: statements up to `}` or the end. */
    method ParseBlockStatement() returns (r: Result<BlockStatement, ParseError>)
      requires Valid()
      modifies this
      ensures Valid()
      ensures Outcome(r, pos) == ParseSpec.ParseBlock(tokens, old(pos))
      decreases Dist(tokens, pos), 7
    {
      ghost var start := pos;
      NextToken();
      var statements: seq<Statement> := [];
      while !currentToken.kind.RBrace? && !currentToken.kind.Eof?
        invariant Valid() && start < pos
        invariant ParseSpec.ParseBlock(tokens, start) == BlockLoop(tokens, pos, statements)
        decreases Dist(tokens, pos)
      {
        var s := ParseStatement();
        if s.Failure? {
          return Failure(s.error);
        }
        statements := statements + [s.value];
        NextToken();
      }
      return Success(BlockStatement(statements));
    }

    /** An expression used as a statement, and a semicolon after it if there is one. */
    method ParseExpressionStatement() returns (r: Result<Statement, ParseError>)
      requires Valid()
      modifies this
      ensures Valid()
      ensures Outcome(r, pos) == ParseSpec.ParseExpressionStatement(tokens, old(pos))
      decreases Dist(tokens, pos), 4
    {
      var expression := ParseExpression(Lowest);
      if expression.Failure? {
        return Failure(expression.error);
      }
      if peekToken.kind.Semi? {
        NextToken();
      }
      return Success(ExpressionStatement(expression.value));
    }

    // -------------------------------------------------------------------------
    // Expressions
    // -------------------------------------------------------------------------

    /**
     * The prefix function of the current token, then, while the peek token is
     * an operator binding tighter than `precedence`, its infix function with
     * everything parsed so far as the left operand.
     */
    method ParseExpression(precedence: Prec) returns (r: Result<Expression, ParseError>)
      requires Valid()
      modifies this
      ensures Valid()
      ensures ExpressionOutcome(tokens, old(pos), precedence, r, pos)
      decreases Dist(tokens, pos), 2
    {
      var prefix := ParsePrefixFn();
      if prefix.Failure? {
        return Failure(prefix.error);
      }
      r := ParseInfixLoop(prefix.value, precedence);
    }

    /**
     * The loop of the expression routine: while the peek token is an
     * operator binding tighter than `precedence`, its infix function with
     * everything parsed so far as the left operand.
     */
    method ParseInfixLoop(left0: Expression, precedence: Prec) returns (r: Result<Expression, ParseError>)
      requires Valid() && pos < |tokens|
      modifies this
      ensures Valid()
      ensures Outcome(r, pos) == InfixLoop(tokens, left0, old(pos), precedence)
      decreases Dist(tokens, pos), 1
    {
      ghost var start := pos;
      var left := left0;
      while !peekToken.kind.Semi? && !peekToken.kind.Eof? && Level(precedence) < Level(PeekPrecedence())
        invariant Valid() && start <= pos < |tokens|
        invariant InfixLoop(tokens, left0, start, precedence) == InfixLoop(tokens, left, pos, precedence)
        decreases Dist(tokens, pos)
      {
        if !HasInfixFn(peekToken.kind) {
          return Success(left);
        }
        NextToken();
        var node := ParseInfix(left);
        if node.Failure? {
          return Failure(node.error);
        }
        left := node.value;
      }
      return Success(left);
    }

    /** The prefix function registered for the current token, applied; it throws when there is none. */
    method ParsePrefixFn() returns (r: Result<Expression, ParseError>)
      requires Valid()
      modifies this
      ensures Valid()
      ensures Outcome(r, pos) == Prefix(tokens, old(pos))
      decreases Dist(tokens, pos), 1
    {
      var k := currentToken.kind;
      if k.Number? {
        var e := ParseNumber();
        return Success(e);
      } else if k.String? {
        var e := ParseString();
        return Success(e);
      } else if k.Ident? {
        var e := ParseIdent();
        return Success(e);
      } else if k.Minus? {
        r := ParsePrefix();
      } else if k.LParen? {
        r := ParseGroupedExpression();
      } else {
        return Failure(NoPrefixParseFn(k));
      }
    }

    /** A number node whose value is the current token's literal read as a number. */
    method ParseNumber() returns (e: Expression)
      requires Valid() && currentToken.kind.Number?
      ensures e == NumberLiteral(NumberValue(currentToken.literal))
    {
      return NumberLiteral(NumberValue(currentToken.literal));
    }

    /** A string node holding the current token's literal. */
    method ParseString() returns (e: Expression)
      requires Valid()
      ensures e == StringLiteral(currentToken.literal)
    {
      return StringLiteral(currentToken.literal);
    }

    /** An identifier node named by the current token's literal. */
    method ParseIdent() returns (e: IdentifierNode)
      requires Valid()
      ensures e == Identifier(currentToken.literal)
    {
      return Identifier(currentToken.literal);
    }

    /** The current token as a prefix operator, applied to the expression after it parsed at `PrefixLevel`. */
    method ParsePrefix() returns (r: Result<Expression, ParseError>)
      requires Valid() && currentToken.kind.Minus?
      modifies this
      ensures Valid()
      ensures Outcome(r, pos) == PrefixOperator(tokens, old(pos))
      decreases Dist(tokens, pos), 0
    {
      var operator := currentToken.literal;
      NextToken();
      var right := ParseExpression(PrefixLevel);
      if right.Failure? {
        return Failure(right.error);
      }
      return Success(PrefixExpression(operator, right.value));
    }

    /** The expression inside parentheses, the current token being `(`; the closing `)` must follow it. */
    method ParseGroupedExpression() returns (r: Result<Expression, ParseError>)
      requires Valid() && currentToken.kind.LParen?
      modifies this
      ensures Valid()
      ensures Outcome(r, pos) == Grouped(tokens, old(pos))
      decreases Dist(tokens, pos), 0
    {
      NextToken();
      var expression := ParseExpression(Lowest);
      if expression.Failure? {
        return Failure(expression.error);
      }
      var close := ExpectPeek(RParen);
      if close.Failure? {
        return Failure(close.error);
      }
      return Success(expression.value);
    }

    /** The current token as an infix operator, whose right operand is parsed at the operator's own precedence. */
    method ParseInfix(left: Expression) returns (r: Result<Expression, ParseError>)
      requires Valid() && !currentToken.kind.Eof?
      modifies this
      ensures Valid()
      ensures Outcome(r, pos) == Infix(tokens, left, old(pos))
      decreases Dist(tokens, pos), 0
    {
      var operator := currentToken.literal;
      var precedence := CurrentPrecedence();
      NextToken();
      var right := ParseExpression(precedence);
      if right.Failure? {
        return Failure(right.error);
      }
      return Success(InfixExpression(left, operator, right.value));
    }
  }
}
