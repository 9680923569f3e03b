/**
 * What the expression routine promises about where an expression may start
 * and where it ends: only five kinds of token start one, a token without an
 * infix function ends one without being consumed, and parentheses leave no
 * node behind.
 */
module ParseProps {
  import opened Results
  import opened Tokens
  import opened Ast
  import opened ParseSpec

  /** An expression cannot start with a token that has no prefix function: the routine throws naming that token. */
  lemma NoPrefixFunctionFails(ts: seq<Token>, i: nat, prec: Prec)
    requires !HasPrefixFn(Tok(ts, i).kind)
    ensures ParseExpression(ts, i, prec) == Failure(NoPrefixParseFn(Tok(ts, i).kind))
  {
  }

  /** A number, string or name is a whole prefix on its own: the current token does not move. */
  lemma LiteralPrefix(ts: seq<Token>, i: nat)
    requires Tok(ts, i).kind.Number? || Tok(ts, i).kind.String? || Tok(ts, i).kind.Ident?
    ensures Prefix(ts, i).Success? && Prefix(ts, i).value.last == i
    ensures !Prefix(ts, i).value.value.PrefixExpression? && !Prefix(ts, i).value.value.InfixExpression?
  {
  }

  /**
   * A semicolon, the end, or a token without an infix function in peek
   * position ends the expression loop at once, whatever the precedence:
   * the left operand is the result and the peek token is not consumed.
   */
  lemma {:induction false} NoInfixFunctionStops(ts: seq<Token>, left: Expression, i: nat, prec: Prec)
    requires i < |ts|
    requires var k := Tok(ts, i + 1).kind; k.Semi? || k.Eof? || !HasInfixFn(k)
    ensures InfixLoop(ts, left, i, prec) == Success(Parsed(left, i))
  {
    assert StopsAt(Tok(ts, i + 1), prec);
  }

  /** `==` has a precedence but no infix function, so a name before it is the whole expression. */
  lemma {:induction false} EqualityEndsExpression(ts: seq<Token>, i: nat, prec: Prec)
    requires i + 1 < |ts| && ts[i].kind.Ident? && ts[i + 1].kind.EqEq?
    ensures ParseExpression(ts, i, prec) == Success(Parsed(Identifier(ts[i].literal), i))
  {
    LiteralPrefix(ts, i);
    NoInfixFunctionStops(ts, Identifier(ts[i].literal), i, prec);
  }

  /** Parentheses build no node: a group is the expression inside it. */
  lemma GroupHasNoNode(ts: seq<Token>, i: nat)
    requires i < |ts| && Grouped(ts, i).Success?
    ensures ParseExpression(ts, i + 1, Lowest).Success?
    ensures Grouped(ts, i).value.value == ParseExpression(ts, i + 1, Lowest).value.value
    ensures Grouped(ts, i).value.last == ParseExpression(ts, i + 1, Lowest).value.last + 1
  {
  }

  /** A group whose expression is not followed by `)` is an error naming the token found instead. */
  lemma UnclosedGroupFails(ts: seq<Token>, i: nat)
    requires i < |ts| && ParseExpression(ts, i + 1, Lowest).Success?
    requires !Tok(ts, ParseExpression(ts, i + 1, Lowest).value.last + 1).kind.RParen?
    ensures Grouped(ts, i) == Failure(UnexpectedToken(RParen, Tok(ts, ParseExpression(ts, i + 1, Lowest).value.last + 1).kind))
  {
  }

  /** `a == b` */
  function EqualityTokens(): seq<Token>
  {
    [Token(Ident, "a"), Token(EqEq, "=="), Token(Ident, "b")]
  }

  /**
   * `a == b` is not a program: `a` is a statement of its own, and the next
   * statement would have to start with `==`, which has no prefix function.
   */
  lemma EqualityIsNotAProgram()
    ensures ParseProgram(EqualityTokens()) == Failure(NoPrefixParseFn(EqEq))
  {
    var ts := EqualityTokens();
    EqualityEndsExpression(ts, 0, Lowest);
    assert ParseStatement(ts, 0) == Success(Parsed(ExpressionStatement(Identifier("a")), 0));
    NoPrefixFunctionFails(ts, 1, Lowest);
    assert ParseStatement(ts, 1) == Failure(NoPrefixParseFn(EqEq));
  }
}
