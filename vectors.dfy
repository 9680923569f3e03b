/**
 * Whole programs made of one expression, and the precedence examples of the
 * parser's test suite: each token stream parses to a single statement whose
 * printed form is the expected parenthesisation.
 */
module Vectors {
  import opened Results
  import opened Tokens
  import opened Numbers
  import opened Ast
  import opened ParseSpec
  import opened Precedence
  import opened Findings

  /** The written-out form of a tree starts with a token that has a prefix parsing function. */
  lemma {:induction false} UnparseStartsExpression(e: Expression)
    requires WellFormed(e)
    ensures HasPrefixFn(Unparse(e)[0].kind)
    decreases e
  {
    if e.InfixExpression? {
      var l := Operand(e.left, Binding(e), true);
      assert Unparse(e)[0] == l[0];
      if !NeedsParens(e.left, Binding(e), true) {
        UnparseStartsExpression(e.left);
      }
    }
  }

  /** An expression that is not followed by a semicolon, started at a token with a prefix function, is a statement. */
  lemma {:induction false} ExpressionStatementAt(ts: seq<Token>, i: nat, e: Expression, last: nat)
    requires HasPrefixFn(Tok(ts, i).kind) && !Tok(ts, last + 1).kind.Semi?
    requires ParseExpression(ts, i, Lowest) == Success(Parsed(e, last))
    ensures ParseStatement(ts, i) == Success(Parsed(ExpressionStatement(e), last))
  {
    assert ParseExpressionStatement(ts, i) == Success(Parsed(ExpressionStatement(e), last));
  }

  /** A stream that is one expression, started at a token with a prefix function, is a program of one statement. */
  lemma {:induction false} SingleExpressionProgram(ts: seq<Token>, e: Expression)
    requires 0 < |ts| && HasPrefixFn(ts[0].kind)
    requires ParseExpression(ts, 0, Lowest) == Success(Parsed(e, |ts| - 1))
    ensures ParseProgram(ts) == Success(Program([ExpressionStatement(e)]))
  {
    var s := ExpressionStatement(e);
    ExpressionStatementAt(ts, 0, e, |ts| - 1);
    assert ProgramLoop(ts, |ts|, [s]) == Success(Program([s]));
    assert [] + [s] == [s];
  }

  /** A stream holding exactly the tokens of a tree is a program of one expression statement: that tree. */
  lemma {:induction false} WholeExpressionProgram(e: Expression)
    requires WellFormed(e)
    ensures ParseProgram(Unparse(e)) == Success(Program([ExpressionStatement(e)]))
  {
    RoundTrip(e);
    UnparseStartsExpression(e);
    SingleExpressionProgram(Unparse(e), e);
  }

  /**
   * The program loop as written reads the same single statement from a
   * written-out tree of at least two tokens, and nothing from a tree of one
   * token.
   */
  lemma {:induction false} AsWrittenOnTrees(e: Expression)
    requires WellFormed(e)
    ensures ParseProgramAsWritten(Unparse(e)) ==
      if |Unparse(e)| > 1 then Success(Program([ExpressionStatement(e)])) else Success(Program([]))
  {
    var ts := Unparse(e);
    RoundTrip(e);
    UnparseStartsExpression(e);
    if |ts| > 1 {
      ExpressionStatementAt(ts, 0, e, |ts| - 1);
      assert !ReachesLast(ts, |ts|);
      LoopsAgree(ts, 0, []);
      WholeExpressionProgram(e);
    }
  }

  /** A program that is the written-out form of `e` holds one statement, which prints as `e` does. */
  lemma {:induction false} ProgramPrints(ts: seq<Token>, e: Expression, text: string)
    requires WellFormed(e) && Unparse(e) == ts && PrintExpression(e) == text
    ensures ParseProgram(ts) == Success(Program([ExpressionStatement(e)]))
    ensures Print(StatementNode(ExpressionStatement(e))) == text
    ensures |ts| > 1 ==> ParseProgramAsWritten(ts) == Success(Program([ExpressionStatement(e)]))
  {
    WholeExpressionProgram(e);
    AsWrittenOnTrees(e);
  }

  // ---------------------------------------------------------------------------
  // Writing out small trees
  // ---------------------------------------------------------------------------

  function Num(n: nat): Expression
  {
    NumberLiteral(Decimal(n, []))
  }

  function Id(v: string): Expression
  {
    Identifier(v)
  }

  /** A one-digit number is written and printed as its digit. */
  lemma DigitToken(n: nat, c: char)
    requires n < 10 && c == ('0' as int + n) as char
    ensures WellFormed(Num(n)) && Unparse(Num(n)) == [Token(Number, [c])]
    ensures PrintExpression(Num(n)) == [c]
  {
    assert NatText(n) == [c];
    assert [c] + "" == [c];
    assert DecimalText(Decimal(n, [])) == [c];
  }

  /** A minus applied to an operand without an infix operator on top is written as the minus, then the operand. */
  lemma BareNegation(r: Expression)
    requires WellFormed(r) && !r.InfixExpression?
    ensures WellFormed(PrefixExpression("-", r))
    ensures Unparse(PrefixExpression("-", r)) == [Token(Minus, "-")] + Unparse(r)
  {
  }

  /** An infix tree whose operands need no parentheses is written as its operands around the operator. */
  lemma BareInfix(l: Expression, op: string, r: Expression)
    requires WellFormed(l) && WellFormed(r) && InfixKind(op).Some?
    requires !NeedsParens(l, PrecedenceOf(InfixKind(op).value), true)
    requires !NeedsParens(r, PrecedenceOf(InfixKind(op).value), false)
    ensures WellFormed(InfixExpression(l, op, r))
    ensures Unparse(InfixExpression(l, op, r)) == Unparse(l) + [Token(InfixKind(op).value, op)] + Unparse(r)
  {
  }

  /** An infix tree whose left operand, binding more loosely than the operator, is parenthesised. */
  lemma ParenLeftInfix(l: Expression, op: string, r: Expression)
    requires WellFormed(l) && WellFormed(r) && InfixKind(op).Some?
    requires NeedsParens(l, PrecedenceOf(InfixKind(op).value), true)
    requires !NeedsParens(r, PrecedenceOf(InfixKind(op).value), false)
    ensures WellFormed(InfixExpression(l, op, r))
    ensures Unparse(InfixExpression(l, op, r)) ==
      [OpenParen] + Unparse(l) + [CloseParen] + [Token(InfixKind(op).value, op)] + Unparse(r)
  {
  }

  /** An infix tree whose right operand, binding no tighter than the operator, is parenthesised. */
  lemma ParenRightInfix(l: Expression, op: string, r: Expression)
    requires WellFormed(l) && WellFormed(r) && InfixKind(op).Some?
    requires !NeedsParens(l, PrecedenceOf(InfixKind(op).value), true)
    requires NeedsParens(r, PrecedenceOf(InfixKind(op).value), false)
    ensures WellFormed(InfixExpression(l, op, r))
    ensures Unparse(InfixExpression(l, op, r)) ==
      Unparse(l) + [Token(InfixKind(op).value, op)] + [OpenParen] + Unparse(r) + [CloseParen]
  {
  }

  /** How an infix node prints, given how its operands print. */
  lemma PrintsInfix(l: Expression, op: string, r: Expression, lt: string, rt: string, text: string)
    requires PrintExpression(l) == lt && PrintExpression(r) == rt
    requires text == "(" + lt + " " + op + " " + rt + ")"
    ensures PrintExpression(InfixExpression(l, op, r)) == text
  {
  }

  // ---------------------------------------------------------------------------
  // The precedence examples
  // ---------------------------------------------------------------------------

  function Tk(k: TokenKind, literal: string): Token
  {
    Token(k, literal)
  }

  /** `1 + 2 * 3` */
  function SumOfProductTokens(): seq<Token>
  {
    [Tk(Number, "1"), Tk(Plus, "+"), Tk(Number, "2"), Tk(Asterisk, "*"), Tk(Number, "3")]
  }

  function SumOfProductTree(): Expression
  {
    InfixExpression(Num(1), "+", InfixExpression(Num(2), "*", Num(3)))
  }

  lemma SumOfProductLayout()
    ensures WellFormed(SumOfProductTree()) && Unparse(SumOfProductTree()) == SumOfProductTokens()
  {
    DigitToken(1, '1');
    DigitToken(2, '2');
    DigitToken(3, '3');
    BareInfix(Num(2), "*", Num(3));
    BareInfix(Num(1), "+", InfixExpression(Num(2), "*", Num(3)));
  }

  lemma SumOfProductPrinted()
    ensures PrintExpression(SumOfProductTree()) == "(1 + (2 * 3))"
  {
    DigitToken(1, '1');
    DigitToken(2, '2');
    DigitToken(3, '3');
  }

  /** `1 + 2 * 3` prints as `(1 + (2 * 3))`: the product binds tighter than the sum. */
  lemma SumOfProduct()
    ensures ParseProgram(SumOfProductTokens()) == Success(Program([ExpressionStatement(SumOfProductTree())]))
    ensures ParseProgramAsWritten(SumOfProductTokens()) == Success(Program([ExpressionStatement(SumOfProductTree())]))
    ensures Print(StatementNode(ExpressionStatement(SumOfProductTree()))) == "(1 + (2 * 3))"
  {
    SumOfProductLayout();
    SumOfProductPrinted();
    ProgramPrints(SumOfProductTokens(), SumOfProductTree(), "(1 + (2 * 3))");
  }

  /** `-1 * 3` */
  function NegatedFactorTokens(): seq<Token>
  {
    [Tk(Minus, "-"), Tk(Number, "1"), Tk(Asterisk, "*"), Tk(Number, "3")]
  }

  function NegatedFactorTree(): Expression
  {
    InfixExpression(PrefixExpression("-", Num(1)), "*", Num(3))
  }

  lemma NegatedFactorLayout()
    ensures WellFormed(NegatedFactorTree()) && Unparse(NegatedFactorTree()) == NegatedFactorTokens()
  {
    DigitToken(1, '1');
    DigitToken(3, '3');
    BareNegation(Num(1));
    BareInfix(PrefixExpression("-", Num(1)), "*", Num(3));
  }

  lemma NegatedFactorPrinted()
    ensures PrintExpression(NegatedFactorTree()) == "((-1) * 3)"
  {
    DigitToken(1, '1');
    DigitToken(3, '3');
  }

  /** `-1 * 3` prints as `((-1) * 3)`: the minus binds tighter than the product. */
  lemma NegatedFactor()
    ensures ParseProgram(NegatedFactorTokens()) == Success(Program([ExpressionStatement(NegatedFactorTree())]))
    ensures ParseProgramAsWritten(NegatedFactorTokens()) == Success(Program([ExpressionStatement(NegatedFactorTree())]))
    ensures Print(StatementNode(ExpressionStatement(NegatedFactorTree()))) == "((-1) * 3)"
  {
    NegatedFactorLayout();
    NegatedFactorPrinted();
    ProgramPrints(NegatedFactorTokens(), NegatedFactorTree(), "((-1) * 3)");
  }

  /** `3 * -1` */
  function NegatedRightTokens(): seq<Token>
  {
    [Tk(Number, "3"), Tk(Asterisk, "*"), Tk(Minus, "-"), Tk(Number, "1")]
  }

  function NegatedRightTree(): Expression
  {
    InfixExpression(Num(3), "*", PrefixExpression("-", Num(1)))
  }

  lemma NegatedRightLayout()
    ensures WellFormed(NegatedRightTree()) && Unparse(NegatedRightTree()) == NegatedRightTokens()
  {
    DigitToken(1, '1');
    DigitToken(3, '3');
    BareNegation(Num(1));
    BareInfix(Num(3), "*", PrefixExpression("-", Num(1)));
  }

  lemma NegatedRightPrinted()
    ensures PrintExpression(NegatedRightTree()) == "(3 * (-1))"
  {
    DigitToken(1, '1');
    DigitToken(3, '3');
  }

  /** `3 * -1` prints as `(3 * (-1))`: a minus may start a right operand. */
  lemma NegatedRight()
    ensures ParseProgram(NegatedRightTokens()) == Success(Program([ExpressionStatement(NegatedRightTree())]))
    ensures ParseProgramAsWritten(NegatedRightTokens()) == Success(Program([ExpressionStatement(NegatedRightTree())]))
    ensures Print(StatementNode(ExpressionStatement(NegatedRightTree()))) == "(3 * (-1))"
  {
    NegatedRightLayout();
    NegatedRightPrinted();
    ProgramPrints(NegatedRightTokens(), NegatedRightTree(), "(3 * (-1))");
  }

  /** `a + b / c %d - e` */
  function MixedTokens(): seq<Token>
  {
    [Tk(Ident, "a"), Tk(Plus, "+"), Tk(Ident, "b"), Tk(Slash, "/"), Tk(Ident, "c"),
     Tk(Percent, "%"), Tk(Ident, "d"), Tk(Minus, "-"), Tk(Ident, "e")]
  }

  /** The left operand of the outer subtraction: `a + b / c % d`. */
  function MixedLeft(): Expression
  {
    InfixExpression(Id("a"), "+", InfixExpression(InfixExpression(Id("b"), "/", Id("c")), "%", Id("d")))
  }

  function MixedTree(): Expression
  {
    InfixExpression(MixedLeft(), "-", Id("e"))
  }

  lemma MixedLeftLayout()
    ensures WellFormed(MixedLeft())
    ensures Unparse(MixedLeft()) ==
      [Tk(Ident, "a"), Tk(Plus, "+"), Tk(Ident, "b"), Tk(Slash, "/"), Tk(Ident, "c"), Tk(Percent, "%"), Tk(Ident, "d")]
  {
    var bc := InfixExpression(Id("b"), "/", Id("c"));
    var bcd := InfixExpression(bc, "%", Id("d"));
    BareInfix(Id("b"), "/", Id("c"));
    BareInfix(bc, "%", Id("d"));
    BareInfix(Id("a"), "+", bcd);
  }

  lemma MixedLayout()
    ensures WellFormed(MixedTree()) && Unparse(MixedTree()) == MixedTokens()
  {
    MixedLeftLayout();
    BareInfix(MixedLeft(), "-", Id("e"));
  }

  lemma MixedLeftPrinted()
    ensures PrintExpression(MixedLeft()) == "(a + ((b / c) % d))"
  {
    var bc := InfixExpression(Id("b"), "/", Id("c"));
    PrintsInfix(Id("b"), "/", Id("c"), "b", "c", "(b / c)");
    PrintsInfix(bc, "%", Id("d"), "(b / c)", "d", "((b / c) % d)");
    PrintsInfix(Id("a"), "+", InfixExpression(bc, "%", Id("d")), "a", "((b / c) % d)", "(a + ((b / c) % d))");
  }

  lemma MixedPrinted()
    ensures PrintExpression(MixedTree()) == "((a + ((b / c) % d)) - e)"
  {
    MixedLeftPrinted();
    PrintsInfix(MixedLeft(), "-", Id("e"), "(a + ((b / c) % d))", "e", "((a + ((b / c) % d)) - e)");
  }

  /** `a + b / c %d - e` prints as `((a + ((b / c) % d)) - e)`: products before sums, each level grouping to the left. */
  lemma Mixed()
    ensures ParseProgram(MixedTokens()) == Success(Program([ExpressionStatement(MixedTree())]))
    ensures ParseProgramAsWritten(MixedTokens()) == Success(Program([ExpressionStatement(MixedTree())]))
    ensures Print(StatementNode(ExpressionStatement(MixedTree()))) == "((a + ((b / c) % d)) - e)"
  {
    MixedLayout();
    MixedPrinted();
    ProgramPrints(MixedTokens(), MixedTree(), "((a + ((b / c) % d)) - e)");
  }

  /** `(a + b) * c` */
  function GroupedSumTokens(): seq<Token>
  {
    [Tk(LParen, "("), Tk(Ident, "a"), Tk(Plus, "+"), Tk(Ident, "b"), Tk(RParen, ")"), Tk(Asterisk, "*"), Tk(Ident, "c")]
  }

  function GroupedSumTree(): Expression
  {
    InfixExpression(InfixExpression(Id("a"), "+", Id("b")), "*", Id("c"))
  }

  lemma GroupedSumLayout()
    ensures WellFormed(GroupedSumTree()) && Unparse(GroupedSumTree()) == GroupedSumTokens()
  {
    BareInfix(Id("a"), "+", Id("b"));
    ParenLeftInfix(InfixExpression(Id("a"), "+", Id("b")), "*", Id("c"));
  }

  lemma GroupedSumPrinted()
    ensures PrintExpression(GroupedSumTree()) == "((a + b) * c)"
  {
  }

  /** `(a + b) * c` prints as `((a + b) * c)`: parentheses regroup and leave no node. */
  lemma GroupedSum()
    ensures ParseProgram(GroupedSumTokens()) == Success(Program([ExpressionStatement(GroupedSumTree())]))
    ensures ParseProgramAsWritten(GroupedSumTokens()) == Success(Program([ExpressionStatement(GroupedSumTree())]))
    ensures Print(StatementNode(ExpressionStatement(GroupedSumTree()))) == "((a + b) * c)"
  {
    GroupedSumLayout();
    GroupedSumPrinted();
    ProgramPrints(GroupedSumTokens(), GroupedSumTree(), "((a + b) * c)");
  }

  /** `a * (b + c) + (d + e)` */
  function TwoGroupsTokens(): seq<Token>
  {
    [Tk(Ident, "a"), Tk(Asterisk, "*"), Tk(LParen, "("), Tk(Ident, "b"), Tk(Plus, "+"), Tk(Ident, "c"), Tk(RParen, ")"),
     Tk(Plus, "+"), Tk(LParen, "("), Tk(Ident, "d"), Tk(Plus, "+"), Tk(Ident, "e"), Tk(RParen, ")")]
  }

  /** The left operand of the outer sum: `a * (b + c)`. */
  function TwoGroupsLeft(): Expression
  {
    InfixExpression(Id("a"), "*", InfixExpression(Id("b"), "+", Id("c")))
  }

  function TwoGroupsTree(): Expression
  {
    InfixExpression(TwoGroupsLeft(), "+", InfixExpression(Id("d"), "+", Id("e")))
  }

  lemma TwoGroupsLeftLayout()
    ensures WellFormed(TwoGroupsLeft())
    ensures Unparse(TwoGroupsLeft()) ==
      [Tk(Ident, "a"), Tk(Asterisk, "*"), Tk(LParen, "("), Tk(Ident, "b"), Tk(Plus, "+"), Tk(Ident, "c"), Tk(RParen, ")")]
  {
    BareInfix(Id("b"), "+", Id("c"));
    ParenRightInfix(Id("a"), "*", InfixExpression(Id("b"), "+", Id("c")));
  }

  lemma TwoGroupsLayout()
    ensures WellFormed(TwoGroupsTree()) && Unparse(TwoGroupsTree()) == TwoGroupsTokens()
  {
    TwoGroupsLeftLayout();
    BareInfix(Id("d"), "+", Id("e"));
    ParenRightInfix(TwoGroupsLeft(), "+", InfixExpression(Id("d"), "+", Id("e")));
  }

  lemma TwoGroupsLeftPrinted()
    ensures PrintExpression(TwoGroupsLeft()) == "(a * (b + c))"
  {
    PrintsInfix(Id("b"), "+", Id("c"), "b", "c", "(b + c)");
    PrintsInfix(Id("a"), "*", InfixExpression(Id("b"), "+", Id("c")), "a", "(b + c)", "(a * (b + c))");
  }

  lemma TwoGroupsPrinted()
    ensures PrintExpression(TwoGroupsTree()) == "((a * (b + c)) + (d + e))"
  {
    TwoGroupsLeftPrinted();
    PrintsInfix(Id("d"), "+", Id("e"), "d", "e", "(d + e)");
    PrintsInfix(TwoGroupsLeft(), "+", InfixExpression(Id("d"), "+", Id("e")), "(a * (b + c))", "(d + e)", "((a * (b + c)) + (d + e))");
  }

  /** `a * (b + c) + (d + e)` prints as `((a * (b + c)) + (d + e))`. */
  lemma TwoGroups()
    ensures ParseProgram(TwoGroupsTokens()) == Success(Program([ExpressionStatement(TwoGroupsTree())]))
    ensures ParseProgramAsWritten(TwoGroupsTokens()) == Success(Program([ExpressionStatement(TwoGroupsTree())]))
    ensures Print(StatementNode(ExpressionStatement(TwoGroupsTree()))) == "((a * (b + c)) + (d + e))"
  {
    TwoGroupsLayout();
    TwoGroupsPrinted();
    ProgramPrints(TwoGroupsTokens(), TwoGroupsTree(), "((a * (b + c)) + (d + e))");
  }

  /** `a * b * multiplier` */
  function ChainTokens(): seq<Token>
  {
    [Tk(Ident, "a"), Tk(Asterisk, "*"), Tk(Ident, "b"), Tk(Asterisk, "*"), Tk(Ident, "multiplier")]
  }

  function ChainTree(): Expression
  {
    InfixExpression(InfixExpression(Id("a"), "*", Id("b")), "*", Id("multiplier"))
  }

  lemma ChainLayout()
    ensures WellFormed(ChainTree()) && Unparse(ChainTree()) == ChainTokens()
  {
    BareInfix(Id("a"), "*", Id("b"));
    BareInfix(InfixExpression(Id("a"), "*", Id("b")), "*", Id("multiplier"));
  }

  lemma ChainPrinted()
    ensures PrintExpression(ChainTree()) == "((a * b) * multiplier)"
  {
    PrintsInfix(Id("a"), "*", Id("b"), "a", "b", "(a * b)");
    PrintsInfix(InfixExpression(Id("a"), "*", Id("b")), "*", Id("multiplier"), "(a * b)", "multiplier", "((a * b) * multiplier)");
  }

  /** `a * b * multiplier` prints as `((a * b) * multiplier)`: equal operators group to the left. */
  lemma Chain()
    ensures ParseProgram(ChainTokens()) == Success(Program([ExpressionStatement(ChainTree())]))
    ensures ParseProgramAsWritten(ChainTokens()) == Success(Program([ExpressionStatement(ChainTree())]))
    ensures Print(StatementNode(ExpressionStatement(ChainTree()))) == "((a * b) * multiplier)"
  {
    ChainLayout();
    ChainPrinted();
    ProgramPrints(ChainTokens(), ChainTree(), "((a * b) * multiplier)");
  }
}
