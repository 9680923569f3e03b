/**
 * The syntax tree the parser builds, and the debug printer that renders an
 * expression fully parenthesised.
 */
module Ast {
  import opened Results
  import opened Tokens
  import opened Numbers

  /** The five expression forms. */
  datatype Expression =
    | Identifier(value: string)
    | NumberLiteral(number: Decimal)
    | StringLiteral(text: string)
    | PrefixExpression(operator: string, right: Expression)
    | InfixExpression(left: Expression, operator: string, right: Expression)

  /** An expression that is an identifier, where the tree requires one. */
  type IdentifierNode = e: Expression | e.Identifier? witness Identifier("")

  /** The three declaration keywords a let statement records. */
  type DeclKind = k: TokenKind | k in {Let, Var, Const} witness Let

  /** One formal parameter: a name, an optional default value, and whether it is a rest parameter. */
  datatype Parameter = Parameter(identifier: IdentifierNode, defaultValue: Option<Expression>, hasDotDotDot: bool)

  /** A braced sequence of statements. */
  datatype BlockStatement = BlockStatement(statements: seq<Statement>)

  /** The statement forms. */
  datatype Statement =
    | ExpressionStatement(expression: Expression)
    | LetStatement(tokenType: DeclKind, identifier: IdentifierNode, expression: Expression)
    | ReturnStatement(expression: Expression)
    | Block(block: BlockStatement)
    | FunctionStatement(functionName: string, parameters: seq<Parameter>, body: BlockStatement)
    | ParameterStatement(parameter: Parameter)

  /**
   * A function expression. The type is declared, but it is not one of the
   * expression forms, and nothing builds it.
   */
  datatype FunctionExpression = FunctionExpression(functionName: Option<string>, parameters: seq<IdentifierNode>, body: BlockStatement)

  /** The parser's output: the top-level statements in source order. */
  datatype Program = Program(statements: seq<Statement>)

  /** Anything the printer accepts: an expression or a statement. */
  datatype Node = ExpressionNode(expression: Expression) | StatementNode(statement: Statement)

  // ---------------------------------------------------------------------------
  // The printer
  // ---------------------------------------------------------------------------

  function Print(node: Node): string
  {
    match node
    case StatementNode(s) => PrintStatement(s)
    case ExpressionNode(e) => PrintExpression(e)
  }

  /** Only an expression statement prints anything: its expression. */
  function PrintStatement(s: Statement): string
  {
    match s
    case ExpressionStatement(e) => PrintExpression(e)
    case _ => ""
  }

  function PrintExpression(e: Expression): string
  {
    match e
    case NumberLiteral(d) => DecimalText(d)
    case StringLiteral(t) => t
    case Identifier(v) => v
    case PrefixExpression(op, r) => "(" + op + PrintExpression(r) + ")"
    case InfixExpression(l, op, r) => "(" + PrintExpression(l) + " " + op + " " + PrintExpression(r) + ")"
  }

  // ---------------------------------------------------------------------------
  // Properties of the printer
  // ---------------------------------------------------------------------------

  /** The number of prefix and infix nodes of an expression. */
  function OperatorNodes(e: Expression): nat
  {
    match e
    case PrefixExpression(_, r) => 1 + OperatorNodes(r)
    case InfixExpression(l, _, r) => 1 + OperatorNodes(l) + OperatorNodes(r)
    case _ => 0
  }

  /** No name, string text or operator in the tree contains a parenthesis. */
  predicate ParenFree(e: Expression)
  {
    match e
    case Identifier(v) => '(' !in v && ')' !in v
    case NumberLiteral(_) => true
    case StringLiteral(t) => '(' !in t && ')' !in t
    case PrefixExpression(op, r) => '(' !in op && ')' !in op && ParenFree(r)
    case InfixExpression(l, op, r) => '(' !in op && ')' !in op && ParenFree(l) && ParenFree(r)
  }

  lemma DecimalTextHasNoParens(d: Decimal)
    ensures '(' !in DecimalText(d) && ')' !in DecimalText(d)
  {
    var w := NatText(d.whole);
    assert forall i | 0 <= i < |w| :: IsDigit(w[i]);
    if d.fraction != [] {
      var f := DigitsText(d.fraction);
      assert forall i | 0 <= i < |f| :: IsDigit(f[i]);
      assert DecimalText(d) == w + "." + f;
    }
  }

  /** How often a character occurs in a text. */
  function Occurrences(s: string, c: char): nat
  {
    if s == [] then 0 else (if s[0] == c then 1 else 0) + Occurrences(s[1..], c)
  }

  lemma {:induction false} OccurrencesOfConcat(a: string, b: string, c: char)
    ensures Occurrences(a + b, c) == Occurrences(a, c) + Occurrences(b, c)
  {
    if a != [] {
      assert (a + b)[1..] == a[1..] + b;
      OccurrencesOfConcat(a[1..], b, c);
    } else {
      assert a + b == b;
    }
  }

  lemma {:induction false} AbsentOccursNever(s: string, c: char)
    requires c !in s
    ensures Occurrences(s, c) == 0
  {
    if s != [] {
      AbsentOccursNever(s[1..], c);
    }
  }

  /** The printed form of an infix node holds one more of each parenthesis than its operands. */
  lemma InfixOccurrences(l: string, op: string, r: string, c: char)
    requires c == '(' || c == ')'
    requires c !in op
    ensures Occurrences("(" + l + " " + op + " " + r + ")", c)
         == Occurrences(l, c) + Occurrences(r, c) + 1
  {
    AbsentOccursNever(op, c);
    OccurrencesOfConcat("(" + l + " " + op + " " + r, ")", c);
    OccurrencesOfConcat("(" + l + " " + op + " ", r, c);
    OccurrencesOfConcat("(" + l + " " + op, " ", c);
    OccurrencesOfConcat("(" + l + " ", op, c);
    OccurrencesOfConcat("(" + l, " ", c);
    OccurrencesOfConcat("(", l, c);
  }

  /** The printed form of a prefix node holds one more of each parenthesis than its operand. */
  lemma PrefixOccurrences(op: string, r: string, c: char)
    requires c == '(' || c == ')'
    requires c !in op
    ensures Occurrences("(" + op + r + ")", c) == Occurrences(r, c) + 1
  {
    AbsentOccursNever(op, c);
    OccurrencesOfConcat("(" + op + r, ")", c);
    OccurrencesOfConcat("(" + op, r, c);
    OccurrencesOfConcat("(", op, c);
  }

  /**
   * Each prefix and infix node contributes exactly one opening and one closing
   * parenthesis, and nothing else prints one.
   */
  lemma {:induction false} ParenthesesCountOperators(e: Expression)
    requires ParenFree(e)
    ensures Occurrences(PrintExpression(e), '(') == OperatorNodes(e)
    ensures Occurrences(PrintExpression(e), ')') == OperatorNodes(e)
  {
    match e
    case Identifier(v) =>
      AbsentOccursNever(v, '(');
      AbsentOccursNever(v, ')');
    case StringLiteral(t) =>
      AbsentOccursNever(t, '(');
      AbsentOccursNever(t, ')');
    case NumberLiteral(d) =>
      DecimalTextHasNoParens(d);
      AbsentOccursNever(DecimalText(d), '(');
      AbsentOccursNever(DecimalText(d), ')');
    case PrefixExpression(op, r) =>
      ParenthesesCountOperators(r);
      PrefixOccurrences(op, PrintExpression(r), '(');
      PrefixOccurrences(op, PrintExpression(r), ')');
    case InfixExpression(l, op, r) =>
      ParenthesesCountOperators(l);
      ParenthesesCountOperators(r);
      InfixOccurrences(PrintExpression(l), op, PrintExpression(r), '(');
      InfixOccurrences(PrintExpression(l), op, PrintExpression(r), ')');
  }

  /** The printed form of an operator node is wrapped in one pair of parentheses. */
  lemma OperatorNodesAreWrapped(e: Expression)
    requires e.PrefixExpression? || e.InfixExpression?
    ensures |PrintExpression(e)| >= 2
    ensures PrintExpression(e)[0] == '(' && PrintExpression(e)[|PrintExpression(e)| - 1] == ')'
  {
  }

  /** Only expression statements print; every other statement prints as the empty string. */
  lemma OnlyExpressionStatementsPrint(s: Statement)
    ensures PrintStatement(s) != "" ==> s.ExpressionStatement?
    ensures s.ExpressionStatement? ==> Print(StatementNode(s)) == Print(ExpressionNode(s.expression))
  {
  }
}
