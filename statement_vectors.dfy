/**
 * The statement examples of the parser's test suite, stated over the token
 * streams the lexer hands the parser: two declarations, a return, and a
 * program of three function statements.
 */
module StatementVectors {
  import opened Results
  import opened Tokens
  import opened Ast
  import opened ParseSpec
  import opened Precedence
  import opened Findings
  import opened Vectors
  import opened Statements

  /** Three elements appended one by one to the empty sequence. */
  lemma Appended<T>(x: T, y: T, z: T)
    ensures [] + [x] + [y] + [z] == [x, y, z]
  {
  }

  /** Both program loops stop at the end of the stream with what they have read. */
  lemma LoopsEnd(ts: seq<Token>, acc: seq<Statement>)
    ensures ProgramLoop(ts, |ts|, acc) == Success(Program(acc))
    ensures ProgramLoopAsWritten(ts, |ts|, acc) == Success(Program(acc))
  {
  }

  /** Where the three parts of a stream lie, and their first two tokens. */
  lemma ThreeParts(ts: seq<Token>, a: seq<Token>, b: seq<Token>, c: seq<Token>, m: nat, n: nat)
    requires ts == a + b + c && 1 < |a| && 1 < |b| && 1 < |c| && m == |a| && n == |a| + |b|
    ensures ts[0..m] == a && ts[m..n] == b && ts[n..|ts|] == c
    ensures ts[0] == a[0] && ts[1] == a[1] && ts[m] == b[0] && ts[m + 1] == b[1]
    ensures ts[n] == c[0] && ts[n + 1] == c[1]
  {
    assert ts[0..m] == a;
    assert ts[m..n] == b;
    assert ts[n..|ts|] == c;
  }

  /** A function written out starts with `function` and its name, and has at least six tokens. */
  lemma ShapeStart(name: string, params: seq<Token>, stmts: seq<Token>)
    ensures 5 < |FunctionShape(name, params, stmts)|
    ensures FunctionShape(name, params, stmts)[0] == Token(Func, "function")
    ensures FunctionShape(name, params, stmts)[1] == Token(Ident, name)
  {
  }

  /** A function written out from `i` to `end`, not followed by a semicolon, is one turn of both program loops. */
  lemma {:induction false} FunctionStep(ts: seq<Token>, i: nat, acc: seq<Statement>, name: string, ps: seq<Parameter>, body: seq<Statement>, end: nat)
    requires ParamsWritable(ps) && AllSimple(body) && i <= end <= |ts| && ts[i..end] == FunctionTokens(name, ps, body)
    requires !Tok(ts, end).kind.Semi?
    ensures ProgramLoop(ts, i, acc) == ProgramLoop(ts, end, acc + [FunctionStatement(name, ps, BlockStatement(body))])
    ensures ProgramLoopAsWritten(ts, i, acc) == ProgramLoopAsWritten(ts, end, acc + [FunctionStatement(name, ps, BlockStatement(body))])
  {
    FunctionAt(ts, i, name, ps, body, end);
    ProgramStep(ts, i, acc, FunctionStatement(name, ps, BlockStatement(body)), end);
    AsWrittenStep(ts, i, acc, FunctionStatement(name, ps, BlockStatement(body)), end);
  }

  /** The same for a single-return function written out without its semicolon. */
  lemma {:induction false} ReturningFunctionStep(ts: seq<Token>, i: nat, acc: seq<Statement>, name: string, ps: seq<Parameter>, e: Expression, end: nat)
    requires ParamsWritable(ps) && WellFormed(e) && i <= end <= |ts| && ts[i..end] == ReturningFunctionTokens(name, ps, e)
    requires !Tok(ts, end).kind.Semi?
    ensures ProgramLoop(ts, i, acc) == ProgramLoop(ts, end, acc + [FunctionStatement(name, ps, BlockStatement([ReturnStatement(e)]))])
    ensures ProgramLoopAsWritten(ts, i, acc) ==
      ProgramLoopAsWritten(ts, end, acc + [FunctionStatement(name, ps, BlockStatement([ReturnStatement(e)]))])
  {
    ReturningFunctionAt(ts, i, name, ps, e, end);
    ProgramStep(ts, i, acc, FunctionStatement(name, ps, BlockStatement([ReturnStatement(e)])), end);
    AsWrittenStep(ts, i, acc, FunctionStatement(name, ps, BlockStatement([ReturnStatement(e)])), end);
  }

  /** The three functions of a stream laid out as in `ThreeFunctions`, read one after another. */
  lemma {:induction false} ThreeFunctionsAt(ts: seq<Token>,
    n1: string, ps1: seq<Parameter>, b1: seq<Statement>,
    n2: string, ps2: seq<Parameter>, e2: Expression,
    n3: string, ps3: seq<Parameter>, b3: seq<Statement>, m: nat, n: nat)
    requires ParamsWritable(ps1) && AllSimple(b1) && ParamsWritable(ps2) && WellFormed(e2) && ParamsWritable(ps3) && AllSimple(b3)
    requires m <= n <= |ts| && ts[0..m] == FunctionTokens(n1, ps1, b1) && ts[m..n] == ReturningFunctionTokens(n2, ps2, e2)
    requires ts[n..|ts|] == FunctionTokens(n3, ps3, b3)
    requires !Tok(ts, m).kind.Semi? && !Tok(ts, n).kind.Semi?
    ensures ParseProgram(ts) ==
      Success(Program([FunctionStatement(n1, ps1, BlockStatement(b1)),
                       FunctionStatement(n2, ps2, BlockStatement([ReturnStatement(e2)])),
                       FunctionStatement(n3, ps3, BlockStatement(b3))]))
    ensures ParseProgramAsWritten(ts) ==
      Success(Program([FunctionStatement(n1, ps1, BlockStatement(b1)),
                       FunctionStatement(n2, ps2, BlockStatement([ReturnStatement(e2)])),
                       FunctionStatement(n3, ps3, BlockStatement(b3))]))
  {
    var f1, f2, f3 := FunctionStatement(n1, ps1, BlockStatement(b1)),
      FunctionStatement(n2, ps2, BlockStatement([ReturnStatement(e2)])), FunctionStatement(n3, ps3, BlockStatement(b3));
    FunctionStep(ts, 0, [], n1, ps1, b1, m);
    ReturningFunctionStep(ts, m, [] + [f1], n2, ps2, e2, n);
    FunctionStep(ts, n, [] + [f1] + [f2], n3, ps3, b3, |ts|);
    LoopsEnd(ts, [] + [f1] + [f2] + [f3]);
    Appended(f1, f2, f3);
  }

  /**
   * Two functions written out, then a single-return function whose
   * semicolon is left out, then a third function: a program of these three
   * function statements, for both program loops.
   */
  lemma {:induction false} ThreeFunctions(
    n1: string, ps1: seq<Parameter>, b1: seq<Statement>,
    n2: string, ps2: seq<Parameter>, e2: Expression,
    n3: string, ps3: seq<Parameter>, b3: seq<Statement>)
    requires ParamsWritable(ps1) && AllSimple(b1) && ParamsWritable(ps2) && WellFormed(e2) && ParamsWritable(ps3) && AllSimple(b3)
    ensures ParseProgram(FunctionTokens(n1, ps1, b1) + ReturningFunctionTokens(n2, ps2, e2) + FunctionTokens(n3, ps3, b3)) ==
      Success(Program([FunctionStatement(n1, ps1, BlockStatement(b1)),
                       FunctionStatement(n2, ps2, BlockStatement([ReturnStatement(e2)])),
                       FunctionStatement(n3, ps3, BlockStatement(b3))]))
    ensures ParseProgramAsWritten(FunctionTokens(n1, ps1, b1) + ReturningFunctionTokens(n2, ps2, e2) + FunctionTokens(n3, ps3, b3)) ==
      Success(Program([FunctionStatement(n1, ps1, BlockStatement(b1)),
                       FunctionStatement(n2, ps2, BlockStatement([ReturnStatement(e2)])),
                       FunctionStatement(n3, ps3, BlockStatement(b3))]))
  {
    var a, b, c := FunctionTokens(n1, ps1, b1), ReturningFunctionTokens(n2, ps2, e2), FunctionTokens(n3, ps3, b3);
    var ts := a + b + c;
    ShapeStart(n1, ParamListTokens(ps1), StatementsTokens(b1));
    ShapeStart(n2, ParamListTokens(ps2), BareReturnTokens(e2));
    ShapeStart(n3, ParamListTokens(ps3), StatementsTokens(b3));
    ThreeParts(ts, a, b, c, |a|, |a| + |b|);
    ThreeFunctionsAt(ts, n1, ps1, b1, n2, ps2, e2, n3, ps3, b3, |a|, |a| + |b|);
  }

  // ---------------------------------------------------------------------------
  // `const foo = 2; let bar = "foobar";`
  // ---------------------------------------------------------------------------

  function DeclarationsTokens(): seq<Token>
  {
    [Tk(Const, "const"), Tk(Ident, "foo"), Tk(Eq, "="), Tk(Number, "2"), Tk(Semi, ";"),
     Tk(Let, "let"), Tk(Ident, "bar"), Tk(Eq, "="), Tk(String, "foobar"), Tk(Semi, ";")]
  }

  /** A constant `foo` with value 2, then a variable `bar` with value the string `foobar`. */
  function Declarations(): seq<Statement>
  {
    [LetStatement(Const, Identifier("foo"), Num(2)), LetStatement(Let, Identifier("bar"), StringLiteral("foobar"))]
  }

  lemma DeclarationsLayout()
    ensures AllSimple(Declarations()) && StatementsTokens(Declarations()) == DeclarationsTokens()
  {
    DigitToken(2, '2');
    var ss := Declarations();
    assert Simple(ss[0]) && Simple(ss[1]);
    assert ss[1..][1..] == [];
  }

  /** `const foo = 2; let bar = "foobar";` is read as the two declarations, keeping `const` and `let`. */
  lemma DeclarationsParsed()
    ensures ParseProgram(DeclarationsTokens()) == Success(Program(Declarations()))
    ensures ParseProgramAsWritten(DeclarationsTokens()) == Success(Program(Declarations()))
  {
    DeclarationsLayout();
    StatementsRoundTrip(Declarations());
  }

  // ---------------------------------------------------------------------------
  // `return 3 + "foobar";`
  // ---------------------------------------------------------------------------

  function ReturnSumTokens(): seq<Token>
  {
    [Tk(Return, "return"), Tk(Number, "3"), Tk(Plus, "+"), Tk(String, "foobar"), Tk(Semi, ";")]
  }

  /** A return of the sum of 3 and the string `foobar`. */
  function ReturnSum(): Statement
  {
    ReturnStatement(InfixExpression(Num(3), "+", StringLiteral("foobar")))
  }

  lemma ReturnSumLayout()
    ensures AllSimple([ReturnSum()]) && StatementsTokens([ReturnSum()]) == ReturnSumTokens()
  {
    DigitToken(3, '3');
    BareInfix(Num(3), "+", StringLiteral("foobar"));
    assert [ReturnSum()][1..] == [];
  }

  /** `return 3 + "foobar";` is read as a return of the sum. */
  lemma ReturnSumParsed()
    ensures ParseProgram(ReturnSumTokens()) == Success(Program([ReturnSum()]))
    ensures ParseProgramAsWritten(ReturnSumTokens()) == Success(Program([ReturnSum()]))
  {
    ReturnSumLayout();
    StatementsRoundTrip([ReturnSum()]);
  }

  // ---------------------------------------------------------------------------
  // Three function statements: `sum`, `product` and `consoleLog`
  // ---------------------------------------------------------------------------

  /** A parameter without a default value or `...`. */
  function Plain(name: string): Parameter
  {
    Parameter(Identifier(name), None, false)
  }

  /** `function sum(a, b) { return a + b; }` */
  function SumTokens(): seq<Token>
  {
    [Tk(Func, "function"), Tk(Ident, "sum"), Tk(LParen, "(")]
      + SumParamTokens()
      + [Tk(RParen, ")"), Tk(LBrace, "{")]
      + SumBodyTokens()
      + [Tk(RBrace, "}")]
  }

  /** `a, b` */
  function SumParamTokens(): seq<Token>
  {
    [Tk(Ident, "a"), Tk(Comma, ","), Tk(Ident, "b")]
  }

  /** `return a + b;` */
  function SumBodyTokens(): seq<Token>
  {
    [Tk(Return, "return"), Tk(Ident, "a"), Tk(Plus, "+"), Tk(Ident, "b"), Tk(Semi, ";")]
  }

  function SumParams(): seq<Parameter>
  {
    [Plain("a"), Plain("b")]
  }

  function SumBody(): seq<Statement>
  {
    [ReturnStatement(InfixExpression(Id("a"), "+", Id("b")))]
  }

  lemma SumParamsLayout()
    ensures ParamsWritable(SumParams()) && ParamListTokens(SumParams()) == SumParamTokens()
  {
    assert SumParams()[1..] == [Plain("b")];
  }

  lemma SumBodyLayout()
    ensures AllSimple(SumBody()) && StatementsTokens(SumBody()) == SumBodyTokens()
  {
    BareInfix(Id("a"), "+", Id("b"));
    assert SumBody()[1..] == [];
  }

  lemma SumLayout()
    ensures ParamsWritable(SumParams()) && AllSimple(SumBody())
    ensures FunctionTokens("sum", SumParams(), SumBody()) == SumTokens()
  {
    SumParamsLayout();
    SumBodyLayout();
  }

  /** `function product(a, b, multiplier = 1) { return a * b * multiplier }`, without the semicolon. */
  function ProductTokens(): seq<Token>
  {
    [Tk(Func, "function"), Tk(Ident, "product"), Tk(LParen, "(")]
      + ProductParamTokens()
      + [Tk(RParen, ")"), Tk(LBrace, "{")]
      + ProductReturnTokens()
      + [Tk(RBrace, "}")]
  }

  /** `a, b, multiplier = 1` */
  function ProductParamTokens(): seq<Token>
  {
    [Tk(Ident, "a"), Tk(Comma, ","), Tk(Ident, "b"), Tk(Comma, ","), Tk(Ident, "multiplier"), Tk(Eq, "="), Tk(Number, "1")]
  }

  /** `return a * b * multiplier` */
  function ProductReturnTokens(): seq<Token>
  {
    [Tk(Return, "return"), Tk(Ident, "a"), Tk(Asterisk, "*"), Tk(Ident, "b"), Tk(Asterisk, "*"), Tk(Ident, "multiplier")]
  }

  function ProductParams(): seq<Parameter>
  {
    [Plain("a"), Plain("b"), Parameter(Identifier("multiplier"), Some(Num(1)), false)]
  }

  /** `(a * b) * multiplier`: the product groups to the left. */
  function ProductResult(): Expression
  {
    InfixExpression(InfixExpression(Id("a"), "*", Id("b")), "*", Id("multiplier"))
  }

  lemma ProductParamsLayout()
    ensures ParamsWritable(ProductParams()) && ParamListTokens(ProductParams()) == ProductParamTokens()
  {
    DigitToken(1, '1');
    var ps := ProductParams();
    assert ps[1..] == [Plain("b"), ps[2]] && ps[1..][1..] == [ps[2]];
    assert ParamListTokens(ps[1..][1..]) == [Tk(Ident, "multiplier"), Tk(Eq, "="), Tk(Number, "1")];
  }

  lemma ProductReturnLayout()
    ensures WellFormed(ProductResult()) && BareReturnTokens(ProductResult()) == ProductReturnTokens()
  {
    BareInfix(Id("a"), "*", Id("b"));
    BareInfix(InfixExpression(Id("a"), "*", Id("b")), "*", Id("multiplier"));
  }

  lemma ProductLayout()
    ensures ParamsWritable(ProductParams()) && WellFormed(ProductResult())
    ensures ReturningFunctionTokens("product", ProductParams(), ProductResult()) == ProductTokens()
  {
    ProductParamsLayout();
    ProductReturnLayout();
  }

  /** `function consoleLog(prefix = "prefix", ...rest) { }` */
  function ConsoleLogTokens(): seq<Token>
  {
    [Tk(Func, "function"), Tk(Ident, "consoleLog"), Tk(LParen, "(")]
      + [Tk(Ident, "prefix"), Tk(Eq, "="), Tk(String, "prefix"), Tk(Comma, ","), Tk(DotDotDot, "..."), Tk(Ident, "rest")]
      + [Tk(RParen, ")"), Tk(LBrace, "{")]
      + []
      + [Tk(RBrace, "}")]
  }

  /** `prefix` with the default value the string `prefix`, then the rest parameter `rest`. */
  function ConsoleLogParams(): seq<Parameter>
  {
    [Parameter(Identifier("prefix"), Some(StringLiteral("prefix")), false), Parameter(Identifier("rest"), None, true)]
  }

  lemma ConsoleLogLayout()
    ensures ParamsWritable(ConsoleLogParams()) && AllSimple([])
    ensures FunctionTokens("consoleLog", ConsoleLogParams(), []) == ConsoleLogTokens()
  {
    var ps := ConsoleLogParams();
    assert ps[1..] == [ps[1]];
  }

  function FunctionsTokens(): seq<Token>
  {
    SumTokens() + ProductTokens() + ConsoleLogTokens()
  }

  /** The three function statements the test expects, with their parameters, defaults, rest parameter and bodies. */
  function Functions(): seq<Statement>
  {
    [FunctionStatement("sum", SumParams(), BlockStatement(SumBody())),
     FunctionStatement("product", ProductParams(), BlockStatement([ReturnStatement(ProductResult())])),
     FunctionStatement("consoleLog", ConsoleLogParams(), BlockStatement([]))]
  }

  /**
   * The three functions of the test, one after another, are read as three
   * function statements: the second, whose return has no semicolon, ends at
   * its `}`, and the third keeps its default and its rest parameter.
   */
  lemma FunctionsParsed()
    ensures ParseProgram(FunctionsTokens()) == Success(Program(Functions()))
    ensures ParseProgramAsWritten(FunctionsTokens()) == Success(Program(Functions()))
  {
    SumLayout();
    ProductLayout();
    ConsoleLogLayout();
    ThreeFunctions("sum", SumParams(), SumBody(), "product", ProductParams(), ProductResult(), "consoleLog", ConsoleLogParams(), []);
  }
}
