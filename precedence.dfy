/**
 * What the precedence table means for the trees the expression routine
 * builds: writing a tree out as tokens, with parentheses exactly where the
 * precedence and left grouping of the operators require them, and parsing
 * those tokens gives the tree back.
 */
module Precedence {
  import opened Results
  import opened Tokens
  import opened Numbers
  import opened Ast
  import opened LexSpec
  import opened ParseSpec

  /** The kind of the token an infix operator text is scanned as, for the operators with an infix function. */
  function InfixKind(op: string): (k: Option<TokenKind>)
    ensures k.Some? ==> HasInfixFn(k.value) && KindText(k.value) == op
    ensures k.Some? ==> Level(Sum) <= Level(PrecedenceOf(k.value)) <= Level(Product)
  {
    match op
    case "+" => Some(Plus) case "-" => Some(Minus) case "*" => Some(Asterisk)
    case "/" => Some(Slash) case "%" => Some(Percent) case "^" => Some(Cap)
    case _ => None
  }

  /** The trees the parser can build: registered operators and canonical numbers. */
  predicate WellFormed(e: Expression)
  {
    match e
    case Identifier(_) => true
    case NumberLiteral(d) => Normalized(d)
    case StringLiteral(_) => true
    case PrefixExpression(op, r) => op == "-" && WellFormed(r)
    case InfixExpression(l, op, r) => InfixKind(op).Some? && WellFormed(l) && WellFormed(r)
  }

  /** How tightly the top of `e` binds: its operator's precedence, or `PrefixLevel` when it has no infix operator on top. */
  function Binding(e: Expression): Prec
  {
    if e.InfixExpression? && InfixKind(e.operator).Some? then PrecedenceOf(InfixKind(e.operator).value)
    else PrefixLevel
  }

  /**
   * An operand needs parentheses when its top operator binds more loosely than
   * the operator it belongs to, or, on the right, no tighter than it.
   */
  predicate NeedsParens(e: Expression, p: Prec, onLeft: bool)
  {
    e.InfixExpression? && (if onLeft then Level(Binding(e)) < Level(p) else Level(Binding(e)) <= Level(p))
  }

  const OpenParen := Token(LParen, "(")
  const CloseParen := Token(RParen, ")")

  /** The tokens of `e`, with the fewest parentheses that keep its shape. */
  function Unparse(e: Expression): (ts: seq<Token>)
    requires WellFormed(e)
    ensures |ts| > 0
    decreases e, 0
  {
    match e
    case Identifier(v) => [Token(Ident, v)]
    case NumberLiteral(d) => [Token(Number, DecimalText(d))]
    case StringLiteral(t) => [Token(String, t)]
    case PrefixExpression(op, r) => [Token(Minus, op)] + Operand(r, PrefixLevel, false)
    case InfixExpression(l, op, r) =>
      Operand(l, Binding(e), true) + [Token(InfixKind(op).value, op)] + Operand(r, Binding(e), false)
  }

  /** The tokens of an operand of an operator binding at `p`, parenthesised when needed. */
  function Operand(e: Expression, p: Prec, onLeft: bool): (ts: seq<Token>)
    requires WellFormed(e)
    ensures |ts| > 0
    decreases e, 1
  {
    if NeedsParens(e, p, onLeft) then [OpenParen] + Unparse(e) + [CloseParen] else Unparse(e)
  }

  /** No written-out tree contains `Eof`. */
  lemma {:induction false} UnparseHasNoEof(e: Expression)
    requires WellFormed(e)
    ensures NoEof(Unparse(e))
    decreases e, 0
  {
    match e
    case Identifier(_) =>
    case NumberLiteral(_) =>
    case StringLiteral(_) =>
    case PrefixExpression(op, r) =>
      OperandHasNoEof(r, PrefixLevel, false);
      NoEofConcat([Token(Minus, op)], Operand(r, PrefixLevel, false));
    case InfixExpression(l, op, r) =>
      OperandHasNoEof(l, Binding(e), true);
      OperandHasNoEof(r, Binding(e), false);
      NoEofConcat(Operand(l, Binding(e), true), [Token(InfixKind(op).value, op)]);
      NoEofConcat(Operand(l, Binding(e), true) + [Token(InfixKind(op).value, op)], Operand(r, Binding(e), false));
  }

  lemma {:induction false} OperandHasNoEof(e: Expression, p: Prec, onLeft: bool)
    requires WellFormed(e)
    ensures NoEof(Operand(e, p, onLeft))
    decreases e, 1
  {
    UnparseHasNoEof(e);
    if NeedsParens(e, p, onLeft) {
      NoEofConcat([OpenParen], Unparse(e));
      NoEofConcat([OpenParen] + Unparse(e), [CloseParen]);
    }
  }

  lemma {:induction false} NoEofConcat(a: seq<Token>, b: seq<Token>)
    requires NoEof(a) && NoEof(b)
    ensures NoEof(a + b)
  {
    assert forall k | |a| <= k < |a + b| :: (a + b)[k] == b[k - |a|];
  }

  /** Every token ends an operand of a prefix operator. */
  lemma {:induction false} EverythingStopsPrefix(t: Token)
    ensures StopsAt(t, PrefixLevel)
  {
    if HasInfixFn(t.kind) {
      PrecedenceTableContents(t.kind);
    }
  }

  /** The parts of a stream that holds `a + b` between indices `i` and `end`. */
  lemma {:induction false} SplitAt(ts: seq<Token>, i: nat, mid: nat, end: nat, a: seq<Token>, b: seq<Token>)
    requires i <= end <= |ts| && ts[i..end] == a + b && mid == i + |a|
    ensures mid <= end && ts[i..mid] == a && ts[mid..end] == b
  {
    var w := ts[i..end];
    assert ts[i..mid] == w[..|a|];
    assert ts[mid..end] == w[|a|..];
    assert w[..|a|] == a && w[|a|..] == b;
  }

  /** The parts of a stream that holds a parenthesised token sequence between indices `i` and `end`. */
  lemma {:induction false} ParenSplit(ts: seq<Token>, i: nat, end: nat, inner: seq<Token>)
    requires i <= end <= |ts| && ts[i..end] == [OpenParen] + inner + [CloseParen]
    ensures i + 1 < end && ts[i] == OpenParen && ts[i + 1..end - 1] == inner && ts[end - 1] == CloseParen
  {
    SplitAt(ts, i, end - 1, end, [OpenParen] + inner, [CloseParen]);
    SplitAt(ts, i, i + 1, end - 1, [OpenParen], inner);
    assert ts[i..i + 1][0] == ts[i] && ts[end - 1..end][0] == ts[end - 1];
  }

  // ---------------------------------------------------------------------------
  // What one routine call does, as facts the round trip chains together
  // ---------------------------------------------------------------------------

  /** The expression routine at `prec`, started at `i`, builds `e` and returns with `last` current. */
  predicate ParsesTo(ts: seq<Token>, i: nat, prec: Prec, e: Expression, last: nat)
  {
    ParseExpression(ts, i, prec) == Success(Parsed(e, last))
  }

  /** The expression routine at `prec`, started at `i`, reaches its loop with `e` as the left operand and `j` current. */
  predicate Reaches(ts: seq<Token>, i: nat, prec: Prec, e: Expression, j: nat)
    requires j < |ts|
  {
    ParseExpression(ts, i, prec) == InfixLoop(ts, e, j, prec)
  }

  /** The prefix function of the token at `i` builds `e` and returns with `last` current. */
  predicate PrefixTo(ts: seq<Token>, i: nat, e: Expression, last: nat)
  {
    Prefix(ts, i) == Success(Parsed(e, last))
  }

  /** The infix function of the operator at `mid` builds `node` on the left operand `l` and returns with `last` current. */
  predicate InfixTo(ts: seq<Token>, l: Expression, mid: nat, node: Expression, last: nat)
    requires mid < |ts|
  {
    Infix(ts, l, mid) == Success(Parsed(node, last))
  }

  /** The loop with left operand `l` at `j` ends as the loop with left operand `node` at `k`. */
  predicate SameLoop(ts: seq<Token>, l: Expression, j: nat, node: Expression, k: nat, prec: Prec)
    requires j < |ts| && k < |ts|
  {
    InfixLoop(ts, l, j, prec) == InfixLoop(ts, node, k, prec)
  }

  /** The tokens between `i` and `end` are those of `e` as an operand of an operator binding at `p`. */
  predicate OperandAt(ts: seq<Token>, i: nat, end: nat, e: Expression, p: Prec, onLeft: bool)
    requires WellFormed(e)
  {
    i <= end <= |ts| && ts[i..end] == Operand(e, p, onLeft)
  }

  // ---------------------------------------------------------------------------
  // One step of a routine
  // ---------------------------------------------------------------------------

  /** The expression loop ends at once when the peek token stops it. */
  lemma {:induction false} LoopEnds(ts: seq<Token>, left: Expression, j: nat, prec: Prec)
    requires j < |ts| && StopsAt(Tok(ts, j + 1), prec)
    ensures InfixLoop(ts, left, j, prec) == Success(Parsed(left, j))
  {
  }

  /** A routine that has reached its loop with `left` returns it when the peek token stops the loop. */
  lemma {:induction false} ParseEnds(ts: seq<Token>, i: nat, left: Expression, j: nat, prec: Prec)
    requires j < |ts| && StopsAt(Tok(ts, j + 1), prec)
    requires Reaches(ts, i, prec, left, j)
    ensures ParsesTo(ts, i, prec, left, j)
  {
    LoopEnds(ts, left, j, prec);
  }

  /** The expression routine is its prefix function followed by its loop. */
  lemma {:induction false} PrefixStep(ts: seq<Token>, i: nat, left: Expression, last: nat, prec: Prec)
    requires last < |ts| && PrefixTo(ts, i, left, last)
    ensures Reaches(ts, i, prec, left, last)
  {
  }

  /** A parenthesis, an expression ending at `last`, and a closing parenthesis after it: a grouped expression. */
  lemma {:induction false} GroupedParses(ts: seq<Token>, i: nat, e: Expression, last: nat)
    requires Tok(ts, i).kind.LParen? && Tok(ts, last + 1).kind.RParen?
    requires ParsesTo(ts, i + 1, Lowest, e, last)
    ensures PrefixTo(ts, i, e, last + 1)
  {
    assert Grouped(ts, i) == Success(Parsed(e, last + 1));
  }

  /** A minus and an operand parsed at `PrefixLevel`: a prefix parse of the negation. */
  lemma {:induction false} NegationPrefix(ts: seq<Token>, i: nat, r: Expression, last: nat)
    requires Tok(ts, i).kind.Minus?
    requires ParsesTo(ts, i + 1, PrefixLevel, r, last)
    ensures PrefixTo(ts, i, PrefixExpression(Tok(ts, i).literal, r), last)
  {
    assert PrefixOperator(ts, i) == Success(Parsed(PrefixExpression(Tok(ts, i).literal, r), last));
  }

  /** The infix function at `mid` builds the node of `l`, its operator and the operand parsed after it. */
  lemma {:induction false} InfixParses(ts: seq<Token>, l: Expression, mid: nat, k: TokenKind, op: string, r: Expression, last: nat)
    requires mid < |ts| && Tok(ts, mid) == Token(k, op)
    requires ParsesTo(ts, mid + 1, PrecedenceOf(k), r, last)
    ensures InfixTo(ts, l, mid, InfixExpression(l, op, r), last)
  {
  }

  /** An operator binding tighter than `prec` in peek position continues the loop with the node its infix function builds. */
  lemma {:induction false} LoopTurn(ts: seq<Token>, l: Expression, mid: nat, k: TokenKind, prec: Prec, node: Expression, last: nat)
    requires 0 < mid < |ts| && last < |ts| && Tok(ts, mid).kind == k && HasInfixFn(k)
    requires Level(prec) < Level(PrecedenceOf(k))
    requires InfixTo(ts, l, mid, node, last)
    ensures SameLoop(ts, l, mid - 1, node, last, prec)
  {
  }

  /** The prefix function of an operand-free tree's only token builds the tree. */
  lemma {:induction false} AtomPrefix(ts: seq<Token>, i: nat, e: Expression)
    requires WellFormed(e) && !e.PrefixExpression? && !e.InfixExpression?
    requires i < |ts| && ts[i] == Unparse(e)[0]
    ensures PrefixTo(ts, i, e, i)
  {
    assert Tok(ts, i) == ts[i];
    if e.NumberLiteral? {
      NumberRoundTrip(e.number);
    }
  }

  /** The loop stops at the end of the stream, whatever the precedence. */
  lemma {:induction false} EofStops(ts: seq<Token>, p: Prec)
    ensures StopsAt(Tok(ts, |ts|), p)
  {
  }

  /** A token that ends the loop at some precedence ends it at every higher one. */
  lemma {:induction false} StopsAtHigher(t: Token, p: Prec, b: Prec)
    requires StopsAt(t, p) && Level(p) <= Level(b)
    ensures StopsAt(t, b)
  {
  }

  // ---------------------------------------------------------------------------
  // Steps that combine two of the above
  // ---------------------------------------------------------------------------

  /** A parenthesis, an expression whose loop stops at the closing parenthesis, and that parenthesis. */
  lemma {:induction false} GroupedStep(ts: seq<Token>, i: nat, e: Expression, close: nat)
    requires i < close <= |ts| && Tok(ts, i).kind.LParen? && Tok(ts, close).kind.RParen?
    requires Reaches(ts, i + 1, Lowest, e, close - 1)
    ensures PrefixTo(ts, i, e, close)
  {
    ParseEnds(ts, i + 1, e, close - 1, Lowest);
    GroupedParses(ts, i, e, close - 1);
  }

  /** A minus and an operand whose loop stops after `last`: a prefix parse of the negation. */
  lemma {:induction false} MinusStep(ts: seq<Token>, i: nat, r: Expression, last: nat)
    requires i < last < |ts| && Tok(ts, i).kind.Minus?
    requires StopsAt(Tok(ts, last + 1), PrefixLevel)
    requires Reaches(ts, i + 1, PrefixLevel, r, last)
    ensures PrefixTo(ts, i, PrefixExpression(Tok(ts, i).literal, r), last)
  {
    ParseEnds(ts, i + 1, r, last, PrefixLevel);
    NegationPrefix(ts, i, r, last);
  }

  /** The infix function at `mid`, whose right operand's loop ends before `end`, builds the node. */
  lemma {:induction false} InfixNode(ts: seq<Token>, l: Expression, mid: nat, k: TokenKind, op: string, r: Expression, end: nat)
    requires mid < end <= |ts| && Tok(ts, mid) == Token(k, op)
    requires StopsAt(Tok(ts, end), PrecedenceOf(k))
    requires Reaches(ts, mid + 1, PrecedenceOf(k), r, end - 1)
    ensures InfixTo(ts, l, mid, InfixExpression(l, op, r), end - 1)
  {
    ParseEnds(ts, mid + 1, r, end - 1, PrecedenceOf(k));
    InfixParses(ts, l, mid, k, op, r, end - 1);
  }

  /**
   * One turn of the expression loop: the operator at `mid`, binding tighter
   * than `prec`, whose right operand's loop ends before `end`, makes the node
   * of `l`, the operator and that operand the new left operand.
   */
  lemma {:induction false} InfixStep(ts: seq<Token>, mid: nat, l: Expression, k: TokenKind, op: string, r: Expression, end: nat, prec: Prec)
    requires 0 < mid < end <= |ts| && Tok(ts, mid) == Token(k, op) && HasInfixFn(k)
    requires Level(prec) < Level(PrecedenceOf(k))
    requires StopsAt(Tok(ts, end), PrecedenceOf(k))
    requires Reaches(ts, mid + 1, PrecedenceOf(k), r, end - 1)
    ensures SameLoop(ts, l, mid - 1, InfixExpression(l, op, r), end - 1, prec)
  {
    InfixNode(ts, l, mid, k, op, r, end);
    LoopTurn(ts, l, mid, k, prec, InfixExpression(l, op, r), end - 1);
  }

  /** A left operand that reaches the loop before `mid`, and one turn of the loop: the routine reaches the loop with the node. */
  lemma {:induction false} LeftThenTurn(ts: seq<Token>, i: nat, l: Expression, mid: nat, node: Expression, end: nat, prec: Prec)
    requires 0 < mid < end <= |ts|
    requires Reaches(ts, i, prec, l, mid - 1)
    requires SameLoop(ts, l, mid - 1, node, end - 1, prec)
    ensures Reaches(ts, i, prec, node, end - 1)
  {
  }

  // ---------------------------------------------------------------------------
  // The round trip, by induction on the tree
  // ---------------------------------------------------------------------------

  /** A parenthesised tree is one prefix parse: the tree, ending at the closing parenthesis. */
  lemma {:induction false} ParenthesisedIsPrefix(ts: seq<Token>, i: nat, e: Expression, close: nat)
    requires WellFormed(e)
    requires i < close < |ts| && ts[i] == OpenParen && ts[close] == CloseParen
    requires ts[i + 1..close] == Unparse(e)
    ensures PrefixTo(ts, i, e, close)
    decreases e, 4
  {
    assert Tok(ts, i) == OpenParen && Tok(ts, close) == CloseParen;
    ParseUnparse(ts, i + 1, e, close, Lowest);
    GroupedStep(ts, i, e, close);
  }

  /**
   * The heart of the round trip. From the start of the tokens of `e`, ending
   * before `end`, the expression routine at a precedence below the top
   * operator of `e` builds `e` and goes on with its loop as if `e` were the
   * left operand so far, provided the token at `end` would end an operand at
   * the precedence of `e`'s top operator.
   */
  lemma {:induction false} ParseUnparse(ts: seq<Token>, i: nat, e: Expression, end: nat, prec: Prec)
    requires WellFormed(e)
    requires i <= end <= |ts| && ts[i..end] == Unparse(e)
    requires e.InfixExpression? ==> Level(prec) < Level(Binding(e))
    requires StopsAt(Tok(ts, end), Binding(e))
    ensures i < end && Reaches(ts, i, prec, e, end - 1)
    decreases e, 3
  {
    if e.PrefixExpression? {
      ParsePrefixUnparse(ts, i, e, end, prec);
    } else if e.InfixExpression? {
      ParseInfixUnparse(ts, i, e, end, prec);
    } else {
      ParseAtomUnparse(ts, i, e, end, prec);
    }
  }

  /** The round trip for a tree without operators: the token's own prefix function builds it. */
  lemma {:induction false} ParseAtomUnparse(ts: seq<Token>, i: nat, e: Expression, end: nat, prec: Prec)
    requires WellFormed(e) && !e.PrefixExpression? && !e.InfixExpression?
    requires i <= end <= |ts| && ts[i..end] == Unparse(e)
    ensures i < end && Reaches(ts, i, prec, e, end - 1)
  {
    assert |Unparse(e)| == 1 && ts[i] == Unparse(e)[0];
    AtomPrefix(ts, i, e);
    PrefixStep(ts, i, e, end - 1, prec);
  }

  /** The round trip for a prefix operator: its operand is parsed at `PrefixLevel`. */
  lemma {:induction false} ParsePrefixUnparse(ts: seq<Token>, i: nat, e: Expression, end: nat, prec: Prec)
    requires WellFormed(e) && e.PrefixExpression?
    requires i <= end <= |ts| && ts[i..end] == Unparse(e)
    ensures i < end && Reaches(ts, i, prec, e, end - 1)
    decreases e, 2
  {
    var minus := Token(Minus, e.operator);
    SplitAt(ts, i, i + 1, end, [minus], Operand(e.right, PrefixLevel, false));
    assert ts[i..i + 1][0] == ts[i];
    PrefixParts(ts, i, e.operator, e.right, end, prec);
  }

  /** The round trip for a prefix operator, its operand's tokens located in the stream. */
  lemma {:induction false} PrefixParts(ts: seq<Token>, i: nat, op: string, r: Expression, end: nat, prec: Prec)
    requires WellFormed(r)
    requires i < |ts| && ts[i] == Token(Minus, op)
    requires OperandAt(ts, i + 1, end, r, PrefixLevel, false)
    ensures i < end && Reaches(ts, i, prec, PrefixExpression(op, r), end - 1)
    decreases PrefixExpression(op, r), 0
  {
    NegatedPrefix(ts, i, op, r, end);
    PrefixStep(ts, i, PrefixExpression(op, r), end - 1, prec);
  }

  /** A minus and the tokens of its operand: the prefix function builds the negation. */
  lemma {:induction false} NegatedPrefix(ts: seq<Token>, i: nat, op: string, r: Expression, end: nat)
    requires WellFormed(r)
    requires i < |ts| && ts[i] == Token(Minus, op)
    requires OperandAt(ts, i + 1, end, r, PrefixLevel, false)
    ensures i + 1 < end && PrefixTo(ts, i, PrefixExpression(op, r), end - 1)
    decreases r, 8
  {
    assert Tok(ts, i) == Token(Minus, op);
    NegatedOperandParses(ts, i, r, end);
    MinusStep(ts, i, r, end - 1);
  }

  /** The operand of a minus: every token ends it, so it parses like any operand at `PrefixLevel`. */
  lemma {:induction false} NegatedOperandParses(ts: seq<Token>, i: nat, r: Expression, end: nat)
    requires WellFormed(r)
    requires OperandAt(ts, i + 1, end, r, PrefixLevel, false)
    ensures i + 1 < end
    ensures StopsAt(Tok(ts, end), PrefixLevel)
    ensures Reaches(ts, i + 1, PrefixLevel, r, end - 1)
    decreases r, 7
  {
    EverythingStopsPrefix(Tok(ts, end));
    OperandParses(ts, i + 1, r, PrefixLevel, false, PrefixLevel, end);
  }

  /**
   * The round trip for an infix operator: the left operand is the start of the
   * parse, the operator continues its loop, and the right operand is parsed
   * at the operator's own precedence.
   */
  lemma {:induction false} ParseInfixUnparse(ts: seq<Token>, i: nat, e: Expression, end: nat, prec: Prec)
    requires WellFormed(e) && e.InfixExpression?
    requires i <= end <= |ts| && ts[i..end] == Unparse(e)
    requires Level(prec) < Level(Binding(e))
    requires StopsAt(Tok(ts, end), Binding(e))
    ensures i < end && Reaches(ts, i, prec, e, end - 1)
    decreases e, 2
  {
    var mid := InfixSplit(ts, i, e, end);
    InfixParts(ts, i, e.left, e.operator, e.right, mid, end, prec);
  }

  /** Where the operator and the operands of an infix tree are in a stream that holds its tokens. */
  lemma {:induction false} InfixSplit(ts: seq<Token>, i: nat, e: Expression, end: nat) returns (mid: nat)
    requires WellFormed(e) && e.InfixExpression?
    requires i <= end <= |ts| && ts[i..end] == Unparse(e)
    ensures i < mid && mid + 1 < end
    ensures ts[i..mid] == Operand(e.left, Binding(e), true)
    ensures ts[mid] == Token(InfixKind(e.operator).value, e.operator)
    ensures ts[mid + 1..end] == Operand(e.right, Binding(e), false)
  {
    var p := Binding(e);
    var ls := Operand(e.left, p, true);
    var opToken := Token(InfixKind(e.operator).value, e.operator);
    var rs := Operand(e.right, p, false);
    mid := i + |ls|;
    SplitAt(ts, i, mid + 1, end, ls + [opToken], rs);
    SplitAt(ts, i, mid, mid + 1, ls, [opToken]);
    assert ts[mid..mid + 1][0] == ts[mid];
  }

  /** The round trip for an infix operator, its operands' tokens located in the stream. */
  lemma {:induction false} InfixParts(ts: seq<Token>, i: nat, l: Expression, op: string, r: Expression, mid: nat, end: nat, prec: Prec)
    requires WellFormed(l) && WellFormed(r) && InfixKind(op).Some?
    requires i < mid && mid + 1 < end <= |ts|
    requires ts[i..mid] == Operand(l, PrecedenceOf(InfixKind(op).value), true)
    requires ts[mid] == Token(InfixKind(op).value, op)
    requires ts[mid + 1..end] == Operand(r, PrecedenceOf(InfixKind(op).value), false)
    requires Level(prec) < Level(PrecedenceOf(InfixKind(op).value))
    requires StopsAt(Tok(ts, end), PrecedenceOf(InfixKind(op).value))
    ensures Reaches(ts, i, prec, InfixExpression(l, op, r), end - 1)
    decreases InfixExpression(l, op, r), 1
  {
    var p := PrecedenceOf(InfixKind(op).value);
    assert Tok(ts, mid) == ts[mid];
    OperandParses(ts, i, l, p, true, prec, mid);
    RightOperandStep(ts, mid, l, op, r, end, prec);
    LeftThenTurn(ts, i, l, mid, InfixExpression(l, op, r), end, prec);
  }

  /** The operator after a left operand and the right operand after it make one turn of the loop. */
  lemma {:induction false} RightOperandStep(ts: seq<Token>, mid: nat, l: Expression, op: string, r: Expression, end: nat, prec: Prec)
    requires WellFormed(r) && InfixKind(op).Some?
    requires 0 < mid && mid + 1 < end <= |ts|
    requires ts[mid] == Token(InfixKind(op).value, op)
    requires ts[mid + 1..end] == Operand(r, PrecedenceOf(InfixKind(op).value), false)
    requires Level(prec) < Level(PrecedenceOf(InfixKind(op).value))
    requires StopsAt(Tok(ts, end), PrecedenceOf(InfixKind(op).value))
    ensures SameLoop(ts, l, mid - 1, InfixExpression(l, op, r), end - 1, prec)
    decreases InfixExpression(l, op, r), 0
  {
    var k := InfixKind(op).value;
    assert Tok(ts, mid) == Token(k, op);
    OperandParses(ts, mid + 1, r, PrecedenceOf(k), false, PrecedenceOf(k), end);
    InfixStep(ts, mid, l, k, op, r, end, prec);
  }

  /**
   * An operand of an operator binding at `p`, parenthesised or not, ending
   * before `end`: the routine at precedence `q` builds it and goes on with its
   * loop. On the left `q` is below `p`, the operand being the start of a
   * longer parse; on the right `q` is `p` itself.
   */
  lemma {:induction false} OperandParses(ts: seq<Token>, i: nat, e: Expression, p: Prec, onLeft: bool, q: Prec, end: nat)
    requires WellFormed(e)
    requires i <= end <= |ts| && ts[i..end] == Operand(e, p, onLeft)
    requires StopsAt(Tok(ts, end), p)
    requires Level(p) <= Level(PrefixLevel)
    requires if onLeft then Level(q) < Level(p) else q == p
    ensures i < end && Reaches(ts, i, q, e, end - 1)
    decreases e, 6
  {
    if NeedsParens(e, p, onLeft) {
      ParenOperandParses(ts, i, e, q, end);
    } else {
      BareOperandParses(ts, i, e, p, onLeft, q, end);
    }
  }

  /** An operand written without parentheses: its own round trip, the token after it stopping the loop at its binding. */
  lemma {:induction false} BareOperandParses(ts: seq<Token>, i: nat, e: Expression, p: Prec, onLeft: bool, q: Prec, end: nat)
    requires WellFormed(e) && !NeedsParens(e, p, onLeft)
    requires i <= end <= |ts| && ts[i..end] == Unparse(e)
    requires StopsAt(Tok(ts, end), p)
    requires Level(p) <= Level(PrefixLevel)
    requires if onLeft then Level(q) < Level(p) else q == p
    ensures i < end && Reaches(ts, i, q, e, end - 1)
    decreases e, 5
  {
    StopsAtHigher(Tok(ts, end), p, Binding(e));
    ParseUnparse(ts, i, e, end, q);
  }

  /** A parenthesised operand is built by the prefix function, and the loop goes on after the closing parenthesis. */
  lemma {:induction false} ParenOperandParses(ts: seq<Token>, i: nat, e: Expression, q: Prec, end: nat)
    requires WellFormed(e)
    requires i <= end <= |ts| && ts[i..end] == [OpenParen] + Unparse(e) + [CloseParen]
    ensures i < end && Reaches(ts, i, q, e, end - 1)
    decreases e, 5
  {
    ParenSplit(ts, i, end, Unparse(e));
    ParenthesisedIsPrefix(ts, i, e, end - 1);
    PrefixStep(ts, i, e, end - 1, q);
  }

  // ---------------------------------------------------------------------------
  // The whole stream
  // ---------------------------------------------------------------------------

  /** Writing a well-formed tree out and parsing it as a whole expression gives the tree back. */
  lemma {:induction false} RoundTrip(e: Expression)
    requires WellFormed(e)
    ensures NoEof(Unparse(e))
    ensures ParseExpression(Unparse(e), 0, Lowest) == Success(Parsed(e, |Unparse(e)| - 1))
  {
    var ts := Unparse(e);
    UnparseHasNoEof(e);
    assert ts[0..|ts|] == ts;
    ParseWhole(ts, e);
  }

  /** A stream that holds exactly the tokens of `e` parses to `e`, ending at its last token. */
  lemma {:induction false} ParseWhole(ts: seq<Token>, e: Expression)
    requires WellFormed(e) && ts[0..|ts|] == Unparse(e)
    ensures 0 < |ts| && ParsesTo(ts, 0, Lowest, e, |ts| - 1)
  {
    WholeReaches(ts, e);
    EofStops(ts, Lowest);
    ParseEnds(ts, 0, e, |ts| - 1, Lowest);
  }

  /** From the first token of a stream that holds exactly the tokens of `e`, the routine reaches its loop with `e` at the last token. */
  lemma {:induction false} WholeReaches(ts: seq<Token>, e: Expression)
    requires WellFormed(e) && ts[0..|ts|] == Unparse(e)
    ensures 0 < |ts| && Reaches(ts, 0, Lowest, e, |ts| - 1)
  {
    EofStops(ts, Binding(e));
    ParseUnparse(ts, 0, e, |ts|, Lowest);
  }

  /**
   * Inside any stream, the tokens of a tree followed by a token that ends
   * every expression (a semicolon, a comma, a closing bracket, the end, or
   * any token without an infix function) parse to that tree, ending at its
   * last token.
   */
  lemma {:induction false} ParseEmbedded(ts: seq<Token>, i: nat, e: Expression, end: nat)
    requires WellFormed(e) && i <= end <= |ts| && ts[i..end] == Unparse(e)
    requires StopsAt(Tok(ts, end), Lowest)
    ensures i < end && ParsesTo(ts, i, Lowest, e, end - 1)
  {
    StopsAtHigher(Tok(ts, end), Lowest, Binding(e));
    if e.InfixExpression? {
      assert Level(Sum) <= Level(Binding(e));
    }
    ParseUnparse(ts, i, e, end, Lowest);
    ParseEnds(ts, i, e, end - 1, Lowest);
  }
}
