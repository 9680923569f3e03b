/**
 * The token model: the closed set of token kinds with the text each kind
 * stands for, the keyword table, and the operator precedence table.
 */
module Tokens {
  import opened Results

  /** Every lexical category of the language (the `TokenType` enumeration). */
  datatype TokenKind =
    | LParen | RParen | LBrace | RBrace | LSquare | RSquare
    | Plus | PlusPlus | Minus | MinusMinus | Percent | Slash | Asterisk | Cap
    | Dot | DotDotDot | Comma | Semi | Colon
    | String | Number | Ident
    | Eq | EqEq | EqEqEq | Bang | NotEq | NotEqEq | Lt | Gt
    | Const | Let | Var | If | Else | Func | Return | Yield | True | False
    | Async | Await | For | While | Do | Break | Continue
    | SingleLineComment | MultiLineComment
    | Eof

  /** A token: its kind and the exact text it was scanned from. */
  datatype Token = Token(kind: TokenKind, literal: string)

  /** The token the scanner returns once the input is used up. */
  const EofToken := Token(Eof, "")

  /** The value of each enumeration member. */
  function KindText(k: TokenKind): string
  {
    match k
    case LParen => "(" case RParen => ")" case LBrace => "{" case RBrace => "}"
    case LSquare => "[" case RSquare => "]"
    case Plus => "+" case PlusPlus => "++" case Minus => "-" case MinusMinus => "--"
    case Percent => "%" case Slash => "/" case Asterisk => "*" case Cap => "^"
    case Dot => "." case DotDotDot => "..." case Comma => "," case Semi => ";" case Colon => ":"
    case String => "STRING" case Number => "NUMBER" case Ident => "IDENT"
    case Eq => "=" case EqEq => "==" case EqEqEq => "===" case Bang => "!"
    case NotEq => "!=" case NotEqEq => "!==" case Lt => "<" case Gt => ">"
    case Const => "const" case Let => "let" case Var => "var" case If => "if"
    case Else => "else" case Func => "func" case Return => "return" case Yield => "yield"
    case True => "true" case False => "false" case Async => "async" case Await => "await"
    case For => "for" case While => "while" case Do => "do" case Break => "break"
    case Continue => "continue"
    case SingleLineComment => "//" case MultiLineComment => "/*"
    case Eof => "EOF"
  }

  /** The kinds that stand for a reserved word. */
  predicate IsKeywordKind(k: TokenKind)
  {
    k in {Const, Let, Var, If, Else, Func, Return, Yield, True, False,
          Async, Await, For, While, Do, Break, Continue}
  }

  /** The operator and punctuation kinds the scanner emits, with their symbol as literal. */
  predicate IsSymbolKind(k: TokenKind)
  {
    k in {LParen, RParen, LBrace, RBrace, LSquare, RSquare,
          Plus, PlusPlus, Minus, MinusMinus, Percent, Slash, Asterisk,
          Dot, DotDotDot, Comma, Semi, Colon,
          Eq, EqEq, EqEqEq, Bang, NotEq, NotEqEq, Lt, Gt}
  }

  /** The keyword table: the kind a reserved word is scanned as, or `None` for any other word. */
  function KeywordKind(w: string): Option<TokenKind>
  {
    match w
    case "const" => Some(Const) case "let" => Some(Let) case "var" => Some(Var)
    case "if" => Some(If) case "else" => Some(Else) case "function" => Some(Func)
    case "return" => Some(Return) case "yield" => Some(Yield) case "true" => Some(True)
    case "false" => Some(False) case "async" => Some(Async) case "await" => Some(Await)
    case "for" => Some(For) case "while" => Some(While) case "break" => Some(Break)
    case "continue" => Some(Continue)
    case _ => None
  }

  /** Binding powers, weakest first (the `Prec` enumeration). */
  datatype Prec = Lowest | Logical | Sum | Product | PrefixLevel | Call | Primary

  /** The numeric value of each precedence level, as the parser compares them. */
  function Level(p: Prec): (n: nat)
    ensures n <= 6
  {
    match p
    case Lowest => 0 case Logical => 1 case Sum => 2 case Product => 3
    case PrefixLevel => 4 case Call => 5 case Primary => 6
  }

  /** The precedence table: the binding power of the kinds that have an entry. */
  function PrecedenceEntry(k: TokenKind): Option<Prec>
  {
    match k
    case EqEq => Some(Logical) case EqEqEq => Some(Logical)
    case NotEq => Some(Logical) case NotEqEq => Some(Logical)
    case Plus => Some(Sum) case Minus => Some(Sum)
    case Asterisk => Some(Product) case Slash => Some(Product)
    case Percent => Some(Product) case Cap => Some(Product)
    case Number => Some(Primary) case Ident => Some(Primary) case String => Some(Primary)
    case _ => None
  }

  /** The lookup the parser performs: the table entry, or `Lowest` when there is none. */
  function PrecedenceOf(k: TokenKind): Prec
  {
    match PrecedenceEntry(k)
    case Some(p) => p
    case None => Lowest
  }

  // ---------------------------------------------------------------------------
  // Properties of the tables
  // ---------------------------------------------------------------------------

  /** The levels are strictly ascending in declaration order, and `Level` is one to one. */
  lemma LevelsAscend()
    ensures Level(Lowest) < Level(Logical) < Level(Sum) < Level(Product)
            < Level(PrefixLevel) < Level(Call) < Level(Primary)
    ensures forall p, q :: Level(p) == Level(q) ==> p == q
  {
  }

  /** Exactly which kinds the table binds at each level; no entry is `Lowest`, `PrefixLevel` or `Call`. */
  lemma PrecedenceTableContents(k: TokenKind)
    ensures PrecedenceEntry(k) == Some(Logical) <==> k in {EqEq, EqEqEq, NotEq, NotEqEq}
    ensures PrecedenceEntry(k) == Some(Sum) <==> k in {Plus, Minus}
    ensures PrecedenceEntry(k) == Some(Product) <==> k in {Asterisk, Slash, Percent, Cap}
    ensures PrecedenceEntry(k) == Some(Primary) <==> k in {Number, Ident, String}
    ensures PrecedenceEntry(k) !in {Some(Lowest), Some(PrefixLevel), Some(Call)}
  {
  }

  /** Every product operator binds tighter than every sum operator, which bind tighter than equality. */
  lemma ProductAboveSumAboveLogical(p: TokenKind, s: TokenKind, e: TokenKind)
    requires PrecedenceEntry(p) == Some(Product)
    requires PrecedenceEntry(s) == Some(Sum)
    requires PrecedenceEntry(e) == Some(Logical)
    ensures Level(PrecedenceOf(e)) < Level(PrecedenceOf(s)) < Level(PrecedenceOf(p))
  {
  }

  /** A kind binds at `Lowest` exactly when the table has no entry for it. */
  lemma AbsentMeansLowest(k: TokenKind)
    ensures PrecedenceOf(k) == Lowest <==> PrecedenceEntry(k).None?
  {
  }

  /** The reserved words in the order the table lists them. */
  const KeywordList: seq<string> := ["const", "let", "var", "if", "else", "function", "return",
    "yield", "true", "false", "async", "await", "for", "while", "break", "continue"]

  /** Each entry of the table is a keyword kind other than `Do`. */
  lemma KeywordEntries(w: string)
    ensures KeywordKind(w).Some? ==> IsKeywordKind(KeywordKind(w).value) && KeywordKind(w).value != Do
  {
  }

  /** The table has an entry exactly for the sixteen listed words. */
  lemma KeywordWords(w: string)
    ensures KeywordKind(w).Some? <==> w in KeywordList
  {
  }

  /** The word `function` is scanned as `Func`, whose enumeration text is `func`. */
  lemma FunctionIsFunc()
    ensures KeywordKind("function") == Some(Func) && KindText(Func) == "func"
  {
  }
}
