/**
 * The scanner as a function: what one call of `Lexer.next` returns and what
 * input it leaves behind, written as recursion over the unconsumed text.
 */
module LexSpec {
  import opened Results
  import opened Tokens
  import Numbers

  // ---------------------------------------------------------------------------
  // Character classes and the two literal patterns
  // ---------------------------------------------------------------------------

  /** The four characters the scanner treats as blanks. */
  predicate IsWhitespace(c: char)
  {
    c == ' ' || c == '\t' || c == '\n' || c == '\r'
  }

  predicate IsDigit(c: char)
  {
    Numbers.IsDigit(c)
  }

  /** A character that may start an identifier: a letter, `_` or `$`. */
  predicate IsIdentStart(c: char)
  {
    ('a' <= c <= 'z') || ('A' <= c <= 'Z') || c == '_' || c == '$'
  }

  predicate IsIdentPart(c: char)
  {
    IsIdentStart(c) || IsDigit(c)
  }

  /** The number pattern: a digit, then digits and underscores with at most one `.` among them. */
  predicate IsNumber(t: string)
  {
    && |t| > 0
    && IsDigit(t[0])
    && (forall k | 0 < k < |t| :: IsDigit(t[k]) || t[k] == '_' || t[k] == '.')
    && (forall j, k | 0 < j < k < |t| :: !(t[j] == '.' && t[k] == '.'))
  }

  /** The identifier pattern: a start character followed by letters, digits, `_` and `$`. */
  predicate IsValidIdentifier(t: string)
  {
    |t| > 0 && IsIdentStart(t[0]) && forall k | 0 < k < |t| :: IsIdentPart(t[k])
  }

  /** The end of the run of identifier characters that starts at `i`. */
  function WordEnd(s: string, i: nat): (j: nat)
    requires i <= |s|
    ensures i <= j <= |s|
    ensures forall k | i <= k < j :: IsIdentPart(s[k])
    ensures j == |s| || !IsIdentPart(s[j])
    decreases |s| - i
  {
    if i == |s| || !IsIdentPart(s[i]) then i else WordEnd(s, i + 1)
  }

  /**
   * The end of the run of digits and underscores, with at most one `.` among
   * them, that starts at `i`; `dotSeen` says whether the `.` came already.
   */
  function NumberEnd(s: string, i: nat, dotSeen: bool): (j: nat)
    requires i <= |s|
    ensures i <= j <= |s|
    decreases |s| - i
  {
    if i == |s| then i
    else if IsDigit(s[i]) || s[i] == '_' then NumberEnd(s, i + 1, dotSeen)
    else if s[i] == '.' && !dotSeen then NumberEnd(s, i + 1, true)
    else i
  }

  /** The length of the number literal at the start of `s`. */
  function NumberLength(s: string): nat
    requires |s| > 0
  {
    NumberEnd(s, 1, false)
  }

  /** The length of the word at the start of `s`. */
  function IdentifierLength(s: string): nat
    requires |s| > 0
  {
    WordEnd(s, 1)
  }

  /** `t` holds a `.` somewhere after its first character. */
  predicate HasDot(t: string)
  {
    exists k | 0 < k < |t| :: t[k] == '.'
  }

  lemma {:induction false} NumberEndIsLongest(s: string, i: nat, dotSeen: bool)
    requires 0 < i <= |s| && IsNumber(s[..i]) && dotSeen == HasDot(s[..i])
    ensures var j := NumberEnd(s, i, dotSeen);
      IsNumber(s[..j]) && forall n | j < n <= |s| :: !IsNumber(s[..n])
    decreases |s| - i
  {
    var j := NumberEnd(s, i, dotSeen);
    if i < |s| && (IsDigit(s[i]) || s[i] == '_' || (s[i] == '.' && !dotSeen)) {
      assert s[..i + 1] == s[..i] + [s[i]];
      NumberEndIsLongest(s, i + 1, dotSeen || s[i] == '.');
    } else {
      forall n | i < n <= |s|
        ensures !IsNumber(s[..n])
      {
        assert s[..n][i] == s[i];
        if s[i] == '.' {
          var k :| 0 < k < i && s[..i][k] == '.';
          assert s[..n][k] == '.';
        }
      }
    }
  }

  /** The number literal is the longest prefix of `s` that matches the number pattern. */
  lemma NumberLengthIsLongest(s: string)
    requires |s| > 0 && IsDigit(s[0])
    ensures var n := NumberLength(s);
      0 < n <= |s| && IsNumber(s[..n]) && forall j | n < j <= |s| :: !IsNumber(s[..j])
  {
    assert IsNumber(s[..1]) && !HasDot(s[..1]);
    NumberEndIsLongest(s, 1, false);
  }

  /** The word is the longest prefix of `s` that matches the identifier pattern. */
  lemma IdentifierLengthIsLongest(s: string)
    requires |s| > 0 && IsIdentStart(s[0])
    ensures var n := IdentifierLength(s);
      0 < n <= |s| && IsValidIdentifier(s[..n]) && forall j | n < j <= |s| :: !IsValidIdentifier(s[..j])
  {
    var n := IdentifierLength(s);
    forall j | n < j <= |s|
      ensures !IsValidIdentifier(s[..j])
    {
      assert s[..j][n] == s[n];
    }
  }

  /** The kind a scanned word gets: its keyword-table entry, or `Ident`. */
  function WordKind(w: string): (k: TokenKind)
    ensures k == Ident || IsKeywordKind(k)
    ensures k !in {Eof, String, Number}
  {
    match KeywordKind(w) case Some(k) => KeywordEntries(w); k case None => Ident
  }

  // ---------------------------------------------------------------------------
  // Searches the scanner performs
  // ---------------------------------------------------------------------------

  /** The input with its leading blanks removed. */
  function TrimStart(s: string): (r: string)
    ensures |r| <= |s| && r == s[|s| - |r|..]
    ensures r == [] || !IsWhitespace(r[0])
    ensures forall k | 0 <= k < |s| - |r| :: IsWhitespace(s[k])
  {
    if s != [] && IsWhitespace(s[0]) then TrimStart(s[1..]) else s
  }

  /** No line break occurs at an index in `[from, to)`. */
  predicate NoLineBreakBetween(s: string, from: nat, to: nat)
  {
    forall j | from <= j < to && j < |s| :: s[j] != '\n'
  }

  /** The first line break at or after `from`, or the length of `s` when there is none. */
  function LineEnd(s: string, from: nat): (i: nat)
    requires from <= |s|
    ensures from <= i <= |s|
    ensures i < |s| ==> s[i] == '\n'
    ensures NoLineBreakBetween(s, from, i)
    decreases |s| - from
  {
    if from == |s| || s[from] == '\n' then from else LineEnd(s, from + 1)
  }

  /** No star directly followed by a slash starts at an index in `[from, to)`. */
  predicate NoCloseBetween(s: string, from: nat, to: nat)
  {
    forall j | from <= j < to && j + 1 < |s| :: !(s[j] == '*' && s[j + 1] == '/')
  }

  /** Where `*` `/` first occurs at or after `from`. */
  function CommentClose(s: string, from: nat): (r: Option<nat>)
    requires from <= |s|
    ensures r.Some? ==> from <= r.value && r.value + 1 < |s| && s[r.value] == '*' && s[r.value + 1] == '/'
    ensures NoCloseBetween(s, from, if r.Some? then r.value else |s|)
    decreases |s| - from
  {
    if from + 1 >= |s| then None
    else if s[from] == '*' && s[from + 1] == '/' then Some(from)
    else CommentClose(s, from + 1)
  }

  /** Where the character `q` first occurs at or after `from`. */
  function QuoteIndex(s: string, q: char, from: nat): (r: Option<nat>)
    requires from <= |s|
    ensures r.Some? ==> from <= r.value < |s| && s[r.value] == q
    ensures forall j | from <= j < (if r.Some? then r.value else |s|) :: s[j] != q
    decreases |s| - from
  {
    if from == |s| then None
    else if s[from] == q then Some(from)
    else QuoteIndex(s, q, from + 1)
  }

  // ---------------------------------------------------------------------------
  // One call of `next`
  // ---------------------------------------------------------------------------

  /** Why a call of `next` throws. */
  datatype LexError =
    | UnknownToken(c: char)
    | NonTerminatedString(quote: char)

  /** The outcome of one call and the unconsumed input it leaves (also when it throws). */
  datatype Step = Step(result: Result<Token, LexError>, rest: string)

  /** `rest` is what is left of `s` after dropping some prefix. */
  predicate IsSuffix(rest: string, s: string)
  {
    |rest| <= |s| && rest == s[|s| - |rest|..]
  }

  /** A token of the given kind whose literal is the first `n` characters of `s`. */
  function Emit(kind: TokenKind, s: string, n: nat): (st: Step)
    requires 0 < n <= |s|
    ensures st.result.Success? && st.result.value.literal + st.rest == s
    ensures IsSuffix(st.rest, s) && |st.rest| == |s| - n
  {
    Step(Success(Token(kind, s[..n])), s[n..])
  }

  /** What follows a `//` comment that starts `s`: the text after the line break, or nothing. */
  function AfterLineComment(s: string): (r: string)
    requires |s| >= 2
    ensures IsSuffix(r, s) && |r| < |s|
  {
    var i := LineEnd(s, 2);
    if i < |s| then s[i + 1..] else []
  }

  /** A scan that begins with a quote character: the text up to the first later matching quote. */
  function ScanString(s: string): (st: Step)
    requires |s| > 0
    ensures IsSuffix(st.rest, s) && |st.rest| < |s|
    ensures st.result.Success? ==> st.result.value.kind.String?
    ensures st.result.Success? ==>
      s[0] !in st.result.value.literal && s == [s[0]] + st.result.value.literal + [s[0]] + st.rest
    ensures st.result.Failure? ==> st.result.error == NonTerminatedString(s[0]) && s[0] !in s[1..]
  {
    match QuoteIndex(s, s[0], 1)
    case Some(i) => Step(Success(Token(String, s[1..i])), s[i + 1..])
    case None => Step(Failure(NonTerminatedString(s[0])), s[1..])
  }

  /** A scan that begins with a digit: the longest prefix matching the number pattern. */
  function ScanNumber(s: string): (st: Step)
    requires |s| > 0 && IsDigit(s[0])
    ensures st.result.Success? && st.result.value.kind.Number?
    ensures st.result.value.literal + st.rest == s
    ensures IsSuffix(st.rest, s) && |st.rest| < |s|
    ensures IsNumber(st.result.value.literal)
    ensures st.rest == [] || !IsNumber(st.result.value.literal + [st.rest[0]])
  {
    NumberLengthIsLongest(s);
    var n := NumberLength(s);
    assert n < |s| ==> s[..n + 1] == s[..n] + [s[n..][0]];
    Emit(Number, s, n)
  }

  /** A scan that begins with an identifier start: the longest identifier prefix, classified by the keyword table. */
  function ScanWord(s: string): (st: Step)
    requires |s| > 0 && IsIdentStart(s[0])
    ensures st.result.Success? && st.result.value.kind == WordKind(st.result.value.literal)
    ensures st.result.value.literal + st.rest == s
    ensures IsSuffix(st.rest, s) && |st.rest| < |s|
    ensures IsValidIdentifier(st.result.value.literal)
    ensures st.rest == [] || !IsIdentPart(st.rest[0])
  {
    IdentifierLengthIsLongest(s);
    var n := IdentifierLength(s);
    Emit(WordKind(s[..n]), s, n)
  }

  /** The kinds spelled with one character that no longer symbol starts with. */
  function SingleSymbol(c: char): (r: Option<TokenKind>)
    ensures r.Some? ==> r.value !in {Eof, String, Number, Ident}
  {
    match c
    case ',' => Some(Comma) case '(' => Some(LParen) case ')' => Some(RParen)
    case '{' => Some(LBrace) case '}' => Some(RBrace) case '[' => Some(LSquare)
    case ']' => Some(RSquare) case '*' => Some(Asterisk) case '/' => Some(Slash)
    case '%' => Some(Percent) case '<' => Some(Lt) case '>' => Some(Gt)
    case ':' => Some(Colon) case ';' => Some(Semi)
    case _ => None
  }

  /** The two symbols that start with `c`: `cc` (kind `double`) when the next character is `c` too, else `c`. */
  function ScanDoubled(s: string, single: TokenKind, double: TokenKind): (st: Step)
    requires |s| > 0
    ensures st.result.Success? && st.result.value.literal + st.rest == s
    ensures IsSuffix(st.rest, s) && |st.rest| < |s|
    ensures st.result.value.kind in {single, double}
  {
    if |s| > 1 && s[1] == s[0] then Emit(double, s, 2) else Emit(single, s, 1)
  }

  /** `c`, `c=` or `c==`, longest first: the equality operators and their negations. */
  function ScanEquality(s: string, one: TokenKind, two: TokenKind, three: TokenKind): (st: Step)
    requires |s| > 0
    ensures st.result.Success? && st.result.value.literal + st.rest == s
    ensures IsSuffix(st.rest, s) && |st.rest| < |s|
    ensures st.result.value.kind in {one, two, three}
  {
    if |s| > 1 && s[1] == '=' then
      if |s| > 2 && s[2] == '=' then Emit(three, s, 3) else Emit(two, s, 2)
    else Emit(one, s, 1)
  }

  /** The characters that begin an operator or punctuation token. */
  predicate IsSymbolStart(c: char)
  {
    c in "+-.=!" || SingleSymbol(c).Some?
  }

  /** An operator or punctuation token, longest match first. */
  function ScanSymbol(s: string): (st: Step)
    requires |s| > 0 && IsSymbolStart(s[0])
    ensures st.result.Success? && st.result.value.literal + st.rest == s
    ensures IsSuffix(st.rest, s) && |st.rest| < |s|
    ensures st.result.value.kind !in {Eof, String, Number, Ident}
  {
    var c := s[0];
    if c == '+' then ScanDoubled(s, Plus, PlusPlus)
    else if c == '-' then ScanDoubled(s, Minus, MinusMinus)
    else if c == '.' then
      if |s| > 2 && s[1] == '.' && s[2] == '.' then Emit(DotDotDot, s, 3) else Emit(Dot, s, 1)
    else if c == '=' then ScanEquality(s, Eq, EqEq, EqEqEq)
    else if c == '!' then ScanEquality(s, Bang, NotEq, NotEqEq)
    else Emit(SingleSymbol(c).value, s, 1)
  }

  /** A scan of a token that is not a comment, starting at the non-blank text `s`. */
  function ScanToken(s: string): (st: Step)
    requires |s| > 0
    ensures IsSuffix(st.rest, s)
    ensures st.result.Success? ==> |st.rest| < |s| && !st.result.value.kind.Eof?
  {
    var c := s[0];
    if IsSymbolStart(c) then ScanSymbol(s)
    else if IsDigit(c) then ScanNumber(s)
    else if c == '"' || c == '\'' then ScanString(s)
    else if IsIdentStart(c) then ScanWord(s)
    else Step(Failure(UnknownToken(c)), s)
  }

  /** `s` opens a block comment (slash, star) that is closed later on. */
  predicate StartsClosedComment(s: string)
  {
    |s| > 1 && s[0] == '/' && s[1] == '*' && CommentClose(s, 2).Some?
  }

  /** What follows the closed block comment that starts `s`. */
  function AfterBlockComment(s: string): (r: string)
    requires StartsClosedComment(s)
    ensures IsSuffix(r, s) && |r| < |s|
  {
    s[CommentClose(s, 2).value + 2..]
  }

  /** Dropping a prefix of a suffix leaves a suffix. */
  lemma SuffixOfSuffix(a: string, b: string, c: string)
    requires IsSuffix(a, b) && IsSuffix(b, c)
    ensures IsSuffix(a, c)
  {
    assert c[|c| - |b|..][|b| - |a|..] == c[|c| - |a|..];
  }

  /**
   * Where the next token starts: leading blanks are skipped, and so is a
   * comment, after which skipping starts over. An unclosed block comment is
   * not skipped.
   */
  function TokenStart(src: string): (s: string)
    ensures IsSuffix(s, src)
    ensures s == [] || !IsWhitespace(s[0])
    decreases |src|
  {
    var s := TrimStart(src);
    if |s| > 1 && s[0] == '/' && s[1] == '/' then
      var r := TokenStart(AfterLineComment(s));
      SuffixOfSuffix(r, AfterLineComment(s), s);
      SuffixOfSuffix(r, s, src);
      r
    else if StartsClosedComment(s) then
      var r := TokenStart(AfterBlockComment(s));
      SuffixOfSuffix(r, AfterBlockComment(s), s);
      SuffixOfSuffix(r, s, src);
      r
    else s
  }

  /**
   * One call of `next` on the input `src`: `Eof` when nothing but blanks and
   * comments is left, otherwise the token scanned at the token start.
   */
  function Lex(src: string): (st: Step)
    ensures IsSuffix(st.rest, src)
    ensures st.result.Success? && !st.result.value.kind.Eof? ==> |st.rest| < |src|
    ensures st.result.Success? && st.result.value.kind.Eof? ==> st == Step(Success(EofToken), [])
  {
    var s := TokenStart(src);
    if s == [] then Step(Success(EofToken), [])
    else
      var st := ScanToken(s);
      SuffixOfSuffix(st.rest, s, src);
      st
  }

  // ---------------------------------------------------------------------------
  // Repeated calls
  // ---------------------------------------------------------------------------

  /**
   * The tokens that repeated calls of `next` return before the first `Eof`,
   * or the first error one of them throws.
   */
  function Tokenize(src: string): Result<seq<Token>, LexError>
    decreases |src|
  {
    var st := Lex(src);
    if st.result.Failure? then Failure(st.result.error)
    else if st.result.value.kind.Eof? then Success([])
    else
      var more := Tokenize(st.rest);
      if more.Failure? then more
      else Success([st.result.value] + more.value)
  }

  /** No token of `ts` is `Eof`. */
  predicate NoEof(ts: seq<Token>)
  {
    forall i | 0 <= i < |ts| :: !ts[i].kind.Eof?
  }

  lemma PrependNoEof(t: Token, ts: seq<Token>)
    requires !t.kind.Eof? && NoEof(ts)
    ensures NoEof([t] + ts)
  {
    assert forall i | 0 < i < |[t] + ts| :: ([t] + ts)[i] == ts[i - 1];
  }

  /** `Eof` ends the token stream and is never part of it. */
  lemma {:induction false} TokenizeHasNoEof(src: string)
    requires Tokenize(src).Success?
    ensures NoEof(Tokenize(src).value)
    decreases |src|
  {
    var st := Lex(src);
    if !st.result.value.kind.Eof? {
      TokenizeHasNoEof(st.rest);
      PrependNoEof(st.result.value, Tokenize(st.rest).value);
    }
  }
}
