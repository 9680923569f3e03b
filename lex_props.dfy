/**
 * What the scanner promises about one call of `next`: where the token starts,
 * that its literal is the text it consumed, longest match for operators,
 * numbers and words, and which inputs are errors.
 */
module LexProps {
  import opened Results
  import opened Tokens
  import opened LexSpec

  /**
   * The literal of a scanned token is exactly the text it consumed; for a
   * string that text is the literal between two equal quotes, neither of
   * which occurs inside it.
   */
  lemma ScanTokenLiteral(s: string)
    requires |s| > 0 && ScanToken(s).result.Success?
    ensures var st := ScanToken(s);
      !st.result.value.kind.String? ==> s == st.result.value.literal + st.rest
    ensures var st := ScanToken(s);
      st.result.value.kind.String? ==>
        && (s[0] == '"' || s[0] == '\'')
        && s == [s[0]] + st.result.value.literal + [s[0]] + st.rest
        && s[0] !in st.result.value.literal
  {
    var c := s[0];
    if !IsSymbolStart(c) && !IsDigit(c) && (c == '"' || c == '\'') {
      var i := QuoteIndex(s, c, 1).value;
      assert s == [c] + s[1..i] + [c] + s[i + 1..];
    }
  }

  /** The same at the level of a whole call: the token is cut off the text at the token start. */
  lemma LiteralIsConsumedText(src: string)
    requires Lex(src).result.Success? && !Lex(src).result.value.kind.Eof?
    ensures var st := Lex(src);
      !st.result.value.kind.String? ==> TokenStart(src) == st.result.value.literal + st.rest
    ensures var st := Lex(src); var s := TokenStart(src);
      st.result.value.kind.String? ==>
        |s| > 0 && s == [s[0]] + st.result.value.literal + [s[0]] + st.rest
  {
    ScanTokenLiteral(TokenStart(src));
  }

  /** Once `Eof` is returned, nothing is left and every later call returns `Eof` again. */
  lemma EofIsFinal(src: string)
    requires Lex(src).result == Success(EofToken)
    ensures Lex(src).rest == [] && Lex(Lex(src).rest) == Lex(src)
  {
  }

  /** Blank input, however long, gives `Eof` with an empty literal. */
  lemma {:induction false} BlankInputIsEof(src: string)
    requires forall i | 0 <= i < |src| :: IsWhitespace(src[i])
    ensures Lex(src) == Step(Success(EofToken), [])
  {
    BlankTrimsToNothing(src);
  }

  lemma {:induction false} BlankTrimsToNothing(src: string)
    requires forall i | 0 <= i < |src| :: IsWhitespace(src[i])
    ensures TrimStart(src) == []
  {
    if src != [] {
      BlankTrimsToNothing(src[1..]);
    }
  }

  lemma {:induction false} LineEndAt(s: string, from: nat, i: nat)
    requires from <= i < |s| && s[i] == '\n'
    requires forall j | from <= j < i :: s[j] != '\n'
    ensures LineEnd(s, from) == i
    decreases i - from
  {
    if from < i {
      LineEndAt(s, from + 1, i);
    }
  }

  /** Text that starts with a slash has no blanks to trim: its token start depends on the comment it may open. */
  lemma UntrimmedStart(s: string)
    requires |s| > 1 && s[0] == '/'
    ensures TokenStart(s) == if s[1] == '/' then TokenStart(AfterLineComment(s))
      else if StartsClosedComment(s) then TokenStart(AfterBlockComment(s)) else s
  {
    assert !IsWhitespace(s[0]);
    assert TrimStart(s) == s;
  }

  /** Text that starts with two slashes is skipped up to its line break before the token start is sought again. */
  lemma LineCommentStart(s: string)
    requires |s| > 1 && s[0] == '/' && s[1] == '/'
    ensures TokenStart(s) == TokenStart(AfterLineComment(s))
  {
    UntrimmedStart(s);
  }

  /** A line comment yields no token: scanning resumes after its line break. */
  lemma LineCommentIsSkipped(body: string, after: string)
    requires '\n' !in body
    ensures TokenStart("//" + body + "\n" + after) == TokenStart(after)
    ensures Lex("//" + body + "\n" + after) == Lex(after)
  {
    var s := "//" + body + "\n" + after;
    assert s[..2] == "//" && s[2..2 + |body|] == body && s[2 + |body|] == '\n';
    LineEndAt(s, 2, 2 + |body|);
    assert s[2 + |body| + 1..] == after;
    LineCommentStart(s);
  }

  /** A line comment at the end of the input yields no token either. */
  lemma LastLineCommentIsSkipped(body: string)
    requires '\n' !in body
    ensures TokenStart("//" + body) == []
    ensures Lex("//" + body) == Step(Success(EofToken), [])
  {
    var s := "//" + body;
    assert s[..2] == "//" && s[2..] == body;
    assert NoLineBreakBetween(s, 2, |s|);
    assert LineEnd(s, 2) == |s|;
    LineCommentStart(s);
  }

  /** `body` holds no star directly followed by a slash. */
  predicate NoCommentClose(body: string)
  {
    forall j | 0 <= j < |body| - 1 :: !(body[j] == '*' && body[j + 1] == '/')
  }

  /** Text that opens a closed block comment is skipped past the comment before the token start is sought again. */
  lemma BlockCommentStart(s: string)
    requires StartsClosedComment(s)
    ensures TokenStart(s) == TokenStart(AfterBlockComment(s))
  {
    UntrimmedStart(s);
  }

  /** A closed block comment, even one across lines, yields no token. */
  lemma BlockCommentIsSkipped(body: string, after: string)
    requires NoCommentClose(body)
    ensures TokenStart("/*" + body + "*/" + after) == TokenStart(after)
    ensures Lex("/*" + body + "*/" + after) == Lex(after)
  {
    var s := "/*" + body + "*/" + after;
    assert forall j | 2 <= j < 2 + |body| :: s[j] == body[j - 2];
    assert s[2 + |body|] == '*' && s[2 + |body| + 1] == '/';
    assert CommentClose(s, 2) == Some(2 + |body|);
    assert s[2 + |body| + 2..] == after;
    BlockCommentStart(s);
  }

  /** Text that starts with an unclosed block comment is its own token start. */
  lemma UnclosedCommentStart(s: string)
    requires |s| > 1 && s[0] == '/' && s[1] == '*' && !StartsClosedComment(s)
    ensures TokenStart(s) == s
  {
    UntrimmedStart(s);
  }

  /**
   * Once comments are skipped, a slash at the token start is scanned as the
   * one-character `Slash`, whatever follows it.
   */
  lemma SlashIsSingle(s: string)
    requires |s| > 0 && s[0] == '/'
    ensures ScanToken(s) == Step(Success(Token(Slash, "/")), s[1..])
  {
    assert IsSymbolStart('/');
    assert ScanToken(s) == ScanSymbol(s);
    assert SingleSymbol('/') == Some(Slash);
    assert s[..1] == "/";
  }

  /** A body without a comment close leaves the comment opened before it unclosed. */
  lemma NoCloseAfterOpen(body: string)
    requires NoCommentClose(body)
    ensures CommentClose("/*" + body, 2).None?
  {
    var s := "/*" + body;
    assert forall j | 2 <= j < |s| :: s[j] == body[j - 2];
  }

  /** Text that opens a block comment that is never closed is its own token start. */
  lemma UnclosedIsOwnStart(body: string)
    requires NoCommentClose(body)
    ensures TokenStart("/*" + body) == "/*" + body
  {
    NoCloseAfterOpen(body);
    UnclosedCommentStart("/*" + body);
  }

  /** The slash of a comment opening is scanned alone, leaving the star. */
  lemma OpeningSlash(body: string)
    ensures ScanToken("/*" + body) == Step(Success(Token(Slash, "/")), "*" + body)
  {
    OpeningParts(body);
    SlashIsSingle("/*" + body);
  }

  lemma OpeningParts(body: string)
    ensures |"/*" + body| > 1 && ("/*" + body)[0] == '/' && ("/*" + body)[1..] == "*" + body
  {
    assert ("/*" + body)[1..] == "*" + body;
  }

  /** An unclosed block comment is no error: it is a slash, and scanning goes on at the star. */
  lemma UnclosedBlockCommentIsSlash(body: string)
    requires NoCommentClose(body)
    ensures TokenStart("/*" + body) == "/*" + body
    ensures ScanToken("/*" + body) == Step(Success(Token(Slash, "/")), "*" + body)
  {
    UnclosedIsOwnStart(body);
    OpeningSlash(body);
  }

  /**
   * Operators are scanned longest first: the literal is the symbol text of the
   * token's kind, and no operator or punctuation symbol longer than it is also
   * at the start of the text.
   */
  lemma MaximalMunch(s: string, k: TokenKind)
    requires |s| > 0 && IsSymbolStart(s[0])
    requires IsSymbolKind(k) && |KindText(k)| <= |s| && s[..|KindText(k)|] == KindText(k)
    ensures ScanToken(s).result.Success? && IsSymbolKind(ScanToken(s).result.value.kind)
    ensures ScanToken(s).result.value.literal == KindText(ScanToken(s).result.value.kind)
    ensures |KindText(k)| <= |ScanToken(s).result.value.literal|
  {
    assert ScanToken(s) == ScanSymbol(s);
    SymbolText(s);
    SymbolMunch(s, k);
  }

  /** The literal of an operator or punctuation token is the symbol text of its kind. */
  lemma SymbolText(s: string)
    requires |s| > 0 && IsSymbolStart(s[0])
    ensures var t := ScanSymbol(s).result.value; IsSymbolKind(t.kind) && t.literal == KindText(t.kind)
  {
    var c := s[0];
    if c == '+' || c == '-' {
      DoubledText(s);
    } else if c == '.' {
      DotText(s);
    } else if c == '=' || c == '!' {
      EqualityText(s);
    } else {
      SingleSymbolText(c);
      assert s[..1] == [c];
    }
  }

  lemma DoubledText(s: string)
    requires |s| > 0 && (s[0] == '+' || s[0] == '-')
    ensures var t := ScanSymbol(s).result.value; IsSymbolKind(t.kind) && t.literal == KindText(t.kind)
  {
    assert s[..1] == [s[0]];
    assert |s| > 1 ==> s[..2] == [s[0], s[1]];
  }

  lemma DotText(s: string)
    requires |s| > 0 && s[0] == '.'
    ensures var t := ScanSymbol(s).result.value; IsSymbolKind(t.kind) && t.literal == KindText(t.kind)
  {
    assert s[..1] == ".";
    assert |s| > 2 && s[1] == '.' && s[2] == '.' ==> s[..3] == "...";
  }

  lemma EqualityText(s: string)
    requires |s| > 0 && (s[0] == '=' || s[0] == '!')
    ensures var t := ScanSymbol(s).result.value; IsSymbolKind(t.kind) && t.literal == KindText(t.kind)
  {
    if s[0] == '=' {
      AssignmentText(s);
    } else {
      NegationText(s);
    }
  }

  /** `=`, `==` and `===` are scanned with their own text. */
  lemma AssignmentText(s: string)
    requires |s| > 0 && s[0] == '='
    ensures var t := ScanSymbol(s).result.value; IsSymbolKind(t.kind) && t.literal == KindText(t.kind)
  {
    assert ScanSymbol(s) == ScanEquality(s, Eq, EqEq, EqEqEq);
    if |s| > 2 && s[1] == '=' && s[2] == '=' {
      assert s[..3] == "===";
    } else if |s| > 1 && s[1] == '=' {
      assert s[..2] == "==";
    } else {
      assert s[..1] == "=";
    }
  }

  /** `!`, `!=` and `!==` are scanned with their own text. */
  lemma NegationText(s: string)
    requires |s| > 0 && s[0] == '!'
    ensures var t := ScanSymbol(s).result.value; IsSymbolKind(t.kind) && t.literal == KindText(t.kind)
  {
    assert ScanSymbol(s) == ScanEquality(s, Bang, NotEq, NotEqEq);
    if |s| > 2 && s[1] == '=' && s[2] == '=' {
      assert s[..3] == "!==";
    } else if |s| > 1 && s[1] == '=' {
      assert s[..2] == "!=";
    } else {
      assert s[..1] == "!";
    }
  }

  /** The one-character symbols are spelled by their own character. */
  lemma SingleSymbolText(c: char)
    requires SingleSymbol(c).Some?
    ensures IsSymbolKind(SingleSymbol(c).value) && KindText(SingleSymbol(c).value) == [c]
  {
  }

  /** Longest match for one call of the symbol scanner. */
  lemma SymbolMunch(s: string, k: TokenKind)
    requires |s| > 0 && IsSymbolStart(s[0])
    requires IsSymbolKind(k) && |KindText(k)| <= |s| && s[..|KindText(k)|] == KindText(k)
    ensures |KindText(k)| <= |ScanSymbol(s).result.value.literal|
  {
    SymbolText(s);
    MultiCharacterSymbols(k);
    MultiCharacterSymbols(ScanSymbol(s).result.value.kind);
    if |KindText(k)| > 1 {
      LongSymbolMunch(s, k);
    }
  }

  /** A symbol of two or three characters at the start of the text is scanned, or a longer one is. */
  lemma LongSymbolMunch(s: string, k: TokenKind)
    requires k in {PlusPlus, MinusMinus, DotDotDot, EqEq, EqEqEq, NotEq, NotEqEq}
    requires |KindText(k)| <= |s| && s[..|KindText(k)|] == KindText(k)
    ensures |s| > 0 && IsSymbolStart(s[0])
    ensures |KindText(k)| <= |ScanSymbol(s).result.value.literal|
  {
    var t := KindText(k);
    assert s[0] == t[0] && s[1] == t[1];
    if |t| == 3 {
      assert s[2] == t[2];
    }
  }

  /** The only symbols longer than one character. */
  lemma MultiCharacterSymbols(k: TokenKind)
    requires IsSymbolKind(k)
    ensures 1 <= |KindText(k)| <= 3
    ensures |KindText(k)| > 1 ==> k in {PlusPlus, MinusMinus, DotDotDot, EqEq, EqEqEq, NotEq, NotEqEq}
  {
  }

  /** A number literal matches the number pattern and cannot be extended by the next character. */
  lemma NumberIsLongest(s: string)
    requires |s| > 0 && ScanToken(s).result.Success? && ScanToken(s).result.value.kind.Number?
    ensures var st := ScanToken(s); var t := st.result.value;
      IsNumber(t.literal) && (st.rest == [] || !IsNumber(t.literal + [st.rest[0]]))
  {
    assert !IsSymbolStart(s[0]) && IsDigit(s[0]);
  }

  /**
   * A word matches the identifier pattern, cannot be extended by the next
   * character and is classified by the keyword table.
   */
  lemma WordIsLongest(s: string)
    requires |s| > 0 && IsIdentStart(s[0])
    ensures var st := ScanToken(s); var t := st.result.value;
      && st.result.Success?
      && IsValidIdentifier(t.literal)
      && t.kind == WordKind(t.literal)
      && (st.rest == [] || !IsIdentPart(st.rest[0]))
  {
    assert !IsSymbolStart(s[0]) && !IsDigit(s[0]) && s[0] != '"' && s[0] != '\'' && IsIdentStart(s[0]);
  }

  /** The first character fits no rule exactly when the scan fails with it. */
  lemma UnknownCharacterFails(s: string)
    requires |s| > 0
    ensures ScanToken(s).result == Failure(UnknownToken(s[0])) <==>
      !IsSymbolStart(s[0]) && !IsDigit(s[0]) && s[0] != '"' && s[0] != '\'' && !IsIdentStart(s[0])
  {
  }

  /** A string fails exactly when its opening quote has no later match. */
  lemma UnterminatedStringFails(s: string)
    requires |s| > 0 && (s[0] == '"' || s[0] == '\'')
    ensures ScanToken(s).result == Failure(NonTerminatedString(s[0])) <==> s[0] !in s[1..]
  {
    if s[0] in s[1..] {
      var i :| 1 <= i < |s| && s[i] == s[0];
      assert QuoteIndex(s, s[0], 1).Some?;
    } else {
      assert forall i | 1 <= i < |s| :: s[i] == s[1..][i - 1];
    }
  }

  /** The caret has a precedence and an infix handler, but no rule scans it. */
  lemma CaretIsUnknown(after: string)
    ensures ScanToken("^" + after) == Step(Failure(UnknownToken('^')), "^" + after)
  {
    assert SingleSymbol('^').None?;
  }
  /** `do` has a kind of its own but no keyword-table entry, so it is scanned as a name. */
  lemma DoIsAName(after: string)
    requires after == [] || !IsIdentPart(after[0])
    ensures ScanToken("do" + after) == Step(Success(Token(Ident, "do")), after)
  {
    var s := "do" + after;
    assert s[0] == 'd' && s[1] == 'o' && s[2..] == after;
    assert WordEnd(s, 2) == 2;
    assert WordEnd(s, 1) == 2;
    assert s[..2] == "do";
    assert KeywordKind("do").None?;
  }

  /** Text that starts with neither a blank nor a slash is itself where the token starts. */
  lemma PlainStart(s: string)
    requires |s| > 0 && !IsWhitespace(s[0]) && s[0] != '/'
    ensures TokenStart(s) == s
  {
    assert TrimStart(s) == s;
  }

  /** `>` is a token of one character, whatever follows it. */
  lemma GreaterIsSingle(s: string)
    requires |s| > 0 && s[0] == '>'
    ensures Lex(s) == Step(Success(Token(Gt, ">")), s[1..])
  {
    PlainStart(s);
    assert s[..1] == ">";
    assert Lex(s) == ScanToken(s) == ScanSymbol(s) == Emit(Gt, s, 1);
  }

  /** `=` not followed by another `=` is the assignment token. */
  lemma LoneAssignment(s: string)
    requires |s| > 0 && s[0] == '=' && (|s| == 1 || s[1] != '=')
    ensures Lex(s) == Step(Success(Token(Eq, "=")), s[1..])
  {
    PlainStart(s);
    assert s[..1] == "=";
    assert Lex(s) == ScanToken(s) == ScanSymbol(s) == ScanEquality(s, Eq, EqEq, EqEqEq) == Emit(Eq, s, 1);
  }

  /** `>=` is not one token but `>` and then `=`. */
  lemma GreaterEqualIsTwoTokens(after: string)
    requires after == [] || after[0] != '='
    ensures Lex(">=" + after) == Step(Success(Token(Gt, ">")), "=" + after)
    ensures Lex("=" + after) == Step(Success(Token(Eq, "=")), after)
  {
    var s := ">=" + after;
    assert s[1..] == "=" + after;
    GreaterIsSingle(s);
    LoneAssignment("=" + after);
    assert ("=" + after)[1..] == after;
  }
}
