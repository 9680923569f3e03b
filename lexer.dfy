/**
 * The scanner object: it holds the unconsumed source text and cuts tokens off
 * its front, one per call of `Next`. Each method is proved to do what the
 * matching function of `LexSpec` describes.
 */
module Scanner {
  import opened Results
  import opened Tokens
  import opened LexSpec

  /**
   * A scan that stops before the first prefix not matching the number pattern,
   * or at the end, ends where the number literal does.
   */
  lemma NumberLengthIs(s: string, n: nat)
    requires 0 < n <= |s| && IsNumber(s[..n])
    requires n == |s| || !IsNumber(s[..n + 1])
    ensures NumberLength(s) == n
  {
    NumberLengthIsLongest(s);
  }

  /** The same for the identifier pattern. */
  lemma IdentifierLengthIs(s: string, n: nat)
    requires 0 < n <= |s| && IsValidIdentifier(s[..n])
    requires n == |s| || !IsValidIdentifier(s[..n + 1])
    ensures IdentifierLength(s) == n
  {
    IdentifierLengthIsLongest(s);
  }

  class Lexer {
    /** The text not consumed yet. */
    var src: string

    constructor(src: string)
      ensures this.src == src
    {
      this.src := src;
    }

    /** Removes the first `len` characters (all of them when there are fewer) and returns them. */
    method Slice(len: nat) returns (s: string)
      modifies this
      ensures len <= |old(src)| ==> s == old(src)[..len] && src == old(src)[len..]
      ensures len > |old(src)| ==> s == old(src) && src == []
    {
      var k := if len <= |src| then len else |src|;
      s := src[..k];
      src := src[k..];
    }

    /**
     * Returns the next token, or the error the scanner throws. Blanks and
     * comments before the token are consumed; the new text is what the
     * specification says is left.
     */
    method Next() returns (r: Result<Token, LexError>)
      modifies this
      ensures Step(r, src) == Lex(old(src))
      decreases |src|
    {
      src := TrimStart(src);
      if |src| == 0 {
        return Success(EofToken);
      }
      if |src| > 1 && src[0] == '/' && src[1] == '/' {
        SkipLineComment();
        r := Next();
        return;
      }
      if |src| > 1 && src[0] == '/' && src[1] == '*' {
        var closed := SkipBlockComment();
        if closed {
          r := Next();
          return;
        }
      }
      r := Scan();
    }

    /** Consumes a line comment: everything up to and including the line break, or to the end. */
    method SkipLineComment()
      requires |src| > 1 && src[0] == '/' && src[1] == '/'
      modifies this
      ensures src == AfterLineComment(old(src))
    {
      var i := 2;
      while i < |src| && src[i] != '\n'
        invariant 2 <= i <= |src|
        invariant NoLineBreakBetween(src, 2, i)
      {
        i := i + 1;
      }
      assert i == LineEnd(src, 2);
      var _ := Slice(i + 1);
    }

    /**
     * Consumes a block comment when a closing star and slash follow; leaves
     * the text alone, and says so, when none does.
     */
    method SkipBlockComment() returns (closed: bool)
      requires |src| > 1 && src[0] == '/' && src[1] == '*'
      modifies this
      ensures closed == StartsClosedComment(old(src))
      ensures closed ==> src == AfterBlockComment(old(src))
      ensures !closed ==> src == old(src)
    {
      var i := 2;
      while i + 1 < |src| && !(src[i] == '*' && src[i + 1] == '/')
        invariant 2 <= i <= |src|
        invariant NoCloseBetween(src, 2, i)
      {
        i := i + 1;
      }
      if i + 1 < |src| {
        assert CommentClose(src, 2) == Some(i);
        var _ := Slice(i + 2);
        return true;
      }
      assert CommentClose(src, 2).None?;
      return false;
    }

    /** Scans one token that does not begin a comment, dispatching on its first character. */
    method Scan() returns (r: Result<Token, LexError>)
      requires |src| > 0
      modifies this
      ensures Step(r, src) == ScanToken(old(src))
    {
      var c := src[0];
      if IsSymbolStart(c) {
        r := Symbol();
      } else if IsDigit(c) {
        var t := Number();
        r := Success(t);
      } else if c == '"' || c == '\'' {
        ghost var s := src;
        var _ := Slice(1);
        assert s == [c] + src;
        r := String(c);
      } else if IsIdentStart(c) {
        var t := Identifier();
        r := Success(t);
      } else {
        r := Failure(UnknownToken(c));
      }
    }

    /** An operator or punctuation token: the longest symbol at the front is cut off. */
    method Symbol() returns (r: Result<Token, LexError>)
      requires |src| > 0 && IsSymbolStart(src[0])
      modifies this
      ensures Step(r, src) == ScanSymbol(old(src))
    {
      var c := src[0];
      var kind: TokenKind, n: nat;
      if c == '+' || c == '-' {
        if |src| > 1 && src[1] == c {
          kind, n := if c == '+' then PlusPlus else MinusMinus, 2;
        } else {
          kind, n := if c == '+' then Plus else Minus, 1;
        }
      } else if c == '.' {
        if |src| > 2 && src[1] == '.' && src[2] == '.' {
          kind, n := DotDotDot, 3;
        } else {
          kind, n := Dot, 1;
        }
      } else if c == '=' || c == '!' {
        if |src| > 1 && src[1] == '=' {
          if |src| > 2 && src[2] == '=' {
            kind, n := if c == '=' then EqEqEq else NotEqEq, 3;
          } else {
            kind, n := if c == '=' then EqEq else NotEq, 2;
          }
        } else {
          kind, n := if c == '=' then Eq else Bang, 1;
        }
      } else {
        kind, n := SingleSymbol(c).value, 1;
      }
      var literal := Slice(n);
      r := Success(Token(kind, literal));
    }

    /**
     * A number: grows the candidate one character at a time and stops before
     * the first prefix that no longer matches, or at a blank or the end.
     */
    method Number() returns (t: Token)
      requires |src| > 0 && IsDigit(src[0])
      modifies this
      ensures Step(Success(t), src) == ScanNumber(old(src))
    {
      assert IsNumber(src[..1]);
      var i := 1;
      while true
        invariant 1 <= i <= |src| && src == old(src)
        invariant IsNumber(src[..1])
        invariant i > 1 ==> IsNumber(src[..i - 1])
        decreases |src| - i
      {
        if !IsNumber(src[..i]) {
          NumberLengthIs(src, i - 1);
          var literal := Slice(i - 1);
          return Token(TokenKind.Number, literal);
        }
        if i == |src| || IsWhitespace(src[i]) {
          assert i < |src| ==> src[..i + 1][i] == src[i];
          NumberLengthIs(src, i);
          var literal := Slice(i);
          return Token(TokenKind.Number, literal);
        }
        i := i + 1;
      }
    }

    /**
     * An identifier or keyword: the longest prefix matching the identifier
     * pattern, classified by the keyword table.
     */
    method Identifier() returns (t: Token)
      requires |src| > 0 && IsIdentStart(src[0])
      modifies this
      ensures Step(Success(t), src) == ScanWord(old(src))
    {
      assert IsValidIdentifier(src[..1]);
      var ident := "";
      var i := 1;
      while i <= |src|
        invariant 1 <= i <= |src| + 1 && src == old(src) && ident == ""
        invariant IsValidIdentifier(src[..1])
        invariant i > 1 ==> IsValidIdentifier(src[..i - 1])
      {
        if !IsValidIdentifier(src[..i]) {
          IdentifierLengthIs(src, i - 1);
          ident := Slice(i - 1);
          break;
        }
        i := i + 1;
      }
      if ident == "" {
        assert src == old(src) && src[..|src|] == src;
        IdentifierLengthIs(src, |src|);
        ident := Slice(|src|);
      }
      t := Token(WordKind(ident), ident);
    }

    /**
     * The rest of a quoted string, the opening `quote` already consumed: the
     * text up to the next `quote`, which is consumed too.
     */
    method String(quote: char) returns (r: Result<Token, LexError>)
      modifies this
      ensures Step(r, src) == ScanString([quote] + old(src))
    {
      ghost var s := [quote] + src;
      var i := 0;
      while i < |src|
        invariant 0 <= i <= |src| && src == old(src)
        invariant forall j | 0 <= j < i :: src[j] != quote
      {
        if src[i] == quote {
          assert forall j | 1 <= j < i + 1 :: s[j] == src[j - 1];
          assert QuoteIndex(s, quote, 1) == Some(i + 1);
          assert s[1..i + 1] == src[..i];
          var str := Slice(i);
          var _ := Slice(1);
          return Success(Token(TokenKind.String, str));
        }
        i := i + 1;
      }
      assert forall j | 1 <= j < |s| :: s[j] == src[j - 1];
      assert QuoteIndex(s, quote, 1).None?;
      assert s[1..] == src;
      r := Failure(NonTerminatedString(quote));
    }
  }
}
