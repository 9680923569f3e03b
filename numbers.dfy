/**
 * The value of a numeric literal. The parser turns a literal into a number by
 * dropping its underscores and reading the rest as a decimal; the printer renders
 * that number back as text. The value is kept exact: a whole part and the digits
 * after the point, without trailing zeros, so that `2`, `2.0` and `2.` are one value.
 */
module Numbers {

  type Digit = d: nat | d < 10

  /** An exact non-negative decimal: `whole` and the digits after the point. */
  datatype Decimal = Decimal(whole: nat, fraction: seq<Digit>)

  /** The canonical form: no trailing zero after the point. */
  predicate Normalized(d: Decimal)
  {
    d.fraction == [] || d.fraction[|d.fraction| - 1] != 0
  }

  predicate IsDigit(c: char)
  {
    '0' <= c <= '9'
  }

  predicate AllDigits(s: string)
  {
    forall i | 0 <= i < |s| :: IsDigit(s[i])
  }

  function DigitValue(c: char): Digit
    requires IsDigit(c)
  {
    c as int - '0' as int
  }

  function DigitChar(d: Digit): (c: char)
    ensures IsDigit(c) && DigitValue(c) == d
  {
    ('0' as int + d) as char
  }

  /** The literal with every underscore removed, other characters kept in order. */
  function StripUnderscores(s: string): (r: string)
    ensures |r| <= |s|
    ensures forall i | 0 <= i < |r| :: r[i] != '_'
    ensures (forall i | 0 <= i < |s| :: s[i] != '_') ==> r == s
  {
    if s == [] then []
    else if s[0] == '_' then StripUnderscores(s[1..])
    else [s[0]] + StripUnderscores(s[1..])
  }

  /** Removing underscores from a joined text removes them from each part. */
  lemma {:induction false} StripUnderscoresConcat(a: string, b: string)
    ensures StripUnderscores(a + b) == StripUnderscores(a) + StripUnderscores(b)
    decreases |a|
  {
    if a != [] {
      assert (a + b)[0] == a[0] && (a + b)[1..] == a[1..] + b;
      StripUnderscoresConcat(a[1..], b);
      if a[0] != '_' {
        assert [a[0]] + (StripUnderscores(a[1..]) + StripUnderscores(b)) ==
          ([a[0]] + StripUnderscores(a[1..])) + StripUnderscores(b);
      }
    } else {
      assert a + b == b;
    }
  }

  /** One character: an underscore is dropped, any other character kept. */
  lemma StripUnderscoresChar(c: char)
    ensures StripUnderscores([c]) == if c == '_' then [] else [c]
  {
    assert [c][1..] == [];
  }

  /** The digits with trailing zeros dropped. */
  function TrimZeros(ds: seq<Digit>): (r: seq<Digit>)
    ensures |r| <= |ds| && r == ds[..|r|]
    ensures r == [] || r[|r| - 1] != 0
    ensures forall i | |r| <= i < |ds| :: ds[i] == 0
  {
    if ds == [] || ds[|ds| - 1] != 0 then ds
    else
      var r := TrimZeros(ds[..|ds| - 1]);
      assert ds[..|ds| - 1][..|r|] == ds[..|r|];
      r
  }

  /**
   * Reads a literal left to right: underscores are skipped, digits before the
   * point accumulate into `whole`, one point switches to the fraction, and the
   * first other character (or a second point) ends the number.
   */
  function ReadDigits(s: string, whole: nat, fraction: seq<Digit>, afterPoint: bool): Decimal
    decreases |s|
  {
    if s == [] then Decimal(whole, fraction)
    else if s[0] == '_' then ReadDigits(s[1..], whole, fraction, afterPoint)
    else if IsDigit(s[0]) && afterPoint then ReadDigits(s[1..], whole, fraction + [DigitValue(s[0])], true)
    else if IsDigit(s[0]) then ReadDigits(s[1..], whole * 10 + DigitValue(s[0]), fraction, false)
    else if s[0] == '.' && !afterPoint then ReadDigits(s[1..], whole, fraction, true)
    else Decimal(whole, fraction)
  }

  /**
   * The value `parseFloat` gives a literal once its underscores are dropped: the
   * leading digits are the whole part and the digits after one point the fraction.
   */
  function NumberValue(literal: string): Decimal
  {
    var r := ReadDigits(literal, 0, [], false);
    Decimal(r.whole, TrimZeros(r.fraction))
  }

  /** Every literal reads as a canonical number. */
  lemma NumberValueIsNormalized(literal: string)
    ensures Normalized(NumberValue(literal))
  {
  }

  /** The decimal text of a natural number, without leading zeros. */
  function NatText(n: nat): (s: string)
    ensures |s| >= 1 && AllDigits(s)
    ensures |s| > 1 ==> s[0] != '0'
  {
    if n < 10 then [DigitChar(n)] else NatText(n / 10) + [DigitChar(n % 10)]
  }

  function DigitsText(ds: seq<Digit>): (s: string)
    ensures |s| == |ds| && AllDigits(s)
    ensures forall i | 0 <= i < |ds| :: DigitValue(s[i]) == ds[i]
  {
    if ds == [] then [] else [DigitChar(ds[0])] + DigitsText(ds[1..])
  }

  /** How a number prints: the whole part, then a point and the fraction if there is one. */
  function DecimalText(d: Decimal): string
  {
    NatText(d.whole) + (if d.fraction == [] then "" else "." + DigitsText(d.fraction))
  }

  // ---------------------------------------------------------------------------
  // Reading back what is printed
  // ---------------------------------------------------------------------------

  /** Dropping the underscores first, as the parser does, reads the same number. */
  lemma {:induction false} ReadSkipsUnderscores(s: string, whole: nat, fraction: seq<Digit>, afterPoint: bool)
    ensures ReadDigits(s, whole, fraction, afterPoint) == ReadDigits(StripUnderscores(s), whole, fraction, afterPoint)
    decreases |s|
  {
    if s != [] {
      var c, rest := s[0], s[1..];
      if c == '_' {
        ReadSkipsUnderscores(rest, whole, fraction, afterPoint);
      } else {
        var t := StripUnderscores(s);
        assert s == [c] + rest;
        assert t == [c] + StripUnderscores(rest);
        ReadFirst(c, rest, whole, fraction, afterPoint);
        ReadFirst(c, StripUnderscores(rest), whole, fraction, afterPoint);
        if IsDigit(c) && afterPoint {
          ReadSkipsUnderscores(rest, whole, fraction + [DigitValue(c)], true);
        } else if IsDigit(c) {
          ReadSkipsUnderscores(rest, whole * 10 + DigitValue(c), fraction, false);
        } else if c == '.' && !afterPoint {
          ReadSkipsUnderscores(rest, whole, fraction, true);
        }
      }
    }
  }

  /** What reading does with a first character that is not an underscore. */
  lemma ReadFirst(c: char, rest: string, whole: nat, fraction: seq<Digit>, afterPoint: bool)
    requires c != '_'
    ensures ReadDigits([c] + rest, whole, fraction, afterPoint) ==
      if IsDigit(c) && afterPoint then ReadDigits(rest, whole, fraction + [DigitValue(c)], true)
      else if IsDigit(c) then ReadDigits(rest, whole * 10 + DigitValue(c), fraction, false)
      else if c == '.' && !afterPoint then ReadDigits(rest, whole, fraction, true)
      else Decimal(whole, fraction)
  {
    assert ([c] + rest)[0] == c && ([c] + rest)[1..] == rest;
  }

  /** The value of a literal is the value of the literal without its underscores. */
  lemma UnderscoresAreIgnored(literal: string)
    ensures NumberValue(literal) == NumberValue(StripUnderscores(literal))
  {
    ReadSkipsUnderscores(literal, 0, [], false);
  }

  /** Reading the printed form of `n` before the point accumulates `n`, whatever follows. */
  lemma {:induction false} ReadNatText(n: nat, rest: string)
    ensures ReadDigits(NatText(n) + rest, 0, [], false) == ReadDigits(rest, n, [], false)
    decreases n
  {
    var c := DigitChar(n % 10);
    if n < 10 {
      ReadWholeDigit(c, rest, 0);
    } else {
      ReadNatText(n / 10, [c] + rest);
      NatTextSplit(n, rest);
      ReadWholeDigit(c, rest, n / 10);
    }
  }

  /** The text of a number of two or more digits is the text of all but its last digit, then that digit. */
  lemma NatTextSplit(n: nat, rest: string)
    requires n >= 10
    ensures NatText(n) + rest == NatText(n / 10) + ([DigitChar(n % 10)] + rest)
    ensures n / 10 * 10 + DigitValue(DigitChar(n % 10)) == n
  {
    assert NatText(n) == NatText(n / 10) + [DigitChar(n % 10)];
  }

  /** One digit before the point. */
  lemma ReadWholeDigit(c: char, rest: string, whole: nat)
    requires IsDigit(c)
    ensures ReadDigits([c] + rest, whole, [], false) == ReadDigits(rest, whole * 10 + DigitValue(c), [], false)
  {
    assert ([c] + rest)[1..] == rest;
  }

  /** Printed fraction digits are read back as fraction digits. */
  lemma {:induction false} ReadDigitsText(ds: seq<Digit>, whole: nat, fraction: seq<Digit>)
    ensures ReadDigits(DigitsText(ds), whole, fraction, true) == Decimal(whole, fraction + ds)
    decreases |ds|
  {
    if ds != [] {
      ReadDigitsText(ds[1..], whole, fraction + [ds[0]]);
      assert fraction + [ds[0]] + ds[1..] == fraction + ds;
    }
  }

  /** Reading the printed text of a canonical number gives the number back. */
  lemma NumberRoundTrip(d: Decimal)
    requires Normalized(d)
    ensures NumberValue(DecimalText(d)) == d
  {
    var tail := if d.fraction == [] then "" else "." + DigitsText(d.fraction);
    assert DecimalText(d) == NatText(d.whole) + tail;
    ReadNatText(d.whole, tail);
    ReadTail(d.whole, d.fraction);
  }

  /** After the whole part, the printed fraction, if any, is read back as the fraction. */
  lemma ReadTail(whole: nat, fraction: seq<Digit>)
    ensures ReadDigits(if fraction == [] then "" else "." + DigitsText(fraction), whole, [], false) == Decimal(whole, fraction)
  {
    if fraction != [] {
      var tail := "." + DigitsText(fraction);
      assert tail[0] == '.' && tail[1..] == DigitsText(fraction);
      ReadDigitsText(fraction, whole, []);
      assert [] + fraction == fraction;
    }
  }
}
