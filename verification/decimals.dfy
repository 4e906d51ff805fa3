/** Monetary amounts as integer cents: the decimal literals the handlers read,
    the text Python's `str(Decimal)` writes for a stored amount, and the
    precision of the `DecimalField(max_digits=10, decimal_places=2)` columns. */
module Decimals {
  import opened Wrappers
  import opened Text

  /** An amount of money in hundredths of the currency unit. */
  type Cents = int

  /** Largest magnitude, in cents, a column with ten digits of which two are
      fractional can hold: 99 999 999.99. */
  const MaxStoredCents: int := 9_999_999_999

  /** The amount fits a `max_digits=10, decimal_places=2` column. */
  predicate Fits(c: Cents) {
    -MaxStoredCents <= c <= MaxStoredCents
  }

  predicate IsDigit(c: char) {
    '0' <= c <= '9'
  }

  predicate AllDigits(s: string) {
    forall i :: 0 <= i < |s| ==> IsDigit(s[i])
  }

  function DigitValue(c: char): (n: nat)
    requires IsDigit(c)
    ensures n < 10
  {
    c as int - '0' as int
  }

  function DigitChar(n: nat): (c: char)
    requires n < 10
    ensures IsDigit(c) && DigitValue(c) == n
  {
    ('0' as int + n) as char
  }

  /** The value of a string of decimal digits, most significant first. */
  function DigitsValue(s: string): nat
    requires AllDigits(s)
    decreases |s|
  {
    if |s| == 0 then 0 else DigitsValue(s[..|s| - 1]) * 10 + DigitValue(s[|s| - 1])
  }

  /** The decimal numeral of `n`, without leading zeros. */
  function NatToString(n: nat): (s: string)
    ensures |s| > 0 && AllDigits(s)
    decreases n
  {
    if n < 10 then [DigitChar(n)] else NatToString(n / 10) + [DigitChar(n % 10)]
  }

  /** Reading back the numeral of `n` gives `n`. */
  lemma {:induction false} NatToStringRoundTrip(n: nat)
    ensures DigitsValue(NatToString(n)) == n
    decreases n
  {
    if n >= 10 {
      NatToStringRoundTrip(n / 10);
      var s := NatToString(n);
      assert s[..|s| - 1] == NatToString(n / 10);
    }
  }

  /** Cents denoted by the digits after the decimal point (at most two). */
  function FractionCents(f: string): (c: nat)
    requires AllDigits(f) && |f| <= 2
    ensures c < 100
  {
    if |f| == 0 then 0
    else if |f| == 1 then 10 * DigitValue(f[0])
    else 10 * DigitValue(f[0]) + DigitValue(f[1])
  }

  /** Python's `Decimal(s)` on a plain decimal literal: surrounding whitespace,
      an optional sign, then an unsigned literal. `None` stands for the
      `InvalidOperation` the constructor raises. */
  function ParseCents(s: string): (r: Option<Cents>)
  {
    var t := Strip(s);
    if |t| > 0 && (t[0] == '-' || t[0] == '+') then
      match ParseUnsigned(t[1..])
      case None => None
      case Some(m) => Some(if t[0] == '-' then -(m as int) else m as int)
    else
      match ParseUnsigned(t)
      case None => None
      case Some(m) => Some(m)
  }

  /** An unsigned literal: the pieces around its points must be a whole part
      and a fraction, both digits, at least one digit in all and at most two
      after the point; the value in cents. */
  function ParseUnsigned(body: string): (r: Option<nat>)
  {
    ParsePieces(Split(body, '.'))
  }

  function ParsePieces(parts: seq<string>): (r: Option<nat>)
    requires |parts| >= 1
  {
    var whole := parts[0];
    var frac := if |parts| == 2 then parts[1] else "";
    if |parts| > 2 || !AllDigits(whole) || !AllDigits(frac) || |whole| + |frac| == 0 || |frac| > 2 then None
    else Some(DigitsValue(whole) * 100 + FractionCents(frac))
  }

  /** Python's `str(Decimal)` of a stored two-place amount: an optional minus,
      the whole units, a point and exactly two digits (`-5.00`, `1500.25`). */
  function FormatCents(c: Cents): (s: string)
    ensures |s| >= 4 && IsDigit(s[|s| - 1])
    ensures s[0] == '-' <==> c < 0
    ensures ':' !in s && '\n' !in s && '$' !in s
  {
    var m := if c < 0 then -c else c;
    (if c < 0 then "-" else "") + NatToString(m / 100) + "." + [DigitChar(m % 100 / 10), DigitChar(m % 10)]
  }

  /** Digits contain no point, so a literal splits at its one point. */
  lemma SplitLiteral(whole: string, frac: string)
    requires AllDigits(whole) && AllDigits(frac)
    ensures Split(whole + "." + frac, '.') == [whole, frac]
  {
    assert '.' !in whole by {
      forall i | 0 <= i < |whole| ensures whole[i] != '.' {
        assert IsDigit(whole[i]);
      }
    }
    assert '.' !in frac by {
      forall i | 0 <= i < |frac| ensures frac[i] != '.' {
        assert IsDigit(frac[i]);
      }
    }
    SplitJoin([whole, frac], '.');
    assert Join([whole, frac], '.') == whole + "." + frac;
  }

  lemma UnsignedFromPieces(body: string, whole: string, frac: string)
    requires Split(body, '.') == [whole, frac]
    ensures ParseUnsigned(body) == ParsePieces([whole, frac])
  {
  }

  lemma PiecesValue(whole: string, frac: string)
    requires |whole| > 0 && AllDigits(whole) && |frac| == 2 && AllDigits(frac)
    ensures ParsePieces([whole, frac]) == Some(DigitsValue(whole) * 100 + FractionCents(frac))
  {
  }

  /** A whole part, a point and two fraction digits read as the value they spell. */
  lemma ParseUnsignedLiteral(whole: string, frac: string)
    requires |whole| > 0 && AllDigits(whole) && |frac| == 2 && AllDigits(frac)
    ensures ParseUnsigned(whole + "." + frac) == Some(DigitsValue(whole) * 100 + FractionCents(frac))
  {
    SplitLiteral(whole, frac);
    UnsignedFromPieces(whole + "." + frac, whole, frac);
    PiecesValue(whole, frac);
  }

  lemma StripNoSpaceEnds(s: string)
    requires |s| > 0 && !IsSpace(s[0]) && !IsSpace(s[|s| - 1])
    ensures Strip(s) == s
  {
    TrimNoop(s, IsSpace);
  }

  lemma ParseNegative(s: string, m: nat)
    requires |s| > 0 && s[0] == '-' && Strip(s) == s && ParseUnsigned(s[1..]) == Some(m)
    ensures ParseCents(s) == Some(-(m as int))
  {
  }

  lemma ParseNonNegative(s: string, m: nat)
    requires |s| > 0 && IsDigit(s[0]) && Strip(s) == s && ParseUnsigned(s) == Some(m)
    ensures ParseCents(s) == Some(m as int)
  {
  }

  /** An optional minus in front of an unsigned literal negates its value. */
  lemma ParseSignedLiteral(neg: bool, body: string, m: nat)
    requires |body| > 0 && IsDigit(body[0]) && IsDigit(body[|body| - 1])
    requires ParseUnsigned(body) == Some(m)
    ensures ParseCents((if neg then "-" else "") + body) == Some(if neg then -(m as int) else m as int)
  {
    var s := (if neg then "-" else "") + body;
    assert s[|s| - 1] == body[|body| - 1];
    if neg {
      assert s[0] == '-';
      StripNoSpaceEnds(s);
      assert s[1..] == body;
      ParseNegative(s, m);
    } else {
      assert s == body;
      StripNoSpaceEnds(s);
      ParseNonNegative(s, m);
    }
  }

  lemma TwoDigits(m: nat)
    ensures FractionCents([DigitChar(m % 100 / 10), DigitChar(m % 10)]) == m % 100
  {
    var a := m % 100;
    var q := m / 100;
    assert m == 100 * q + a;
    assert a == 10 * (a / 10) + a % 10;
    assert m == 10 * (10 * q + a / 10) + a % 10;
    assert m % 10 == a % 10;
  }

  /** Parsing the text of a stored amount gives back the amount. */
  lemma FormatParseRoundTrip(c: Cents)
    ensures ParseCents(FormatCents(c)) == Some(c)
  {
    var m: nat := if c < 0 then -c else c;
    var whole := NatToString(m / 100);
    var frac := [DigitChar(m % 100 / 10), DigitChar(m % 10)];
    var body := whole + "." + frac;
    assert FormatCents(c) == (if c < 0 then "-" else "") + body;
    ParseUnsignedLiteral(whole, frac);
    NatToStringRoundTrip(m / 100);
    TwoDigits(m);
    assert DigitsValue(whole) * 100 + FractionCents(frac) == m;
    assert body[0] == whole[0];
    ParseSignedLiteral(c < 0, body, m);
  }
}
