/**
 * Finite values of Python's `decimal.Decimal`: construction from a string,
 * `str()` of a value, its exact rational value, and `int()` of a quotient.
 */
module Decimals {
  import opened Wrappers
  import opened Text

  /** The decimal `coef * 10^exp`. The sign of a zero coefficient is not kept. */
  datatype Decimal = Decimal(coef: int, exp: int)

  function Abs(i: int): nat {
    if i < 0 then -i else i
  }

  // ---------------------------------------------------------------------------
  // Decimal(s)
  // ---------------------------------------------------------------------------

  /** The first position in `s` of a character in `marks`, or `|s|`. */
  function IndexOfAny(s: string, marks: set<char>): (k: nat)
    ensures k <= |s|
    decreases |s|
  {
    if s == [] then 0 else if s[0] in marks then 0 else 1 + IndexOfAny(s[1..], marks)
  }

  const ExpMarks: set<char> := {'e', 'E'}
  const Dot: set<char> := {'.'}

  /** The digits after the decimal point of a mantissa, given the position of its point. */
  function FractionDigits(mant: string, p: nat): string
    requires p <= |mant|
  {
    if p < |mant| then mant[p + 1..] else ""
  }

  /**
   * `Decimal(s)` for a finite numeral: an optional sign, digits with at most one
   * decimal point (at least one digit in all), and an optional exponent
   * `e`/`E` with an optional sign. `None` where Python raises InvalidOperation.
   */
  function ParseDecimal(s: string): Option<Decimal> {
    if |s| > 0 && s[0] == '-' then Negated(ParseUnsigned(s[1..]))
    else if |s| > 0 && s[0] == '+' then ParseUnsigned(s[1..])
    else ParseUnsigned(s)
  }

  function Negated(r: Option<Decimal>): Option<Decimal> {
    if r.Some? then Some(Decimal(-r.value.coef, r.value.exp)) else None
  }

  /** An unsigned numeral: a mantissa, then an optional exponent after `e` or `E`. */
  function ParseUnsigned(body: string): Option<Decimal> {
    var m := IndexOfAny(body, ExpMarks);
    var e := if m < |body| then ParseInteger(body[m + 1..]) else Some(0);
    ParseMantissa(body[..m], e)
  }

  /** Digits with at most one decimal point, scaled by the exponent `e` read after them. */
  function ParseMantissa(mant: string, e: Option<int>): Option<Decimal> {
    var p := IndexOfAny(mant, Dot);
    Assemble(mant[..p], FractionDigits(mant, p), e)
  }

  /** The decimal written with `intDigits` before the point and `fracDigits` after it. */
  function Assemble(intDigits: string, fracDigits: string, e: Option<int>): Option<Decimal> {
    if AllDigits(intDigits) && AllDigits(fracDigits) && |intDigits| + |fracDigits| > 0 && e.Some? then
      AllDigitsAppend(intDigits, fracDigits);
      Some(Decimal(DigitsValue(intDigits + fracDigits), e.value - |fracDigits|))
    else None
  }

  // ---------------------------------------------------------------------------
  // str(d)
  // ---------------------------------------------------------------------------

  /** Where `str()` puts the decimal point, counted in coefficient digits from the left. */
  function DotPlace(d: Decimal): int {
    var leftdigits := d.exp + |NatToString(Abs(d.coef))|;
    if d.exp <= 0 && leftdigits > -6 then leftdigits else 1
  }

  function IntegerPart(digits: string, dotplace: int): string {
    if dotplace <= 0 then "0"
    else if dotplace >= |digits| then digits + Zeros(dotplace - |digits|)
    else digits[..dotplace]
  }

  function FractionPart(digits: string, dotplace: int): string {
    if dotplace <= 0 then "." + (Zeros(-dotplace) + digits)
    else if dotplace >= |digits| then ""
    else "." + digits[dotplace..]
  }

  function ExponentPart(e: int): string {
    if e == 0 then "" else "E" + (if e > 0 then "+" else "-") + NatToString(Abs(e))
  }

  /**
   * `str(d)`: plain notation when the exponent is at most 0 and the value has
   * more than -6 digits before the point, scientific notation with one digit
   * before the point otherwise (with a capital `E` and a signed exponent).
   */
  function DecimalToString(d: Decimal): string {
    (if d.coef < 0 then "-" else "") + MagnitudeToString(d)
  }

  /** `str()` of the absolute value. */
  function MagnitudeToString(d: Decimal): string {
    var digits := NatToString(Abs(d.coef));
    var dotplace := DotPlace(d);
    IntegerPart(digits, dotplace) + FractionPart(digits, dotplace) + ExponentPart(d.exp + |digits| - dotplace)
  }

  /** With no marker in `s`, the search runs to its end. */
  lemma {:induction false} IndexOfAnyAbsent(s: string, marks: set<char>)
    requires forall i :: 0 <= i < |s| ==> s[i] !in marks
    ensures IndexOfAny(s, marks) == |s|
    decreases |s|
  {
    if s != [] {
      assert forall i :: 0 <= i < |s| - 1 ==> s[1..][i] == s[i + 1];
      IndexOfAnyAbsent(s[1..], marks);
    }
  }

  /** A plain run of digits is read as that whole number, with exponent 0. */
  lemma ParseDigits(s: string)
    requires s != [] && AllDigits(s)
    ensures ParseUnsigned(s) == Some(Decimal(DigitsValue(s), 0))
  {
    assert forall i :: 0 <= i < |s| ==> s[i] !in ExpMarks && s[i] !in Dot;
    IndexOfAnyAbsent(s, ExpMarks);
    IndexOfAnyAbsent(s, Dot);
    assert s[..|s|] == s;
    assert ParseUnsigned(s) == ParseMantissa(s, Some(0));
    assert FractionDigits(s, |s|) == "";
    assert s + "" == s;
  }

  /** An integral value is printed as the integer: `str(Decimal(n)) == str(n)`. */
  lemma IntegralToString(d: Decimal)
    requires d.exp == 0
    ensures DecimalToString(d) == IntToString(d.coef)
  {
    var digits := NatToString(Abs(d.coef));
    assert DotPlace(d) == |digits|;
    assert Zeros(0) == "";
    assert digits + "" == digits;
  }

  /** The text of an integral value reads back as the same value. */
  lemma IntegralRoundTrip(d: Decimal)
    requires d.exp == 0
    ensures ParseDecimal(DecimalToString(d)) == Some(d)
  {
    IntegralToString(d);
    var digits := NatToString(Abs(d.coef));
    ParseDigits(digits);
    NatToStringValue(Abs(d.coef));
    if d.coef < 0 {
      assert ("-" + digits)[1..] == digits;
    } else {
      assert digits[0] != '-' && digits[0] != '+';
    }
  }

  // ---------------------------------------------------------------------------
  // Exact arithmetic
  // ---------------------------------------------------------------------------

  /** `int(n / d)` on an exact quotient: division truncated toward zero. */
  function TruncDiv(n: int, d: int): int
    requires d != 0
  {
    var q := Abs(n) / Abs(d);
    if (n < 0) == (d < 0) then q else -q
  }

  lemma MulNonneg(a: int, b: int)
    requires a >= 0 && b >= 0
    ensures a * b >= 0
  {}

  lemma MulMono(x: int, y: int, b: int)
    requires b >= 0
    ensures x <= y ==> x * b <= y * b
  {
    if x <= y {
      MulNonneg(y - x, b);
      assert (y - x) * b == y * b - x * b;
    }
  }

  lemma DivModFacts(n: nat, d: nat)
    requires d > 0
    ensures n == (n / d) * d + n % d && 0 <= n % d < d && n / d >= 0
  {}

  lemma MulSigns(a: int, b: int)
    ensures a * (-b) == -(a * b) && (-a) * (-b) == a * b && (-a) * b == -(a * b)
  {}

  /** The truncated quotient times the divisor is `|n| div |d| * |d|` with the sign of `n`. */
  lemma TruncDivProduct(n: int, d: int)
    requires d != 0
    ensures var m := (Abs(n) / Abs(d)) * Abs(d);
            TruncDiv(n, d) * d == (if n < 0 then -m else m)
  {
    MulSigns(Abs(n) / Abs(d), Abs(d));
  }

  /** The truncated quotient times the divisor lies between 0 and `n`, less than one divisor away from `n`. */
  lemma TruncDivBounds(n: int, d: int)
    requires d != 0
    ensures var p := TruncDiv(n, d) * d;
            Abs(p) <= Abs(n) && Abs(n - p) < Abs(d) && (n >= 0 ==> p >= 0) && (n <= 0 ==> p <= 0)
  {
    var nn: int := Abs(n);
    var dd: int := Abs(d);
    DivModFacts(nn, dd);
    MulNonneg(nn / dd, dd);
    TruncDivProduct(n, d);
  }

  lemma MulDivCancel(a: nat, b: nat)
    requires b > 0
    ensures (a * b) / b == a
  {
    DivModFacts(a * b, b);
    var q := (a * b) / b;
    MulMono(a + 1, q, b);
    MulMono(q + 1, a, b);
  }

  /** Dividing an exact multiple gives the multiplier back. */
  lemma TruncDivExact(q: int, c: int)
    requires c != 0
    ensures TruncDiv(q * c, c) == q
  {
    assert Abs(q * c) == Abs(q) * Abs(c) by {
      if q < 0 && c < 0 { assert q * c == (-q) * (-c); }
      else if q < 0 { assert q * c == -((-q) * c); MulNonneg(-q, c); }
      else if c < 0 { assert q * c == -(q * (-c)); MulNonneg(q, -c); }
      else { MulNonneg(q, c); }
    }
    MulDivCancel(Abs(q), Abs(c));
    if q > 0 { MulNonneg(q, Abs(c)); }
  }

  /** The coefficient of `d` over the exponent `e` (at most `d`'s own): `d` is that coefficient times 10^e. */
  function CoefAt(d: Decimal, e: int): int
    requires e <= d.exp
  {
    d.coef * Pow10(d.exp - e)
  }

  lemma MulAssoc(a: int, b: int, c: int)
    ensures (a * b) * c == a * (b * c)
  {}

  /** Scaling to a smaller exponent keeps the sign of the coefficient. */
  lemma CoefAtSign(d: Decimal, e: int)
    requires e <= d.exp
    ensures (CoefAt(d, e) > 0 <==> d.coef > 0) && (CoefAt(d, e) < 0 <==> d.coef < 0) && (CoefAt(d, e) == 0 <==> d.coef == 0)
  {
    var p := Pow10(d.exp - e);
    if d.coef > 0 {
      MulMono(1, d.coef, p);
    } else if d.coef < 0 {
      MulMono(d.coef, -1, p);
    }
  }

  function MinExp(a: Decimal, b: Decimal): int {
    if a.exp <= b.exp then a.exp else b.exp
  }

  /** `a` and `b` denote the same number (Python's `a == b`). */
  predicate SameValue(a: Decimal, b: Decimal) {
    CoefAt(a, MinExp(a, b)) == CoefAt(b, MinExp(a, b))
  }

  /** `a <= b` as numbers. */
  predicate AtMost(a: Decimal, b: Decimal) {
    CoefAt(a, MinExp(a, b)) <= CoefAt(b, MinExp(a, b))
  }
}
