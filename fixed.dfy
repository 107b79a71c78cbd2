/** Decimal numbers as the generator reads, rounds and writes them. Prices are
    read from the price file into exact decimals, `round(x, 2)` turns them into
    whole cents, `"{:.2f}"` writes cents back as text, and `int(a / p)` counts
    the whole units a sum buys. */
module Fixed {
  import opened Wrappers
  import opened Text

  /** The number `mantissa / 10^exponent`. */
  datatype Decimal = Decimal(mantissa: int, exponent: nat)

  function Abs(x: int): nat {
    if x < 0 then -x else x
  }

  lemma {:induction false} Pow10Add(a: nat, b: nat)
    ensures Pow10(a + b) == Pow10(a) * Pow10(b)
  {
    if a > 0 {
      Pow10Add(a - 1, b);
    }
  }

  // ---- reading ----

  /** An unsigned decimal numeral: digits with at most one '.', and at least
      one digit. */
  function ParseUnsigned(s: string): (r: Option<Decimal>)
    ensures r.Some? ==> r.value.mantissa >= 0
  {
    if '.' in s then
      var i := IndexOf(s, '.');
      var whole, frac := s[..i], s[i + 1..];
      if AllDigits(whole) && AllDigits(frac) && |whole| + |frac| >= 1 then
        DigitsValueAppend(whole, frac);
        Some(Decimal(DigitsValue(whole + frac), |frac|))
      else None
    else if s != [] && AllDigits(s) then Some(Decimal(DigitsValue(s), 0))
    else None
  }

  /** A numeral with a point reads as its digits, point removed, over ten to
      the number of digits after the point: `84.1234` is 841234 / 10^4 and
      `007.5` is 75 / 10^1. */
  lemma ParsePointedValue(whole: string, frac: string)
    requires AllDigits(whole) && AllDigits(frac) && |whole| + |frac| >= 1
    ensures AllDigits(whole + frac)
    ensures ParseUnsigned(whole + "." + frac) == Some(Decimal(DigitsValue(whole + frac), |frac|))
    ensures DigitsValue(whole + frac) == DigitsValue(whole) * Pow10(|frac|) + DigitsValue(frac)
  {
    PointAt(whole, frac);
    DigitsValueAppend(whole, frac);
  }

  /** The first point of `whole + "." + frac` is the one between them. */
  lemma PointAt(whole: string, frac: string)
    requires AllDigits(whole)
    ensures var s := whole + "." + frac;
      && '.' in s && IndexOf(s, '.') == |whole|
      && s[..|whole|] == whole && s[|whole| + 1..] == frac
  {
    var s := whole + "." + frac;
    assert s[|whole|] == '.';
    assert s[..|whole|] == whole;
    NoPointInDigits(whole);
    IndexOfFirst(s, '.', |whole|);
  }

  /** A numeral without a point reads as a whole number. */
  lemma ParseWholeValue(whole: string)
    requires AllDigits(whole) && whole != []
    ensures ParseUnsigned(whole) == Some(Decimal(DigitsValue(whole), 0))
  {
    NoPointInDigits(whole);
  }

  lemma NoPointInDigits(s: string)
    requires AllDigits(s)
    ensures '.' !in s
  {
  }

  /** `float(s)` for a signed decimal numeral, with None where Python raises
      ValueError. */
  function ParseNumber(s: string): (r: Option<Decimal>)
  {
    if s != [] && (s[0] == '-' || s[0] == '+') then
      match ParseUnsigned(s[1..])
      case Some(d) => Some(if s[0] == '-' then Decimal(-d.mantissa, d.exponent) else d)
      case None => None
    else ParseUnsigned(s)
  }

  // ---- rounding ----

  /** `round(x, 2)` expressed in cents: the nearest whole number of cents, and
      of two equally near the even one. */
  function RoundCents(x: Decimal): (c: int)
    ensures 2 * Abs(100 * x.mantissa - c * Pow10(x.exponent)) <= Pow10(x.exponent)
    ensures 2 * Abs(100 * x.mantissa - c * Pow10(x.exponent)) == Pow10(x.exponent) ==> c % 2 == 0
  {
    if x.exponent <= 2 then
      Pow10Add(2 - x.exponent, x.exponent);
      x.mantissa * Pow10(2 - x.exponent)
    else
      Pow10Add(x.exponent - 2, 2);
      assert Pow10(2) == 100;
      HalfEvenQuotient(x.mantissa, Pow10(x.exponent - 2), Pow10(x.exponent))
  }

  /** `m / unit` rounded half to even, for `big == unit * 100`: the rounding
      error in cents is at most half of `big`, and a tie gives an even result. */
  function HalfEvenQuotient(m: int, unit: nat, big: int): (c: int)
    requires unit > 0 && big == unit * 100
    ensures 2 * Abs(100 * m - c * big) <= big
    ensures 2 * Abs(100 * m - c * big) == big ==> c % 2 == 0
  {
    var q, rem := m / unit, m % unit;
    DivisionResidues(m, unit, big);
    if 2 * rem < unit then
      q
    else if 2 * rem > unit then
      q + 1
    else if q % 2 == 0 then q else q + 1
  }

  /** Scaling a division by `unit` up to cents: the distance of the truncated
      quotient and of its successor from the exact value. */
  lemma DivisionResidues(m: int, unit: nat, big: int)
    requires unit > 0 && big == unit * 100
    ensures 100 * m - (m / unit) * big == 100 * (m % unit)
    ensures 100 * m - (m / unit + 1) * big == 100 * (m % unit - unit)
  {
    assert m == (m / unit) * unit + m % unit;
  }

  /** A drawn real amount written with `"{:.2f}"`, in cents: the nearest whole
      number of cents, halves rounded up. */
  function RealCents(x: real): (c: int)
    ensures (c as real) - 0.5 <= 100.0 * x < (c as real) + 0.5
  {
    (100.0 * x + 0.5).Floor
  }

  // ---- writing ----

  /** `str(n)` */
  function FormatInt(n: int): (s: string)
    ensures s != []
  {
    if n < 0 then "-" + NatDigits(-n) else NatDigits(n)
  }

  /** `"{:.2f}".format(c / 100)`: a sign for negatives, the whole part without
      leading zeros, a point and exactly two digits. */
  function FormatCents(c: int): (s: string)
  {
    (if c < 0 then "-" else "") + CentsBody(Abs(c))
  }

  /** Reading back what `FormatCents` writes gives the same number of cents, as
      a downstream parser of the ledger would. */
  lemma ParseFormatCents(c: int)
    ensures ParseNumber(FormatCents(c)) == Some(Decimal(c, 2))
  {
    var a := Abs(c);
    var body := CentsBody(a);
    ParseUnsignedCents(a);
    ParseSigned(body, Decimal(a, 2));
    FormatCentsSign(c);
  }

  /** The digits of `FormatCents` after any sign. */
  function CentsBody(a: nat): (s: string)
    ensures s != [] && IsDigit(s[0])
  {
    NatDigitsLength(a % 100, 2);
    var whole := NatDigits(a / 100);
    assert (whole + "." + PadDigits(a % 100, 2))[0] == whole[0];
    whole + "." + PadDigits(a % 100, 2)
  }

  lemma FormatCentsSign(c: int)
    ensures c < 0 ==> FormatCents(c) == "-" + CentsBody(Abs(c))
    ensures c >= 0 ==> FormatCents(c) == CentsBody(Abs(c))
  {
    assert "" + CentsBody(Abs(c)) == CentsBody(Abs(c));
  }

  /** A numeral starting with a digit reads the same with `-` flipping its sign. */
  lemma ParseSigned(body: string, x: Decimal)
    requires body != [] && IsDigit(body[0]) && ParseUnsigned(body) == Some(x)
    ensures ParseNumber(body) == Some(x)
    ensures ParseNumber("-" + body) == Some(Decimal(-x.mantissa, x.exponent))
  {
    assert ("-" + body)[1..] == body;
  }

  /** The unsigned part of `FormatCents` reads back as the cents it spells. */
  lemma ParseUnsignedCents(a: nat)
    ensures ParseUnsigned(CentsBody(a)) == Some(Decimal(a, 2))
  {
    NatDigitsLength(a % 100, 2);
    var whole, frac := NatDigits(a / 100), PadDigits(a % 100, 2);
    var body := whole + "." + frac;
    assert |frac| == 2;
    assert '.' !in whole && '.' !in frac;
    assert body[|whole|] == '.' && body[..|whole|] == whole;
    IndexOfFirst(body, '.', |whole|);
    assert body[|whole| + 1..] == frac;
    DigitsValueAppend(whole, frac);
    assert Pow10(2) == 100;
  }

  /** Reading back what `FormatInt` writes gives the same integer. */
  lemma ParseFormatInt(n: int)
    ensures ParseNumber(FormatInt(n)) == Some(Decimal(n, 0))
  {
    var d := NatDigits(Abs(n));
    assert '.' !in d;
    if n < 0 {
      assert ("-" + d)[1..] == d;
    } else {
      assert d[0] != '-' && d[0] != '+';
    }
  }

  // ---- whole units ----

  /** `int(amount / price)` with exact division: the quotient truncated
      toward zero. Python raises ZeroDivisionError for a zero price, so
      callers check for it first. */
  function PurchaseUnits(amount: nat, price: int): (units: int)
    requires price != 0
    ensures price > 0 ==> units >= 0 && units * price <= amount < (units + 1) * price
    ensures price < 0 ==> units <= 0 && units * price <= amount < (units - 1) * price
  {
    if price > 0 then amount / price
    else -(amount / -price)
  }
}
