/**
 * Decimal arithmetic of the points engine. Amounts are exact reals; the
 * engine's `Math.round(x * 100) / 100` becomes Round2, and JavaScript's
 * rendering of a number inside a template string becomes NumberText.
 */
module Numbers {
  import Text

  /** A whole number of hundredths: what two-decimal rounding yields. */
  predicate IsCents(x: real) {
    (x * 100.0).Floor as real == x * 100.0
  }

  /** `Math.round(x * 100) / 100`: rounds to hundredths, halves upwards. */
  function Round2(x: real): (r: real)
    ensures IsCents(r)
    ensures x - 0.005 < r <= x + 0.005
  {
    var n := (x * 100.0 + 0.5).Floor;
    assert (n as real / 100.0) * 100.0 == n as real;
    n as real / 100.0
  }

  /**
   * The product of an amount and a rate. Kept as a function so that each
   * product the engine forms is a single term for the verifier.
   */
  function Times(amount: real, rate: real): real {
    amount * rate
  }

  /** Rounding leaves a whole number of hundredths alone. */
  lemma Round2OfCents(x: real)
    requires IsCents(x)
    ensures Round2(x) == x
  {
    var c := (x * 100.0).Floor;
    assert (x * 100.0 + 0.5).Floor == c;
    assert c as real / 100.0 == x;
  }

  /** Rounding twice is rounding once. */
  lemma Round2Idempotent(x: real)
    ensures Round2(Round2(x)) == Round2(x)
  {
    Round2OfCents(Round2(x));
  }

  lemma Round2Monotone(x: real, y: real)
    requires x <= y
    ensures Round2(x) <= Round2(y)
  {
    var a, b := x * 100.0 + 0.5, y * 100.0 + 0.5;
    assert a.Floor as real <= a <= b < b.Floor as real + 1.0;
    assert a.Floor <= b.Floor;
  }

  lemma Round2NonNegative(x: real)
    requires x >= 0.0
    ensures Round2(x) >= 0.0
  {
    Round2Monotone(0.0, x);
    Round2OfCents(0.0);
  }

  /** A larger amount at a non-negative rate is worth at least as much. */
  lemma TimesMonotone(a1: real, a2: real, rate: real)
    requires a1 <= a2 && rate >= 0.0
    ensures Times(a1, rate) <= Times(a2, rate)
  {
    assert a2 * rate - a1 * rate == (a2 - a1) * rate;
  }

  /** A non-negative amount at a non-positive rate is worth nothing or less. */
  lemma TimesNonPositive(a: real, rate: real)
    requires a >= 0.0 && rate <= 0.0
    ensures Times(a, rate) <= 0.0
  {
    assert a * -rate >= 0.0;
  }

  lemma CentsSum(x: real, y: real)
    requires IsCents(x) && IsCents(y)
    ensures IsCents(x + y)
  {
    var a, b := (x * 100.0).Floor, (y * 100.0).Floor;
    assert (x + y) * 100.0 == (a + b) as real;
  }

  lemma IntIsCents(n: int)
    ensures IsCents(n as real)
  {
    assert (n as real * 100.0) == (n * 100) as real;
  }

  /** The quotient truncated toward zero, as `Math.trunc(a / b)` gives it. */
  function TruncQuotient(a: int, b: int): int
    requires b > 0
  {
    if a >= 0 then a / b else -((-a) / b)
  }

  /**
   * JavaScript's `a % b` on integers for a positive divisor: what is left
   * after the truncated quotient, so its sign follows the dividend.
   */
  function JsRemainder(a: int, b: int): (r: int)
    requires b > 0
    ensures a == b * TruncQuotient(a, b) + r
    ensures a >= 0 ==> 0 <= r < b
    ensures a < 0 ==> -b < r <= 0
  {
    if a >= 0 then a % b
    else
      var q, m := (-a) / b, (-a) % b;
      assert -a == b * q + m;
      -m
  }

  /** The digits after the decimal point of `c` hundredths, trailing zeros dropped. */
  function FractionText(c: nat): string {
    var frac := c % 100;
    if frac == 0 then ""
    else if frac % 10 == 0 then "." + [Text.DigitChar(frac / 10)]
    else "." + [Text.DigitChar(frac / 10), Text.DigitChar(frac % 10)]
  }

  /**
   * `String(x)` for a number. Exact for whole numbers of hundredths whose
   * magnitude is below 10^21 (the form accepts at most two decimals and every
   * catalog rate has at most one); digits beyond the second decimal are not
   * rendered, and from 10^21 on JavaScript switches to exponent form
   * ("1e+21") while this prints every digit.
   */
  function NumberText(x: real): string {
    var c := (x * 100.0).Floor;
    if c < 0 then "-" + Text.NatText(-c / 100) + FractionText(-c)
    else Text.NatText(c / 100) + FractionText(c)
  }

  /** A whole number renders as its integer digits ("12", not "12.00"). */
  lemma NumberTextOfInt(n: int)
    ensures NumberText(n as real) == Text.IntText(n)
  {
    assert (n as real * 100.0).Floor == n * 100;
    if n < 0 {
      assert -(n * 100) / 100 == -n;
      assert -(n * 100) % 100 == 0;
    } else {
      assert (n * 100) / 100 == n;
      assert (n * 100) % 100 == 0;
    }
  }

  /** 0.2 renders as "0.2". */
  lemma NumberTextOfTwoTenths()
    ensures NumberText(0.2) == "0.2"
  {
    assert (0.2 * 100.0).Floor == 20;
    Text.SmallNatTexts();
    assert FractionText(20) == ".2";
  }
}

