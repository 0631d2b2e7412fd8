/** The decimal arithmetic the engine relies on: absolute value, minimum and
    .NET's Math.Round, which rounds half to even unless told otherwise.
    Decimals are modelled as exact reals. */
module Decimals {

  function Abs(x: real): (r: real)
    ensures r >= 0.0 && (r == x || r == -x)
  {
    if x < 0.0 then -x else x
  }

  function Min(a: real, b: real): (r: real)
    ensures r <= a && r <= b && (r == a || r == b)
  {
    if a <= b then a else b
  }

  function MinInt(a: int, b: int): (r: int)
    ensures r <= a && r <= b && (r == a || r == b)
  {
    if a <= b then a else b
  }

  /** True when x is a whole number of hundredths (cents). */
  predicate IsCents(x: real) {
    (x * 100.0).Floor as real == x * 100.0
  }

  /** Math.Round(x): the nearest integer, ties going to the even neighbour. */
  function RoundHalfEven(x: real): (r: int)
    ensures Abs(x - r as real) < 0.5 || (Abs(x - r as real) == 0.5 && r % 2 == 0)
  {
    var f := x.Floor;
    var frac := x - f as real;
    if frac < 0.5 then f
    else if frac > 0.5 then f + 1
    else if f % 2 == 0 then f
    else f + 1
  }

  /** Math.Round(x, 2): the nearest whole number of cents, ties to even. */
  function Round2(x: real): (r: real)
    ensures IsCents(r)
    ensures Abs(x - r) <= 0.005
  {
    var n := RoundHalfEven(x * 100.0);
    assert (n as real / 100.0) * 100.0 == n as real;
    n as real / 100.0
  }

  /** The rounding characterised by its contract has only one answer. */
  lemma RoundHalfEvenUnique(x: real, n: int)
    requires Abs(x - n as real) < 0.5 || (Abs(x - n as real) == 0.5 && n % 2 == 0)
    ensures n == RoundHalfEven(x)
  {
  }

  lemma RoundHalfEvenOfInteger(n: int)
    ensures RoundHalfEven(n as real) == n
  {
    RoundHalfEvenUnique(n as real, n);
  }

  /** Rounding never moves a value that already is a whole number of cents. */
  lemma Round2OfCents(x: real)
    requires IsCents(x)
    ensures Round2(x) == x
  {
    var k := (x * 100.0).Floor;
    RoundHalfEvenOfInteger(k);
    assert RoundHalfEven(x * 100.0) == k;
  }

  /** Rounding to even is monotone: it never reverses the order of two values. */
  lemma RoundHalfEvenMonotone(x: real, y: real)
    requires x <= y
    ensures RoundHalfEven(x) <= RoundHalfEven(y)
  {
  }

  lemma Round2Monotone(x: real, y: real)
    requires x <= y
    ensures Round2(x) <= Round2(y)
  {
    RoundHalfEvenMonotone(x * 100.0, y * 100.0);
  }

  lemma CentsClosed(a: real, b: real)
    requires IsCents(a) && IsCents(b)
    ensures IsCents(a + b) && IsCents(a - b) && IsCents(-a) && IsCents(Abs(a))
  {
    var ka, kb := (a * 100.0).Floor, (b * 100.0).Floor;
    WholeCents(a + b, ka + kb);
    WholeCents(a - b, ka - kb);
    WholeCents(-a, -ka);
  }

  /** A value whose hundredfold is a whole number is a whole number of cents. */
  lemma WholeCents(x: real, k: int)
    requires x * 100.0 == k as real
    ensures IsCents(x)
  {
  }
}
