/** The "ideal" instalment both engines start from: the level payment of a
    geometric series at the per-period rate 1 + rate / (1200 / multiplier),
    and the zero-rate ideal of the instance-count engine. The series is
    evaluated exactly, over reals. */
module Annuity {
  import opened Failures
  import opened Decimals

  function Pow(x: real, n: nat): real {
    if n == 0 then 1.0 else x * Pow(x, n - 1)
  }

  lemma {:induction false} PowNonZero(x: real, n: nat)
    requires x != 0.0
    ensures Pow(x, n) != 0.0
  {
    if n > 0 {
      PowNonZero(x, n - 1);
    }
  }

  /** The growth factor of one period: 1 + rate / (1200 / multiplier). */
  function PeriodFactor(rate: real, multiplier: real): real
    requires multiplier != 0.0
  {
    1.0 + rate / (1200.0 / multiplier)
  }

  /** The closed form x / y with x = B * ir * (1 / ir - 1) and
      y = 1 / ir^n - 1. Each of the three decimal divisions it makes fails
      on a zero divisor. */
  function LevelPayment(balance: real, rate: real, multiplier: real, instances: nat): (r: Result<real>)
    ensures r.Err? ==> r.error == DivideByZero
    ensures r.Ok? <==>
      && multiplier != 0.0
      && PeriodFactor(rate, multiplier) != 0.0
      && Pow(PeriodFactor(rate, multiplier), instances) != 1.0
  {
    if multiplier == 0.0 then Err(DivideByZero)
    else
      var ir := PeriodFactor(rate, multiplier);
      if ir == 0.0 then Err(DivideByZero)
      else
        PowNonZero(ir, instances);
        var p := Pow(ir, instances);
        if (1.0 / p) - 1.0 == 0.0 then
          assert p == 1.0;
          Err(DivideByZero)
        else
          assert p != 1.0;
          Ok(SeriesQuotient(balance, ir, p))
  }

  /** x / y, where x = balance * ir * (1 / ir - 1) and y = 1 / p - 1. */
  function SeriesQuotient(balance: real, ir: real, p: real): real
    requires ir != 0.0 && p != 0.0 && (1.0 / p) - 1.0 != 0.0
  {
    (balance * ir * ((1.0 / ir) - 1.0)) / ((1.0 / p) - 1.0)
  }

  /** The capital left after k periods that each grow the balance by the
      factor ir and then take the payment off. */
  function BalanceAfter(balance: real, ir: real, payment: real, k: nat): real {
    if k == 0 then balance else BalanceAfter(balance, ir, payment, k - 1) * ir - payment
  }

  lemma {:induction false} BalanceAfterClosedForm(balance: real, ir: real, payment: real, k: nat)
    ensures BalanceAfter(balance, ir, payment, k) * (ir - 1.0)
         == balance * Pow(ir, k) * (ir - 1.0) - payment * (Pow(ir, k) - 1.0)
  {
    if k > 0 {
      BalanceAfterClosedForm(balance, ir, payment, k - 1);
      ClosedFormStep(BalanceAfter(balance, ir, payment, k), BalanceAfter(balance, ir, payment, k - 1),
                     balance, ir, payment, Pow(ir, k), Pow(ir, k - 1));
    }
  }

  /** One period of the closed form: with b(ir - 1) = balance p (ir - 1) -
      payment (p - 1), one more growth and payment multiplies p by ir. */
  lemma ClosedFormStep(next: real, b: real, balance: real, ir: real, payment: real, nextP: real, p: real)
    requires next == b * ir - payment && nextP == ir * p
    requires b * (ir - 1.0) == balance * p * (ir - 1.0) - payment * (p - 1.0)
    ensures next * (ir - 1.0) == balance * nextP * (ir - 1.0) - payment * (nextP - 1.0)
  {
    calc {
      next * (ir - 1.0);
      (b * ir - payment) * (ir - 1.0);
      ir * (b * (ir - 1.0)) - payment * (ir - 1.0);
      ir * (balance * p * (ir - 1.0) - payment * (p - 1.0)) - payment * (ir - 1.0);
      balance * (ir * p) * (ir - 1.0) - payment * (ir * p - 1.0);
    }
  }

  /** The level payment repays the balance exactly: after `instances`
      periods of interest at the period factor, each followed by one payment,
      nothing is left. */
  lemma LevelPaymentAmortizes(balance: real, rate: real, multiplier: real, instances: nat)
    requires LevelPayment(balance, rate, multiplier, instances).Ok?
    ensures BalanceAfter(balance, PeriodFactor(rate, multiplier),
                         LevelPayment(balance, rate, multiplier, instances).value, instances) == 0.0
  {
    var ir := PeriodFactor(rate, multiplier);
    var payment := LevelPayment(balance, rate, multiplier, instances).value;
    var p := Pow(ir, instances);
    PowNonZero(ir, instances);
    assert payment == SeriesQuotient(balance, ir, p);
    PaymentEquation(balance, ir, p);
    BalanceAfterClosedForm(balance, ir, payment, instances);
    assert ir != 1.0 by {
      if ir == 1.0 { PowOfOne(instances); }
    }
    var b := BalanceAfter(balance, ir, payment, instances);
    assert b * (ir - 1.0) == balance * p * (ir - 1.0) - payment * (p - 1.0);
    assert payment * (p - 1.0) == balance * (ir - 1.0) * p;
    assert b * (ir - 1.0) == 0.0;
    ZeroFactor(b, ir - 1.0);
  }

  lemma ZeroFactor(a: real, c: real)
    requires a * c == 0.0 && c != 0.0
    ensures a == 0.0
  {
  }

  /** The algebra behind the closed form: x / y times (p - 1) is
      balance * (ir - 1) * p. */
  lemma PaymentEquation(balance: real, ir: real, p: real)
    requires ir != 0.0 && p != 0.0 && (1.0 / p) - 1.0 != 0.0
    ensures SeriesQuotient(balance, ir, p) * (p - 1.0) == balance * (ir - 1.0) * p
  {
    var payment := SeriesQuotient(balance, ir, p);
    var x := balance * ir * ((1.0 / ir) - 1.0);
    var y := (1.0 / p) - 1.0;
    assert x == balance * (1.0 - ir);
    assert payment * y == x;
    assert y * p == 1.0 - p;
    calc {
      payment * (p - 1.0);
      -(payment * (y * p));
      -((payment * y) * p);
      -(x * p);
      balance * (ir - 1.0) * p;
    }
  }

  lemma {:induction false} PowOfOne(n: nat)
    ensures Pow(1.0, n) == 1.0
  {
    if n > 0 {
      PowOfOne(n - 1);
    }
  }

  /** A single instalment is the balance plus one period's interest. */
  lemma LevelPaymentSingle(balance: real, rate: real, multiplier: real)
    requires LevelPayment(balance, rate, multiplier, 1).Ok?
    ensures LevelPayment(balance, rate, multiplier, 1).value == balance * PeriodFactor(rate, multiplier)
  {
    var ir := PeriodFactor(rate, multiplier);
    var x := balance * ir * ((1.0 / ir) - 1.0);
    var y := (1.0 / ir) - 1.0;
    assert Pow(ir, 1) == ir;
    assert x == balance * ir * y;
  }

  /** The zero-rate ideal as the instance-count engine writes it:
      Math.Round(capitalBalance * instances), a product. */
  function ZeroRateIdealAsWritten(balance: real, instances: int): int {
    RoundHalfEven(balance * instances as real)
  }

  /** With four instances the product asks for four times the balance on
      every instalment. */
  lemma ZeroRateIdealAsWrittenOvershoots()
    ensures ZeroRateIdealAsWritten(1000.0, 4) == 4000
    ensures ZeroRateIdealAsWritten(1000.0, 4) as real > 1000.0
  {
    RoundHalfEvenOfInteger(4000);
  }

  /** The evidently intended zero-rate ideal: the balance shared evenly over
      the instances, Math.Round(capitalBalance / instances); no instances
      divide by zero. */
  function ZeroRateIdeal(balance: real, instances: int): (r: Result<int>)
    ensures r.Err? <==> instances == 0
    ensures r.Err? ==> r.error == DivideByZero
  {
    if instances == 0 then Err(DivideByZero)
    else Ok(RoundHalfEven(balance / instances as real))
  }

  /** `instances` payments of the corrected ideal come within half a unit
      per instalment of the balance, and never exceed it by more. */
  lemma ZeroRateIdealSharesBalance(balance: real, instances: int)
    requires instances >= 1
    ensures var ideal := ZeroRateIdeal(balance, instances).value as real;
      Abs(instances as real * ideal - balance) <= instances as real / 2.0
  {
    var n := instances as real;
    var q := balance / n;
    var ideal := ZeroRateIdeal(balance, instances).value as real;
    assert Abs(q - ideal) <= 0.5;
    assert n * q == balance;
    assert n * ideal - balance == n * (ideal - q);
    if ideal >= q {
      assert n * (ideal - q) <= n * 0.5;
    } else {
      assert n * (q - ideal) <= n * 0.5;
    }
  }

  /** At a zero rate the level payment's factor is 1 and the exact share
      B / n repays the balance, so the corrected ideal is the zero-rate
      counterpart of the closed form. */
  lemma ZeroRateShareAmortizes(balance: real, instances: nat)
    requires instances >= 1
    ensures BalanceAfter(balance, 1.0, balance / instances as real, instances) == 0.0
  {
    var share := balance / instances as real;
    BalanceAfterAtFactorOne(balance, share, instances);
    assert share * instances as real == balance;
  }

  lemma {:induction false} BalanceAfterAtFactorOne(balance: real, payment: real, k: nat)
    ensures BalanceAfter(balance, 1.0, payment, k) == balance - payment * k as real
  {
    if k > 0 {
      BalanceAfterAtFactorOne(balance, payment, k - 1);
    }
  }
}
