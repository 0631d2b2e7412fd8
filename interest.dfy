/** Interest.Calculate: simple daily interest on a non-negative balance over
    the whole days between two dates. */
module Interest {
  import opened Failures
  import opened Decimals
  import opened Calendar

  /** The whole days between two dates, in either order. */
  function DaysBetween(from: Date, to: Date): (n: nat)
    ensures n == 0 <==> from == to
  {
    DayNumberEqualIff(from, to);
    if DayNumber(from) <= DayNumber(to) then DayNumber(to) - DayNumber(from)
    else DayNumber(from) - DayNumber(to)
  }

  function DailyRate(rate: real, yearDays: int): real
    requires yearDays != 0
  {
    (rate / 100.0) / yearDays as real
  }

  /** The interest a daily rate accrues on max(0, balance) over some days. */
  function Accrued(dailyRate: real, balance: real, days: nat): real {
    dailyRate * (if balance > 0.0 then balance else 0.0) * days as real
  }

  /** (rate / 100) / yearDays per day on max(0, balance), for |to - from|
      days; a day count of 0 divides by zero. */
  function Calculate(from: Date, to: Date, balance: real, rate: real, yearDays: int): (r: Result<real>)
    ensures r.Err? <==> yearDays == 0
    ensures r.Err? ==> r.error == DivideByZero
  {
    if yearDays == 0 then Err(DivideByZero)
    else
      Ok(Accrued(DailyRate(rate, yearDays), balance, DaysBetween(from, to)))
  }

  /** Swapping the two dates gives the same interest. */
  lemma CalculateSymmetric(from: Date, to: Date, balance: real, rate: real, yearDays: int)
    ensures Calculate(from, to, balance, rate, yearDays) == Calculate(to, from, balance, rate, yearDays)
  {
    if yearDays != 0 {
      assert DaysBetween(from, to) == DaysBetween(to, from);
    }
  }

  /** A balance of zero or less accrues nothing, and so does an empty span. */
  lemma CalculateZero(from: Date, to: Date, balance: real, rate: real, yearDays: int)
    requires yearDays != 0
    requires balance <= 0.0 || from == to
    ensures Calculate(from, to, balance, rate, yearDays) == Ok(0.0)
  {
  }

  /** With a non-negative rate and a positive day count interest is never
      negative. */
  lemma CalculateNonNegative(from: Date, to: Date, balance: real, rate: real, yearDays: int)
    requires rate >= 0.0 && yearDays > 0
    ensures Calculate(from, to, balance, rate, yearDays).value >= 0.0
  {
    DailyRateNonNegative(rate, yearDays);
    AccruedNonNegative(DailyRate(rate, yearDays), balance, DaysBetween(from, to));
  }

  lemma DailyRateNonNegative(rate: real, yearDays: int)
    requires rate >= 0.0 && yearDays > 0
    ensures DailyRate(rate, yearDays) >= 0.0
  {
  }

  lemma AccruedNonNegative(daily: real, balance: real, days: nat)
    requires daily >= 0.0
    ensures Accrued(daily, balance, days) >= 0.0
  {
    var b := if balance > 0.0 then balance else 0.0;
    assert daily * b >= 0.0;
  }

  /** Interest is linear in elapsed days: the interest over two adjacent
      spans is the interest over their union. */
  lemma CalculateAdditiveInDays(a: Date, b: Date, c: Date, balance: real, rate: real, yearDays: int)
    requires yearDays != 0
    requires AtOrBefore(a, b) && AtOrBefore(b, c)
    ensures Calculate(a, c, balance, rate, yearDays).value
         == Calculate(a, b, balance, rate, yearDays).value + Calculate(b, c, balance, rate, yearDays).value
  {
    DaysBetweenAdds(a, b, c);
    AccruedAdds(DailyRate(rate, yearDays), balance, DaysBetween(a, b), DaysBetween(b, c), DaysBetween(a, c));
  }

  lemma AccruedAdds(daily: real, balance: real, x: nat, y: nat, z: nat)
    requires z == x + y
    ensures Accrued(daily, balance, z) == Accrued(daily, balance, x) + Accrued(daily, balance, y)
  {
    ScaleSum(daily * (if balance > 0.0 then balance else 0.0), x, y, z);
  }

  /** Elapsed days add up over adjacent spans. */
  lemma DaysBetweenAdds(a: Date, b: Date, c: Date)
    requires AtOrBefore(a, b) && AtOrBefore(b, c)
    ensures DaysBetween(a, c) == DaysBetween(a, b) + DaysBetween(b, c)
  {
    var ab, bc, ac := DaysBetween(a, b), DaysBetween(b, c), DaysBetween(a, c);
    assert ab == DayNumber(b) - DayNumber(a) && bc == DayNumber(c) - DayNumber(b) by {
      if a == b {} if b == c {}
    }
    if a == c { assert DayNumber(a) == DayNumber(b); }
  }

  lemma ScaleSum(k: real, x: nat, y: nat, z: nat)
    requires z == x + y
    ensures k * z as real == k * x as real + k * y as real
  {
  }

  /** Interest is linear in a non-negative balance. */
  lemma CalculateLinearInBalance(from: Date, to: Date, b1: real, b2: real, rate: real, yearDays: int)
    requires yearDays != 0 && b1 >= 0.0 && b2 >= 0.0
    ensures Calculate(from, to, b1 + b2, rate, yearDays).value
         == Calculate(from, to, b1, rate, yearDays).value + Calculate(from, to, b2, rate, yearDays).value
  {
    AccruedLinear(DailyRate(rate, yearDays), b1, b2, DaysBetween(from, to));
  }

  lemma AccruedLinear(daily: real, b1: real, b2: real, days: nat)
    requires b1 >= 0.0 && b2 >= 0.0
    ensures Accrued(daily, b1 + b2, days) == Accrued(daily, b1, days) + Accrued(daily, b2, days)
  {
    var n := days as real;
    assert Accrued(daily, b1 + b2, days) == daily * (b1 + b2) * n;
    assert Accrued(daily, b1, days) == daily * b1 * n;
    assert Accrued(daily, b2, days) == daily * b2 * n;
    assert daily * (b1 + b2) * n == daily * b1 * n + daily * b2 * n;
  }
}
