/** The repayment frequency enumeration and its "monthly multiplier": how
    many months one period lasts, used to turn an annual percentage rate into
    a per-period rate. */
module Common {

  /** The seven declared members in declaration order (the source spells the
      yearly member YEARY). A C# enum variable can hold any integer, so a value
      outside the declared members is kept as Undeclared. */
  datatype Frequency =
    | Weekly
    | BiWeekly
    | Monthly
    | BiMonthly
    | Quarterly
    | Yearly
    | BiYearly
    | Undeclared(code: int)

  predicate Declared(f: Frequency) {
    !f.Undeclared?
  }

  /** The position of a declared member in the enum declaration. */
  function Ordinal(f: Frequency): (n: int)
    requires Declared(f)
    ensures 0 <= n < 7
  {
    match f
    case Weekly => 0
    case BiWeekly => 1
    case Monthly => 2
    case BiMonthly => 3
    case Quarterly => 4
    case Yearly => 5
    case BiYearly => 6
  }

  /** GetMonthlyMultiplier: 0.25, 0.5, 1, 2, 3, 12 and 24 months per period
      for the declared members, 0 for anything else. */
  function MonthlyMultiplier(f: Frequency): (m: real)
    ensures Declared(f) <==> m > 0.0
    ensures !Declared(f) ==> m == 0.0
  {
    match f
    case Weekly => 0.25
    case BiWeekly => 0.5
    case Monthly => 1.0
    case BiMonthly => 2.0
    case Quarterly => 3.0
    case Yearly => 12.0
    case BiYearly => 24.0
    case Undeclared(_) => 0.0
  }

  /** Multipliers strictly increase in declaration order, so no two declared
      frequencies share a period length. */
  lemma MultiplierIncreasesWithOrdinal(f: Frequency, g: Frequency)
    requires Declared(f) && Declared(g)
    ensures Ordinal(f) < Ordinal(g) <==> MonthlyMultiplier(f) < MonthlyMultiplier(g)
  {
  }

  /** The multipliers measure periods in months: a "bi" frequency spans two
      of its base period, a week is a quarter of a month, a quarter three
      months and a year twelve. */
  lemma MultipliersAreMonthsPerPeriod()
    ensures MonthlyMultiplier(Monthly) == 1.0
    ensures MonthlyMultiplier(Weekly) * 4.0 == MonthlyMultiplier(Monthly)
    ensures MonthlyMultiplier(BiWeekly) == 2.0 * MonthlyMultiplier(Weekly)
    ensures MonthlyMultiplier(BiMonthly) == 2.0 * MonthlyMultiplier(Monthly)
    ensures MonthlyMultiplier(Quarterly) == 3.0 * MonthlyMultiplier(Monthly)
    ensures MonthlyMultiplier(Yearly) == 12.0 * MonthlyMultiplier(Monthly)
    ensures MonthlyMultiplier(BiYearly) == 2.0 * MonthlyMultiplier(Yearly)
  {
  }

  /** Every declared frequency has a non-zero multiplier, so the annuity
      ratio 1200 / multiplier is defined for it. */
  lemma DeclaredHasRatio(f: Frequency)
    requires Declared(f)
    ensures MonthlyMultiplier(f) != 0.0 && 1200.0 / MonthlyMultiplier(f) > 0.0
  {
  }
}
