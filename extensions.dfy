/** Date stepping by repayment frequency: the day-of-month clamping
    AddMonths extension and the two AddFrequency overloads. */
module Extensions {
  import opened Failures
  import opened Decimals
  import opened Calendar
  import opened Common

  /** The months one step of a month-based frequency spans. */
  function PeriodMonths(f: Frequency): int {
    match f
    case Monthly => 1
    case BiMonthly => 2
    case Quarterly => 3
    case _ => 0
  }

  predicate MonthBased(f: Frequency) {
    f == Monthly || f == BiMonthly || f == Quarterly
  }

  /** AddMonths(dt, months, dayofmonth): the month `months` after dt's month
      (rolling the year over), on day dayofmonth clamped to that month's
      length. A day of month below 1 makes an invalid DateTime. */
  function AddMonthsClamped(dt: Date, months: int, dayOfMonth: int): (r: Result<Date>)
    ensures r.Ok? <==> MonthIndex(dt) + months >= 12 && dayOfMonth >= 1
    ensures r.Err? && MonthIndex(dt) + months >= 12 ==> r.error == InvalidDate
    ensures r.Ok? ==> MonthIndex(r.value) == MonthIndex(dt) + months
    ensures r.Ok? ==> r.value.day == MinInt(dayOfMonth, DaysInMonth(r.value.year, r.value.month))
  {
    var n :- NetAddMonths(CalendarDate(dt.year, dt.month, 1), months);
    var day := MinInt(dayOfMonth, DaysInMonth(n.year, n.month));
    if day < 1 then Err(InvalidDate) else Ok(CalendarDate(n.year, n.month, day))
  }

  /** AddFrequency(dt, frequency, dayofmonth): one repayment period on. */
  function AddFrequency(dt: Date, f: Frequency, dayOfMonth: int): (r: Result<Date>)
    ensures !Declared(f) ==> r == Err(InvalidFrequency)
    ensures Declared(f) && r.Err? ==> r.error == InvalidDate
  {
    match f
    case Weekly | BiWeekly => AddDays(dt, PeriodDays(f))
    case Monthly | BiMonthly | Quarterly => AddMonthsClamped(dt, PeriodMonths(f), dayOfMonth)
    case Yearly | BiYearly => NetAddYears(dt, PeriodYears(f))
    case Undeclared(_) => Err(InvalidFrequency)
  }

  /** The days one step of a weekly kind spans. */
  function PeriodDays(f: Frequency): int {
    if f == Weekly then 7 else 14
  }

  /** The years one step of a yearly kind spans. */
  function PeriodYears(f: Frequency): int {
    if f == Yearly then 1 else 2
  }

  /** A step fails only for an undeclared frequency, or for a month-based one
      asked for a day of month below 1. */
  lemma AddFrequencySucceeds(dt: Date, f: Frequency, dayOfMonth: int)
    ensures AddFrequency(dt, f, dayOfMonth).Ok? <==> Declared(f) && (MonthBased(f) ==> dayOfMonth >= 1)
  {
    if MonthBased(f) {
      assert AddFrequency(dt, f, dayOfMonth) == AddMonthsClamped(dt, PeriodMonths(f), dayOfMonth);
    }
  }

  /** The weekly kinds step 7 or 14 days on. */
  lemma AddFrequencyWeekly(dt: Date, f: Frequency, dayOfMonth: int)
    requires f == Weekly || f == BiWeekly
    ensures AddFrequency(dt, f, dayOfMonth).Ok?
    ensures DayNumber(AddFrequency(dt, f, dayOfMonth).value) == DayNumber(dt) + (if f == Weekly then 7 else 14)
  {
  }

  /** The month-based kinds step to the month 1, 2 or 3 on, on the asked
      day clamped to that month's length. */
  lemma AddFrequencyMonthly(dt: Date, f: Frequency, dayOfMonth: int)
    requires MonthBased(f) && dayOfMonth >= 1
    ensures AddFrequency(dt, f, dayOfMonth).Ok?
    ensures var r := AddFrequency(dt, f, dayOfMonth).value;
      && MonthIndex(r) == MonthIndex(dt) + PeriodMonths(f)
      && r.day == MinInt(dayOfMonth, DaysInMonth(r.year, r.month))
  {
  }

  /** The yearly kinds keep month and day 1 or 2 years on, 29 February
      falling back to the 28th in a common year. */
  lemma AddFrequencyYearly(dt: Date, f: Frequency, dayOfMonth: int)
    requires f == Yearly || f == BiYearly
    ensures AddFrequency(dt, f, dayOfMonth).Ok?
    ensures var r := AddFrequency(dt, f, dayOfMonth).value;
      && r.year == dt.year + (if f == Yearly then 1 else 2)
      && r.month == dt.month
      && r.day == (if dt.month == 2 && dt.day == 29 && !IsLeapYear(r.year) then 28 else dt.day)
  {
  }

  /** Every successful step lands strictly later than where it started, for
      every frequency and every day of month. */
  lemma AddFrequencyIsLater(dt: Date, f: Frequency, dayOfMonth: int)
    requires AddFrequency(dt, f, dayOfMonth).Ok?
    ensures Before(dt, AddFrequency(dt, f, dayOfMonth).value)
  {
    AddFrequencySucceeds(dt, f, dayOfMonth);
    var r := AddFrequency(dt, f, dayOfMonth).value;
    if MonthBased(f) {
      AddFrequencyMonthly(dt, f, dayOfMonth);
      LaterMonthIsLater(dt, r);
    } else if f == Yearly || f == BiYearly {
      AddFrequencyYearly(dt, f, dayOfMonth);
      assert LexBefore(dt, r);
      LexBeforeIsBefore(dt, r);
    } else {
      AddFrequencyWeekly(dt, f, dayOfMonth);
    }
  }

  /** AddFrequency(dt, increments, frequency): `increments` periods on, using
      DateTime's own AddDays, AddMonths and AddYears. */
  function AddFrequencyBy(dt: Date, increments: int, f: Frequency): (r: Result<Date>)
    ensures !Declared(f) ==> r == Err(InvalidFrequency)
    ensures r.Err? && Declared(f) ==> r.error == DateOutOfRange
    ensures f == Weekly && r.Ok? ==> DayNumber(r.value) == DayNumber(dt) + 7 * increments
    ensures f == BiWeekly && r.Ok? ==> DayNumber(r.value) == DayNumber(dt) + 14 * increments
    ensures MonthBased(f) && r.Ok? ==>
      && MonthIndex(r.value) == MonthIndex(dt) + PeriodMonths(f) * increments
      && r.value.day == MinInt(dt.day, DaysInMonth(r.value.year, r.value.month))
    ensures (f == Yearly || f == BiYearly) && r.Ok? ==>
      && r.value.year == dt.year + (if f == Yearly then 1 else 2) * increments
      && r.value.month == dt.month
  {
    match f
    case Weekly | BiWeekly => AddDays(dt, PeriodDays(f) * increments)
    case Monthly | BiMonthly | Quarterly => NetAddMonths(dt, PeriodMonths(f) * increments)
    case Yearly | BiYearly => NetAddYears(dt, PeriodYears(f) * increments)
    case Undeclared(_) => Err(InvalidFrequency)
  }

  /** With a positive number of increments the scaled overload never fails
      for a declared frequency and always moves forward. */
  lemma AddFrequencyByIsLater(dt: Date, increments: int, f: Frequency)
    requires Declared(f) && increments >= 1
    ensures AddFrequencyBy(dt, increments, f).Ok?
    ensures Before(dt, AddFrequencyBy(dt, increments, f).value)
  {
    var r := AddFrequencyBy(dt, increments, f).value;
    if MonthBased(f) {
      LaterMonthIsLater(dt, r);
    } else if f == Yearly || f == BiYearly {
      assert LexBefore(dt, r);
      LexBeforeIsBefore(dt, r);
    }
  }

  /** One increment of the scaled overload is one step of the day-of-month
      overload when the day of month asked for is dt's own day. */
  lemma OneIncrementIsOneStep(dt: Date, f: Frequency)
    requires Declared(f)
    ensures AddFrequencyBy(dt, 1, f) == AddFrequency(dt, f, dt.day)
  {
    var a, b := AddFrequencyBy(dt, 1, f), AddFrequency(dt, f, dt.day);
    if f == Weekly || f == BiWeekly {
      DayNumberInjective(a.value, b.value);
    } else {
      assert a.value.year == b.value.year && a.value.month == b.value.month;
    }
  }
}
