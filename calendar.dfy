/** The proleptic Gregorian calendar of .NET's DateTime, reduced to the date
    part: validity, day numbers, day and month and year stepping with the
    clamping rules of DateTime.AddDays, AddMonths and AddYears. */
module Calendar {
  import opened Failures
  import opened Decimals

  datatype CalendarDate = CalendarDate(year: int, month: int, day: int)

  predicate IsLeapYear(y: int) {
    y % 4 == 0 && (y % 100 != 0 || y % 400 == 0)
  }

  function DaysInYear(y: int): int {
    if IsLeapYear(y) then 366 else 365
  }

  /** DateTime.DaysInMonth. */
  function DaysInMonth(y: int, m: int): (n: int)
    requires 1 <= m <= 12
    ensures 28 <= n <= 31
    ensures n == 31 <==> m == 1 || m == 3 || m == 5 || m == 7 || m == 8 || m == 10 || m == 12
    ensures m == 2 ==> (n == 29 <==> IsLeapYear(y))
  {
    if m == 2 then (if IsLeapYear(y) then 29 else 28)
    else if m == 4 || m == 6 || m == 9 || m == 11 then 30
    else 31
  }

  predicate ValidDate(d: CalendarDate) {
    d.year >= 1 && 1 <= d.month <= 12 && 1 <= d.day <= DaysInMonth(d.year, d.month)
  }

  /** A date a DateTime can hold (the upper limit of year 9999 is not modelled). */
  type Date = d: CalendarDate | ValidDate(d) witness CalendarDate(1, 1, 1)

  /** DateTime.MinValue. */
  const MinValue: Date := CalendarDate(1, 1, 1)

  function DaysBeforeYear(y: int): nat
    requires y >= 1
    decreases y
  {
    if y == 1 then 0 else DaysBeforeYear(y - 1) + DaysInYear(y - 1)
  }

  function DaysBeforeMonth(y: int, m: int): nat
    requires 1 <= m <= 13
  {
    var common :=
      if m == 1 then 0 else if m == 2 then 31 else if m == 3 then 59
      else if m == 4 then 90 else if m == 5 then 120 else if m == 6 then 151
      else if m == 7 then 181 else if m == 8 then 212 else if m == 9 then 243
      else if m == 10 then 273 else if m == 11 then 304 else if m == 12 then 334
      else 365;
    common + (if IsLeapYear(y) && m > 2 then 1 else 0)
  }

  lemma DaysBeforeMonthStep(y: int, m: int)
    requires 1 <= m <= 12
    ensures DaysBeforeMonth(y, m + 1) == DaysBeforeMonth(y, m) + DaysInMonth(y, m)
    ensures DaysBeforeMonth(y, 13) == DaysInYear(y)
    ensures DaysBeforeMonth(y, m) + DaysInMonth(y, m) <= DaysInYear(y)
  {
  }

  /** Days elapsed since 0001-01-01: the scale on which DateTime compares
      and subtracts dates. */
  function DayNumber(d: Date): nat {
    DaysBeforeYear(d.year) + DaysBeforeMonth(d.year, d.month) + d.day - 1
  }

  /** Months elapsed since January of year 0. */
  function MonthIndex(d: Date): int {
    d.year * 12 + d.month - 1
  }

  predicate Before(a: Date, b: Date) {
    DayNumber(a) < DayNumber(b)
  }

  predicate AtOrBefore(a: Date, b: Date) {
    DayNumber(a) <= DayNumber(b)
  }

  predicate LexBefore(a: Date, b: Date) {
    a.year < b.year
    || (a.year == b.year && a.month < b.month)
    || (a.year == b.year && a.month == b.month && a.day < b.day)
  }

  lemma {:induction false} DaysBeforeYearGrows(y1: int, y2: int)
    requires 1 <= y1 < y2
    ensures DaysBeforeYear(y1) + DaysInYear(y1) <= DaysBeforeYear(y2)
    decreases y2 - y1
  {
    if y1 + 1 < y2 {
      DaysBeforeYearGrows(y1 + 1, y2);
    }
  }

  /** Day numbers follow calendar order: a date earlier by year, then month,
      then day has the smaller day number. */
  lemma LexBeforeIsBefore(a: Date, b: Date)
    requires LexBefore(a, b)
    ensures Before(a, b)
  {
    DaysBeforeMonthStep(a.year, a.month);
    if a.year < b.year {
      DaysBeforeYearGrows(a.year, b.year);
    } else if a.month < b.month {
      DaysBeforeMonthStep(a.year, b.month);
      DaysBeforeMonthIncreasing(a.year, a.month + 1, b.month);
    }
  }

  lemma {:induction false} DaysBeforeMonthIncreasing(y: int, m1: int, m2: int)
    requires 1 <= m1 <= m2 <= 13
    ensures DaysBeforeMonth(y, m1) <= DaysBeforeMonth(y, m2)
    decreases m2 - m1
  {
    if m1 < m2 {
      DaysBeforeMonthStep(y, m1);
      DaysBeforeMonthIncreasing(y, m1 + 1, m2);
    }
  }

  /** Different dates have different day numbers, so the day-number order is
      the calendar order. */
  lemma DayNumberInjective(a: Date, b: Date)
    requires DayNumber(a) == DayNumber(b)
    ensures a == b
  {
    if LexBefore(a, b) {
      LexBeforeIsBefore(a, b);
    } else if LexBefore(b, a) {
      LexBeforeIsBefore(b, a);
    }
  }

  lemma DayNumberEqualIff(a: Date, b: Date)
    ensures DayNumber(a) == DayNumber(b) <==> a == b
  {
    if DayNumber(a) == DayNumber(b) {
      DayNumberInjective(a, b);
    }
  }

  /** Calendar order and day-number order are the same order. */
  lemma LexBeforeIff(a: Date, b: Date)
    ensures LexBefore(a, b) <==> Before(a, b)
  {
    if LexBefore(a, b) {
      LexBeforeIsBefore(a, b);
    } else if LexBefore(b, a) {
      LexBeforeIsBefore(b, a);
    }
  }

  /** A date in a later month is a later date. */
  lemma LaterMonthIsLater(a: Date, b: Date)
    requires MonthIndex(a) < MonthIndex(b)
    ensures Before(a, b)
  {
    assert LexBefore(a, b);
    LexBeforeIsBefore(a, b);
  }

  /** The day after d. */
  function NextDay(d: Date): (r: Date)
    ensures DayNumber(r) == DayNumber(d) + 1
  {
    DaysBeforeMonthStep(d.year, d.month);
    if d.day < DaysInMonth(d.year, d.month) then CalendarDate(d.year, d.month, d.day + 1)
    else if d.month < 12 then CalendarDate(d.year, d.month + 1, 1)
    else CalendarDate(d.year + 1, 1, 1)
  }

  /** The day before d, DateTime.AddDays(-1); there is none before MinValue. */
  function PrevDay(d: Date): (r: Result<Date>)
    ensures r.Err? <==> d == MinValue
    ensures r.Err? ==> r.error == DateOutOfRange
  {
    if d.day > 1 then Ok(CalendarDate(d.year, d.month, d.day - 1))
    else if d.month > 1 then Ok(CalendarDate(d.year, d.month - 1, DaysInMonth(d.year, d.month - 1)))
    else if d.year > 1 then Ok(CalendarDate(d.year - 1, 12, 31))
    else Err(DateOutOfRange)
  }

  /** The day before is one day number less. */
  lemma PrevDayNumber(d: Date)
    requires d != MinValue
    ensures DayNumber(PrevDay(d).value) + 1 == DayNumber(d)
  {
    if d.day == 1 && d.month > 1 {
      DaysBeforeMonthStep(d.year, d.month - 1);
    } else if d.day == 1 {
      DaysBeforeMonthStep(d.year - 1, 12);
    }
  }

  /** NextDay and PrevDay undo each other. */
  lemma NextPrevRoundTrip(d: Date)
    ensures PrevDay(NextDay(d)) == Ok(d)
    ensures d != MinValue ==> NextDay(PrevDay(d).value) == d
  {
    var n := NextDay(d);
    PrevDayNumber(n);
    DayNumberInjective(PrevDay(n).value, d);
    if d != MinValue {
      PrevDayNumber(d);
      DayNumberInjective(NextDay(PrevDay(d).value), d);
    }
  }

  /** DateTime.AddDays(n): fails only when it would step before MinValue. */
  function AddDays(d: Date, n: int): (r: Result<Date>)
    ensures r.Ok? <==> DayNumber(d) + n >= 0
    ensures r.Err? ==> r.error == DateOutOfRange
    ensures r.Ok? ==> DayNumber(r.value) == DayNumber(d) + n
    decreases if n >= 0 then n else -n
  {
    if n == 0 then Ok(d)
    else if n > 0 then AddDays(NextDay(d), n - 1)
    else if d == MinValue then Err(DateOutOfRange)
    else PrevDayNumber(d); AddDays(PrevDay(d).value, n + 1)
  }

  /** DateTime.AddMonths(k): the same day in the month k months on, clamped
      to that month's length; fails when it would leave year 1 behind. */
  function NetAddMonths(d: Date, k: int): (r: Result<Date>)
    ensures r.Ok? <==> MonthIndex(d) + k >= 12
    ensures r.Err? ==> r.error == DateOutOfRange
    ensures r.Ok? ==> MonthIndex(r.value) == MonthIndex(d) + k
    ensures r.Ok? ==> r.value.day == MinInt(d.day, DaysInMonth(r.value.year, r.value.month))
  {
    var total := MonthIndex(d) + k;
    var y, m := total / 12, total % 12 + 1;
    if y < 1 then Err(DateOutOfRange)
    else Ok(CalendarDate(y, m, MinInt(d.day, DaysInMonth(y, m))))
  }

  /** DateTime.AddYears(k): the same month and day k years on, except that
      29 February becomes 28 February in a common year. */
  function NetAddYears(d: Date, k: int): (r: Result<Date>)
    ensures r.Ok? <==> d.year + k >= 1
    ensures r.Err? ==> r.error == DateOutOfRange
    ensures r.Ok? ==> r.value.year == d.year + k && r.value.month == d.month
    ensures r.Ok? ==>
      r.value.day == (if d.month == 2 && d.day == 29 && !IsLeapYear(d.year + k) then 28 else d.day)
  {
    var y := d.year + k;
    if y < 1 then Err(DateOutOfRange)
    else Ok(CalendarDate(y, d.month, MinInt(d.day, DaysInMonth(y, d.month))))
  }
}
