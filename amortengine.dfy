/** The repayment engine of the older AmortSchedule revision: its own interest
    formula, a date step that sets the day outright, a date table stepped by
    a number of months, and repayment generation that repeats whole passes,
    nudging the ideal repayment, until what they repay is within 1 of the
    balance, then settles the rest on the last entry. */
module AmortEngine {
  import opened Failures
  import opened Decimals
  import opened Calendar
  import opened Interest

  /** balance times rate / 100 over yearDays per day, for `days` days;
      the balance is not clamped. */
  function SignedInterest(balance: real, rate: real, yearDays: int, days: nat): real
    requires yearDays != 0
  {
    (balance * (rate / 100.0)) / yearDays as real * days as real
  }

  /** CalcInterest(from, to, balance, rate, yearDays): SignedInterest over
      |to - from| whole days; a day count of 0 divides by zero. */
  function CalcInterest(from: Date, to: Date, balance: real, rate: real, yearDays: int): (r: Result<real>)
    ensures r.Err? <==> yearDays == 0
    ensures r.Err? ==> r.error == DivideByZero
  {
    if yearDays == 0 then Err(DivideByZero)
    else Ok(SignedInterest(balance, rate, yearDays, DaysBetween(from, to)))
  }

  /** Scaling a balance by q / y is the same whichever way it is grouped. */
  lemma ScaleRegroup(balance: real, q: real, y: real)
    requires y != 0.0
    ensures (balance * q) / y == (q / y) * balance
  {
    var k := q / y;
    assert q == k * y;
    assert balance * q == (balance * k) * y;
  }

  /** The unclamped interest is the clamped one on a balance that is not
      negative, negative on a negative balance at a positive rate over some
      days, and 0 over no days. */
  lemma SignedInterestVersusAccrued(balance: real, rate: real, yearDays: int, days: nat)
    requires yearDays != 0
    ensures balance >= 0.0 ==> SignedInterest(balance, rate, yearDays, days) == Accrued(DailyRate(rate, yearDays), balance, days)
    ensures balance < 0.0 && rate > 0.0 && yearDays > 0 && days > 0 ==>
      SignedInterest(balance, rate, yearDays, days) < 0.0 == Accrued(DailyRate(rate, yearDays), balance, days)
    ensures days == 0 ==> SignedInterest(balance, rate, yearDays, days) == 0.0
  {
    var q := rate / 100.0;
    var y := yearDays as real;
    var daily := DailyRate(rate, yearDays);
    ScaleRegroup(balance, q, y);
    assert SignedInterest(balance, rate, yearDays, days) == daily * balance * days as real;
    if balance < 0.0 && rate > 0.0 && yearDays > 0 && days > 0 {
      assert daily > 0.0;
      assert daily * balance < 0.0;
    }
  }

  /** The whole-day count does not depend on the order of the dates. */
  lemma DaysBetweenSymmetric(from: Date, to: Date)
    ensures DaysBetween(from, to) == DaysBetween(to, from)
  {
  }

  /** CalcInterest agrees with Interest.Calculate on a balance that is not
      negative; on a negative balance it accrues negative interest where
      Calculate accrues none. Either way it is 0 over no days and does not
      depend on the order of the dates. */
  lemma CalcInterestVersusCalculate(from: Date, to: Date, balance: real, rate: real, yearDays: int)
    requires yearDays != 0
    ensures balance >= 0.0 ==> CalcInterest(from, to, balance, rate, yearDays) == Calculate(from, to, balance, rate, yearDays)
    ensures balance < 0.0 && rate > 0.0 && yearDays > 0 && from != to ==>
      CalcInterest(from, to, balance, rate, yearDays).value < 0.0 == Calculate(from, to, balance, rate, yearDays).value
    ensures from == to ==> CalcInterest(from, to, balance, rate, yearDays) == Ok(0.0)
    ensures CalcInterest(from, to, balance, rate, yearDays) == CalcInterest(to, from, balance, rate, yearDays)
  {
    SignedInterestVersusAccrued(balance, rate, yearDays, DaysBetween(from, to));
    DaysBetweenSymmetric(from, to);
  }

  /** NextDateUsingFrequency(period, last, day): `period` months on from
      last, on exactly `day`; a day the target month does not have is an
      invalid date. */
  function NextDateUsingFrequency(period: int, last: Date, day: int): (r: Result<Date>) {
    var n :- NetAddMonths(last, period);
    if 1 <= day <= DaysInMonth(n.year, n.month) then Ok(CalendarDate(n.year, n.month, day))
    else Err(InvalidDate)
  }

  /** The step lands `period` months on, on the day asked for, and fails
      exactly when that month is out of range or lacks the day; a positive
      period always moves forward. */
  lemma NextDateUsingFrequencyLands(period: int, last: Date, day: int)
    ensures var r := NextDateUsingFrequency(period, last, day);
      && (r.Ok? <==> MonthIndex(last) + period >= 12
                     && 1 <= day <= DaysInMonth((MonthIndex(last) + period) / 12, (MonthIndex(last) + period) % 12 + 1))
      && (r.Ok? ==> MonthIndex(r.value) == MonthIndex(last) + period && r.value.day == day)
      && (r.Ok? && period >= 1 ==> Before(last, r.value))
  {
    var r := NextDateUsingFrequency(period, last, day);
    var n := NetAddMonths(last, period);
    if n.Ok? {
      assert n.value.year == (MonthIndex(last) + period) / 12 && n.value.month == (MonthIndex(last) + period) % 12 + 1;
      if r.Ok? && period >= 1 {
        LaterMonthIsLater(last, r.value);
      }
    }
  }

  /** The dates after dtLast, each one step on from the one before, while
      they stay at or before the end; at most `fuel` steps. */
  function PeriodRest(period: int, dtLast: Date, end: Date, day: int, fuel: nat): Result<seq<Date>>
    decreases fuel
  {
    if fuel == 0 then Err(DoesNotTerminate)
    else
      var dt :- NextDateUsingFrequency(period, dtLast, day);
      if Before(end, dt) then Ok([])
      else
        var tail :- PeriodRest(period, dt, end, day, fuel - 1);
        Ok([dt] + tail)
  }

  /** BuildDateTable(period, start, end, day, useStartAsFirst): the day
      checks, then the start itself first when asked (and when it is not
      past the end), then the dates after it. There is no check that the
      end is not before the start. */
  function PeriodTable(period: int, start: Date, end: Date, day: int, useStartAsFirst: bool, fuel: nat): Result<seq<Date>> {
    if day < 1 then Err(DayBelowOne)
    else if day > 31 then Err(DayAboveThirtyOne)
    else if useStartAsFirst then
      if Before(end, start) then Ok([])
      else
        var rest :- PeriodRest(period, start, end, day, fuel);
        Ok([start] + rest)
    else PeriodRest(period, start, end, day, fuel)
  }

  /** `list` followed by the dates after dtLast. */
  function PeriodFinish(list: seq<Date>, period: int, dtLast: Date, end: Date, day: int, fuel: nat): Result<seq<Date>> {
    var tail :- PeriodRest(period, dtLast, end, day, fuel);
    Ok(list + tail)
  }

  /** One turn of the loop in terms of the rest of the table. */
  lemma PeriodFinishAdvance(list: seq<Date>, period: int, dtLast: Date, end: Date, day: int, fuel: nat)
    requires fuel > 0
    ensures var next := NextDateUsingFrequency(period, dtLast, day);
      && (next.Err? ==> PeriodFinish(list, period, dtLast, end, day, fuel) == Err(next.error))
      && (next.Ok? && Before(end, next.value) ==> PeriodFinish(list, period, dtLast, end, day, fuel) == Ok(list))
      && (next.Ok? && !Before(end, next.value) ==>
            PeriodFinish(list, period, dtLast, end, day, fuel) == PeriodFinish(list + [next.value], period, next.value, end, day, fuel - 1))
  {
    var next := NextDateUsingFrequency(period, dtLast, day);
    if next.Ok? && !Before(end, next.value) {
      var tail := PeriodRest(period, next.value, end, day, fuel - 1);
      if tail.Ok? {
        assert list + ([next.value] + tail.value) == (list + [next.value]) + tail.value;
      }
    }
    assert list + [] == list;
  }

  /** BuildDateTable of the older engine, with at most `fuel` steps. */
  method BuildDateTableByPeriod(period: int, start: Date, end: Date, day: int, useStartAsFirst: bool, fuel: nat)
    returns (r: Result<seq<Date>>)
    ensures r == PeriodTable(period, start, end, day, useStartAsFirst, fuel)
  {
    if day < 1 {
      return Err(DayBelowOne);
    }
    if day > 31 {
      return Err(DayAboveThirtyOne);
    }
    var list: seq<Date> := [];
    var dtLast := start;
    if useStartAsFirst {
      if Before(end, start) {
        return Ok([]);
      }
      list := [start];
    }
    var remaining := fuel;
    assert PeriodFinish(list, period, dtLast, end, day, remaining) == PeriodTable(period, start, end, day, useStartAsFirst, fuel) by {
      var rest := PeriodRest(period, start, end, day, fuel);
      if rest.Ok? && !useStartAsFirst {
        assert [] + rest.value == rest.value;
      }
    }
    while true
      invariant PeriodFinish(list, period, dtLast, end, day, remaining) == PeriodTable(period, start, end, day, useStartAsFirst, fuel)
      decreases remaining
    {
      if remaining == 0 {
        return Err(DoesNotTerminate);
      }
      var next := NextDateUsingFrequency(period, dtLast, day);
      PeriodFinishAdvance(list, period, dtLast, end, day, remaining);
      if next.Err? {
        return Err(next.error);
      }
      if Before(end, next.value) {
        return Ok(list);
      }
      list := list + [next.value];
      dtLast := next.value;
      remaining := remaining - 1;
    }
  }

  /** One step of PeriodRest: a non-empty rest starts with the next date,
      which is not past the end, and goes on with the rest from there. */
  lemma PeriodRestUnfold(period: int, dtLast: Date, end: Date, day: int, fuel: nat, next: nat)
    requires fuel == next + 1
    requires PeriodRest(period, dtLast, end, day, fuel).Ok?
    requires PeriodRest(period, dtLast, end, day, fuel).value != []
    ensures NextDateUsingFrequency(period, dtLast, day).Ok?
    ensures var dt := NextDateUsingFrequency(period, dtLast, day).value;
      && !Before(end, dt)
      && PeriodRest(period, dt, end, day, next).Ok?
      && PeriodRest(period, dtLast, end, day, fuel).value == [dt] + PeriodRest(period, dt, end, day, next).value
  {
  }

  lemma BoundedCons(dt: Date, tail: seq<Date>, end: Date)
    requires AtOrBefore(dt, end)
    requires forall i :: 0 <= i < |tail| ==> AtOrBefore(tail[i], end)
    ensures forall i :: 0 <= i < |[dt] + tail| ==> AtOrBefore(([dt] + tail)[i], end)
  {
    forall i | 0 < i < |[dt] + tail| ensures AtOrBefore(([dt] + tail)[i], end) {
      assert ([dt] + tail)[i] == tail[i - 1];
    }
  }

  /** The dates after dtLast stay at or before the end. */
  lemma {:induction false} PeriodRestBounded(period: int, dtLast: Date, end: Date, day: int, fuel: nat)
    requires PeriodRest(period, dtLast, end, day, fuel).Ok?
    ensures var ds := PeriodRest(period, dtLast, end, day, fuel).value;
      forall i :: 0 <= i < |ds| ==> AtOrBefore(ds[i], end)
    decreases fuel
  {
    if PeriodRest(period, dtLast, end, day, fuel).value != [] {
      var next: nat := fuel - 1;
      PeriodRestUnfold(period, dtLast, end, day, fuel, next);
      var dt := NextDateUsingFrequency(period, dtLast, day).value;
      PeriodRestBounded(period, dt, end, day, next);
      BoundedCons(dt, PeriodRest(period, dt, end, day, next).value, end);
    }
  }

  /** With a forward period, fuel for one step per month between dtLast
      and the end is enough: the walk may fail on a date, but it does not
      run out. */
  lemma {:induction false} PeriodRestFuelSuffices(period: int, dtLast: Date, end: Date, day: int, fuel: nat)
    requires period >= 1 && fuel >= 1 && fuel > MonthIndex(end) - MonthIndex(dtLast)
    ensures PeriodRest(period, dtLast, end, day, fuel) != Err(DoesNotTerminate)
    decreases fuel
  {
    var n := NextDateUsingFrequency(period, dtLast, day);
    if n.Ok? && !Before(end, n.value) {
      NextDateUsingFrequencyLands(period, dtLast, day);
      if MonthIndex(end) < MonthIndex(n.value) {
        LaterMonthIsLater(end, n.value);
      }
      PeriodRestFuelSuffices(period, n.value, end, day, fuel - 1);
    }
  }

  /** The date table of the older engine never runs out of fuel when the
      fuel exceeds the number of months from the start to the end. */
  lemma PeriodTableFuelSuffices(period: int, start: Date, end: Date, day: int, useStartAsFirst: bool, fuel: nat)
    requires period >= 1 && fuel >= 1 && fuel > MonthIndex(end) - MonthIndex(start)
    ensures PeriodTable(period, start, end, day, useStartAsFirst, fuel) != Err(DoesNotTerminate)
  {
    PeriodRestFuelSuffices(period, start, end, day, fuel);
  }

  lemma StepsCons(period: int, dtLast: Date, day: int, dt: Date, tail: seq<Date>)
    requires NextDateUsingFrequency(period, dtLast, day) == Ok(dt)
    requires |tail| > 0 ==> NextDateUsingFrequency(period, dt, day) == Ok(tail[0])
    requires forall i :: 0 < i < |tail| ==> NextDateUsingFrequency(period, tail[i - 1], day) == Ok(tail[i])
    ensures forall i :: 0 < i < |[dt] + tail| ==> NextDateUsingFrequency(period, ([dt] + tail)[i - 1], day) == Ok(([dt] + tail)[i])
  {
    var ds := [dt] + tail;
    forall i | 0 < i < |ds|
      ensures NextDateUsingFrequency(period, ds[i - 1], day) == Ok(ds[i])
    {
      assert ds[i] == tail[i - 1];
      if i > 1 {
        assert ds[i - 1] == tail[i - 2];
      }
    }
  }

  /** The first date after dtLast is one step on from it, and each later
      one is one step on from the date before. */
  lemma {:induction false} PeriodRestSteps(period: int, dtLast: Date, end: Date, day: int, fuel: nat)
    requires PeriodRest(period, dtLast, end, day, fuel).Ok?
    ensures var ds := PeriodRest(period, dtLast, end, day, fuel).value;
      && (|ds| > 0 ==> NextDateUsingFrequency(period, dtLast, day) == Ok(ds[0]))
      && (forall i :: 0 < i < |ds| ==> NextDateUsingFrequency(period, ds[i - 1], day) == Ok(ds[i]))
    decreases fuel
  {
    if PeriodRest(period, dtLast, end, day, fuel).value != [] {
      var next: nat := fuel - 1;
      PeriodRestUnfold(period, dtLast, end, day, fuel, next);
      var dt := NextDateUsingFrequency(period, dtLast, day).value;
      PeriodRestSteps(period, dt, end, day, next);
      StepsCons(period, dtLast, day, dt, PeriodRest(period, dt, end, day, next).value);
    }
  }

  /** Month indices that each grow on the one before (the first on
      `from`'s) grow pairwise. */
  lemma {:induction false} MonthChain(ds: seq<Date>, from: Date)
    requires |ds| > 0 ==> MonthIndex(from) < MonthIndex(ds[0])
    requires forall i :: 0 < i < |ds| ==> MonthIndex(ds[i - 1]) < MonthIndex(ds[i])
    ensures forall i :: 0 <= i < |ds| ==> MonthIndex(from) < MonthIndex(ds[i])
    ensures forall i, j :: 0 <= i < j < |ds| ==> MonthIndex(ds[i]) < MonthIndex(ds[j])
  {
    if |ds| > 1 {
      var init := ds[..|ds| - 1];
      forall i | 0 < i < |init| ensures MonthIndex(init[i - 1]) < MonthIndex(init[i]) {
        assert init[i] == ds[i] && init[i - 1] == ds[i - 1];
      }
      MonthChain(init, from);
      var last := |ds| - 1;
      forall i | 0 <= i < |ds| ensures MonthIndex(from) < MonthIndex(ds[i]) {
        if i < last {
          assert ds[i] == init[i];
        } else {
          assert ds[last - 1] == init[last - 1];
        }
      }
      forall i, j | 0 <= i < j < |ds| ensures MonthIndex(ds[i]) < MonthIndex(ds[j]) {
        assert ds[i] == init[i];
        if j < last {
          assert ds[j] == init[j];
        } else if i < last - 1 {
          assert ds[last - 1] == init[last - 1];
        }
      }
    }
  }

  /** With a positive period the dates after dtLast strictly ascend from
      it. */
  lemma PeriodRestAscends(period: int, dtLast: Date, end: Date, day: int, fuel: nat)
    requires period >= 1 && PeriodRest(period, dtLast, end, day, fuel).Ok?
    ensures var ds := PeriodRest(period, dtLast, end, day, fuel).value;
      && (forall i :: 0 <= i < |ds| ==> MonthIndex(dtLast) < MonthIndex(ds[i]))
      && (forall i, j :: 0 <= i < j < |ds| ==> MonthIndex(ds[i]) < MonthIndex(ds[j]))
  {
    var ds := PeriodRest(period, dtLast, end, day, fuel).value;
    PeriodRestSteps(period, dtLast, end, day, fuel);
    if |ds| > 0 {
      NextDateUsingFrequencyLands(period, dtLast, day);
    }
    forall i | 0 < i < |ds| ensures MonthIndex(ds[i - 1]) < MonthIndex(ds[i]) {
      NextDateUsingFrequencyLands(period, ds[i - 1], day);
    }
    MonthChain(ds, dtLast);
  }

  /** Putting a date at or before the end, in an earlier month than all of
      `rest`, in front of `rest` keeps the dates bounded and ascending. */
  lemma StartThenRest(start: Date, rest: seq<Date>, end: Date, ascending: bool)
    requires AtOrBefore(start, end)
    requires forall i :: 0 <= i < |rest| ==> AtOrBefore(rest[i], end)
    requires ascending ==> forall i :: 0 <= i < |rest| ==> MonthIndex(start) < MonthIndex(rest[i])
    requires ascending ==> forall i, j :: 0 <= i < j < |rest| ==> MonthIndex(rest[i]) < MonthIndex(rest[j])
    ensures var ds := [start] + rest;
      && (forall i :: 0 <= i < |ds| ==> AtOrBefore(ds[i], end))
      && (ascending ==> forall i, j :: 0 <= i < j < |ds| ==> MonthIndex(ds[i]) < MonthIndex(ds[j]))
  {
    var ds := [start] + rest;
    forall i | 0 < i < |ds| ensures AtOrBefore(ds[i], end) {
      assert ds[i] == rest[i - 1];
    }
    if ascending {
      forall i, j | 0 <= i < j < |ds| ensures MonthIndex(ds[i]) < MonthIndex(ds[j]) {
        assert ds[j] == rest[j - 1];
        if i > 0 {
          assert ds[i] == rest[i - 1];
        }
      }
    }
  }

  /** The table holds only dates at or before the end; the start is its
      first date when asked for; with a positive period the dates strictly
      ascend, so the start is the first date only when asked for. */
  lemma PeriodTableShape(period: int, start: Date, end: Date, day: int, useStartAsFirst: bool, fuel: nat)
    requires PeriodTable(period, start, end, day, useStartAsFirst, fuel).Ok?
    ensures 1 <= day <= 31
    ensures var ds := PeriodTable(period, start, end, day, useStartAsFirst, fuel).value;
      && (forall i :: 0 <= i < |ds| ==> AtOrBefore(ds[i], end))
      && (useStartAsFirst && AtOrBefore(start, end) ==> |ds| > 0 && ds[0] == start)
      && (period >= 1 ==> forall i, j :: 0 <= i < j < |ds| ==> MonthIndex(ds[i]) < MonthIndex(ds[j]))
      && (period >= 1 && |ds| > 0 ==> (ds[0] == start <==> useStartAsFirst))
  {
    var ds := PeriodTable(period, start, end, day, useStartAsFirst, fuel).value;
    if useStartAsFirst && Before(end, start) {
      return;
    }
    var rest := PeriodRest(period, start, end, day, fuel).value;
    PeriodRestBounded(period, start, end, day, fuel);
    if period >= 1 {
      PeriodRestAscends(period, start, end, day, fuel);
    }
    if useStartAsFirst {
      assert ds == [start] + rest;
      StartThenRest(start, rest, end, period >= 1);
    } else {
      assert ds == rest;
      if period >= 1 && |ds| > 0 {
        assert MonthIndex(start) < MonthIndex(ds[0]);
      }
    }
  }

  /** Dates in later months are later dates. */
  lemma MonthsAscendingIsAscending(ds: seq<Date>)
    requires forall i, j :: 0 <= i < j < |ds| ==> MonthIndex(ds[i]) < MonthIndex(ds[j])
    ensures forall i, j :: 0 <= i < j < |ds| ==> Before(ds[i], ds[j])
  {
    forall i, j | 0 <= i < j < |ds| ensures Before(ds[i], ds[j]) {
      LaterMonthIsLater(ds[i], ds[j]);
    }
  }

  /** One repayment entry of the older engine: its date and the capital
      and interest the passes write into it. */
  datatype Row = Row(date: Date, capital: real, interest: real)

  /** The |capital| summed over all rows. */
  function AbsTotal(rows: seq<Row>): real
    decreases |rows|
  {
    if |rows| == 0 then 0.0 else AbsTotal(rows[..|rows| - 1]) + Abs(rows[|rows| - 1].capital)
  }

  /** The |capital| summed over the rows dated strictly before d. */
  function AbsBefore(rows: seq<Row>, d: Date): real
    decreases |rows|
  {
    if |rows| == 0 then 0.0
    else AbsBefore(rows[..|rows| - 1], d) + (if LexBefore(rows[|rows| - 1].date, d) then Abs(rows[|rows| - 1].capital) else 0.0)
  }

  /** Some row is dated strictly after d. */
  predicate AnyLater(rows: seq<Row>, d: Date) {
    exists i :: 0 <= i < |rows| && LexBefore(d, rows[i].date)
  }

  /** Two row lists with the same dates in the same places. */
  predicate SameDates(a: seq<Row>, b: seq<Row>) {
    |a| == |b| && forall i :: 0 <= i < |a| ==> a[i].date == b[i].date
  }

  lemma SameDatesAnyLater(a: seq<Row>, b: seq<Row>, d: Date)
    requires SameDates(a, b)
    ensures AnyLater(a, d) <==> AnyLater(b, d)
  {
    if AnyLater(a, d) {
      var i :| 0 <= i < |a| && LexBefore(d, a[i].date);
      assert LexBefore(d, b[i].date);
    }
    if AnyLater(b, d) {
      var i :| 0 <= i < |b| && LexBefore(d, b[i].date);
      assert LexBefore(d, a[i].date);
    }
  }

  /** Row k of one pass, worked out from the rows as they stand (those
      before k already rewritten by this pass): the balance still owed is
      the balance less the |capital| of the rows dated before this one;
      interest accrues on it from dtLast to the day before this date at a
      364-day year, unless dtLast is this date, on top of `due`; the capital
      is 0 when the rounded interest exceeds the ideal, the smaller of the
      balance still owed and the ideal when no row is dated later, and what
      the ideal leaves after the interest otherwise. A row dated at
      MinValue has no day before it. */
  function RowAt(state: seq<Row>, k: nat, dtLast: Date, due: real, ideal: real, balance: real, rate: real): (r: Result<Row>)
    requires k < |state|
    ensures r.Err? <==> state[k].date == MinValue
    ensures r.Ok? ==> && r.value.date == state[k].date
                      && IsCents(r.value.capital) && IsCents(r.value.interest)
                      && (r.value.interest > ideal ==> r.value.capital == 0.0)
    ensures r.Ok? && IsCents(ideal) && r.value.interest <= ideal && AnyLater(state, state[k].date) ==>
              r.value.capital + r.value.interest == ideal
    ensures r.Ok? && IsCents(ideal) && r.value.interest <= ideal && !AnyLater(state, state[k].date) ==>
              r.value.capital <= ideal
  {
    var date := state[k].date;
    var current := balance - AbsBefore(state, date);
    var _ :- PrevDay(date);
    Ok(RowOf(date, RowAccrued(dtLast, date, due, current, rate), current, ideal, AnyLater(state, date)))
  }

  /** The row a pass writes on `date`, from the interest accrued before
      rounding, the balance still owed and whether a later row exists: the
      interest rounded to cents; no capital when it exceeds the ideal, the
      smaller of the balance still owed and the ideal on the latest row,
      and what the ideal leaves after the interest otherwise, rounded to
      cents. */
  function RowOf(date: Date, accrued: real, current: real, ideal: real, later: bool): (r: Row)
    ensures r.date == date && IsCents(r.capital) && IsCents(r.interest)
    ensures r.interest > ideal ==> r.capital == 0.0
    ensures IsCents(ideal) && r.interest <= ideal && later ==> r.capital + r.interest == ideal
    ensures IsCents(ideal) && r.interest <= ideal && !later ==> r.capital <= ideal
  {
    var interest := Round2(accrued);
    var capital := if interest > ideal then 0.0 else if !later then Min(current, ideal) else ideal - interest;
    LevelCapital(ideal, interest, capital);
    Row(date, Round2(capital), interest)
  }

  /** The interest a row dated `date` accrues before rounding: the
      opening interest `due`, plus CalcInterest at a 364-day year from
      dtLast to the day before `date` on the balance still owed, unless
      dtLast is `date` itself. */
  function RowAccrued(dtLast: Date, date: Date, due: real, current: real, rate: real): real
    requires date != MinValue
  {
    due + (if dtLast != date then CalcInterest(dtLast, PrevDay(date).value, current, rate, 364).value else 0.0)
  }

  /** Rounding what a whole-cents ideal leaves after whole-cents interest
      changes nothing, and rounding a capital at most the ideal keeps it at
      most the ideal. */
  lemma LevelCapital(ideal: real, interest: real, capital: real)
    requires IsCents(interest)
    ensures IsCents(ideal) && capital == ideal - interest ==> Round2(capital) + interest == ideal
    ensures IsCents(ideal) && capital <= ideal ==> Round2(capital) <= ideal
  {
    if IsCents(ideal) {
      if capital == ideal - interest {
        CentsClosed(ideal, interest);
        Round2OfCents(capital);
      }
      if capital <= ideal {
        Round2Monotone(capital, ideal);
        Round2OfCents(ideal);
      }
    }
  }

  /** The rest of one pass from row k on. */
  function PassFrom(state: seq<Row>, k: nat, dtLast: Date, due: real, ideal: real, balance: real, rate: real): (r: Result<seq<Row>>)
    requires k <= |state|
    ensures r.Ok? ==> |r.value| == |state|
    decreases |state| - k
  {
    if k == |state| then Ok(state)
    else
      var row :- RowAt(state, k, dtLast, due, ideal, balance, rate);
      PassFrom(state[k := row], k + 1, row.date, 0.0, ideal, balance, rate)
  }

  /** Row i keeps to the pass's rule for a whole-cents ideal: whole cents;
      no capital when the interest exceeds the ideal; otherwise capital and
      interest make up exactly the ideal, except on a row no other row is
      dated after, whose capital is at most the ideal. */
  predicate LevelRow(rows: seq<Row>, i: nat, ideal: real)
    requires i < |rows|
  {
    var e := rows[i];
    && IsCents(e.capital) && IsCents(e.interest)
    && (e.interest > ideal ==> e.capital == 0.0)
    && (IsCents(ideal) && e.interest <= ideal ==>
          if AnyLater(rows, e.date) then e.capital + e.interest == ideal else e.capital <= ideal)
  }

  /** A pass from row k keeps the dates and the rows before k, and leaves
      every row from k on keeping to the rule. */
  lemma {:induction false} PassFromLevel(state: seq<Row>, k: nat, dtLast: Date, due: real, ideal: real, balance: real, rate: real)
    requires k <= |state|
    requires PassFrom(state, k, dtLast, due, ideal, balance, rate).Ok?
    ensures var r := PassFrom(state, k, dtLast, due, ideal, balance, rate).value;
      && SameDates(r, state) && r[..k] == state[..k]
      && forall i :: k <= i < |r| ==> LevelRow(r, i, ideal)
    decreases |state| - k
  {
    if k < |state| {
      var row := RowAt(state, k, dtLast, due, ideal, balance, rate).value;
      var next := state[k := row];
      PassFromLevel(next, k + 1, row.date, 0.0, ideal, balance, rate);
      var r := PassFrom(state, k, dtLast, due, ideal, balance, rate).value;
      assert r == PassFrom(next, k + 1, row.date, 0.0, ideal, balance, rate).value;
      assert r[k] == next[..k + 1][k] == row;
      assert r[..k] == next[..k + 1][..k] == state[..k];
      SameDatesAnyLater(state, r, row.date);
    }
  }

  /** Each row of a pass is worked out from the rows as they then stand,
      those before it already rewritten: the opening interest `due` goes
      into row k alone, and each later row accrues from the date of the row
      before it. */
  lemma {:induction false} PassFromInPlace(state: seq<Row>, k: nat, dtLast: Date, due: real, ideal: real, balance: real, rate: real)
    requires k <= |state|
    requires PassFrom(state, k, dtLast, due, ideal, balance, rate).Ok?
    ensures var r := PassFrom(state, k, dtLast, due, ideal, balance, rate).value;
      && |r| == |state| && r[..k] == state[..k]
      && forall i :: k <= i < |r| ==>
           RowAt(r[..i] + state[i..], i, if i == k then dtLast else r[i - 1].date, if i == k then due else 0.0, ideal, balance, rate) == Ok(r[i])
    decreases |state| - k
  {
    if k < |state| {
      var row := RowAt(state, k, dtLast, due, ideal, balance, rate).value;
      var next := state[k := row];
      PassFromInPlace(next, k + 1, row.date, 0.0, ideal, balance, rate);
      var r := PassFrom(state, k, dtLast, due, ideal, balance, rate).value;
      assert r == PassFrom(next, k + 1, row.date, 0.0, ideal, balance, rate).value;
      assert r[k] == next[..k + 1][k] == row;
      assert r[..k] == next[..k + 1][..k] == state[..k];
      assert r[..k] + state[k..] == state;
      forall i | k < i < |r|
        ensures RowAt(r[..i] + state[i..], i, r[i - 1].date, 0.0, ideal, balance, rate) == Ok(r[i])
      {
        assert next[i..] == state[i..];
        if i == k + 1 {
          assert r[i - 1] == row;
        }
      }
    }
  }

  /** Row k of a pass from row k is RowAt of the rows as given. */
  lemma PassFromFirstRow(state: seq<Row>, k: nat, dtLast: Date, due: real, ideal: real, balance: real, rate: real)
    requires k < |state|
    requires PassFrom(state, k, dtLast, due, ideal, balance, rate).Ok?
    ensures |PassFrom(state, k, dtLast, due, ideal, balance, rate).value| == |state|
    ensures RowAt(state, k, dtLast, due, ideal, balance, rate) == Ok(PassFrom(state, k, dtLast, due, ideal, balance, rate).value[k])
  {
    var row := RowAt(state, k, dtLast, due, ideal, balance, rate).value;
    var next := state[k := row];
    PassFromLevel(next, k + 1, row.date, 0.0, ideal, balance, rate);
    var r := PassFrom(state, k, dtLast, due, ideal, balance, rate).value;
    assert r == PassFrom(next, k + 1, row.date, 0.0, ideal, balance, rate).value;
    assert r[k] == next[..k + 1][k];
  }

  /** Row i of a pass after row k is RowAt of the rows as they then stand. */
  lemma PassFromLaterRow(state: seq<Row>, k: nat, dtLast: Date, due: real, ideal: real, balance: real, rate: real, i: nat)
    requires k < i < |state|
    requires PassFrom(state, k, dtLast, due, ideal, balance, rate).Ok?
    ensures var r := PassFrom(state, k, dtLast, due, ideal, balance, rate).value;
      |r| == |state| && RowAt(r[..i] + state[i..], i, r[i - 1].date, 0.0, ideal, balance, rate) == Ok(r[i])
  {
    PassFromInPlace(state, k, dtLast, due, ideal, balance, rate);
  }

  /** The rule a row written by a pass keeps, given the rows as they stood
      when it was written, the date it accrues from, its opening interest
      and whether some row is dated after it: its interest is the opening
      interest plus the 364-day interest from that date to the day before
      its own on the balance still owed (none when the two dates coincide),
      rounded to cents; its capital is none when that interest exceeds the
      ideal, what the ideal leaves after the interest when a later row
      exists, and otherwise the smaller of the balance still owed and the
      ideal, rounded to cents. */
  predicate KeepsRule(row: Row, rows: seq<Row>, dtLast: Date, due: real, ideal: real, balance: real, rate: real, later: bool) {
    var current := balance - AbsBefore(rows, row.date);
    && row.date != MinValue
    && row.interest == Round2(RowAccrued(dtLast, row.date, due, current, rate))
    && (row.interest > ideal ==> row.capital == 0.0)
    && (row.interest <= ideal && later ==> row.capital == Round2(ideal - row.interest))
    && (row.interest <= ideal && !later ==> row.capital == Round2(Min(current, ideal)))
  }

  /** Row k of a pass from row k keeps the rule on the rows as given, from
      dtLast with the opening interest `due`. */
  lemma PassFromFirstRule(state: seq<Row>, k: nat, dtLast: Date, due: real, ideal: real, balance: real, rate: real)
    requires k < |state|
    requires PassFrom(state, k, dtLast, due, ideal, balance, rate).Ok?
    ensures var r := PassFrom(state, k, dtLast, due, ideal, balance, rate).value;
      && |r| == |state| && r[k].date == state[k].date
      && KeepsRule(r[k], state, dtLast, due, ideal, balance, rate, AnyLater(r, r[k].date))
  {
    var r := PassFrom(state, k, dtLast, due, ideal, balance, rate).value;
    PassFromFirstRow(state, k, dtLast, due, ideal, balance, rate);
    RowRule(state, k, dtLast, due, ideal, balance, rate, r[k]);
    PassFromSameDates(state, k, dtLast, due, ideal, balance, rate);
    SameDatesAnyLater(state, r, r[k].date);
  }

  /** Row i after row k of a pass keeps the rule on the rows as they stand
      in place, those before i already rewritten, from the previous row's
      date with no opening interest. */
  lemma PassFromLaterRule(state: seq<Row>, k: nat, dtLast: Date, due: real, ideal: real, balance: real, rate: real, i: nat)
    requires k < i < |state|
    requires PassFrom(state, k, dtLast, due, ideal, balance, rate).Ok?
    ensures var r := PassFrom(state, k, dtLast, due, ideal, balance, rate).value;
      && |r| == |state| && r[i].date == state[i].date
      && KeepsRule(r[i], r[..i] + state[i..], r[i - 1].date, 0.0, ideal, balance, rate, AnyLater(r, r[i].date))
  {
    var r := PassFrom(state, k, dtLast, due, ideal, balance, rate).value;
    PassFromLaterRow(state, k, dtLast, due, ideal, balance, rate, i);
    RowRule(r[..i] + state[i..], i, r[i - 1].date, 0.0, ideal, balance, rate, r[i]);
    PassFromSameDates(state, k, dtLast, due, ideal, balance, rate);
    MixedSameDates(r, state, i);
    SameDatesAnyLater(r[..i] + state[i..], r, r[i].date);
  }

  lemma PassFromSameDates(state: seq<Row>, k: nat, dtLast: Date, due: real, ideal: real, balance: real, rate: real)
    requires k <= |state|
    requires PassFrom(state, k, dtLast, due, ideal, balance, rate).Ok?
    ensures SameDates(PassFrom(state, k, dtLast, due, ideal, balance, rate).value, state)
  {
    PassFromLevel(state, k, dtLast, due, ideal, balance, rate);
  }

  /** Rows rewritten up to i, the rest as they were, have the same dates. */
  lemma MixedSameDates(r: seq<Row>, state: seq<Row>, i: nat)
    requires SameDates(r, state) && i <= |r|
    ensures SameDates(r[..i] + state[i..], r)
  {
    var mixed := r[..i] + state[i..];
    forall j | 0 <= j < |mixed| ensures mixed[j].date == r[j].date {
      if j >= i {
        assert mixed[j] == state[j];
      }
    }
  }

  /** RowAt's rule for the row it made. */
  lemma RowRule(state: seq<Row>, k: nat, dtLast: Date, due: real, ideal: real, balance: real, rate: real, row: Row)
    requires k < |state| && RowAt(state, k, dtLast, due, ideal, balance, rate) == Ok(row)
    ensures row.date == state[k].date
    ensures KeepsRule(row, state, dtLast, due, ideal, balance, rate, AnyLater(state, row.date))
  {
    var date := state[k].date;
    var current := balance - AbsBefore(state, date);
    assert row == RowOf(date, RowAccrued(dtLast, date, due, current, rate), current, ideal, AnyLater(state, date));
  }

  /** Every row is a whole number of cents. */
  predicate AllCents(rows: seq<Row>) {
    forall i :: 0 <= i < |rows| ==> IsCents(rows[i].capital) && IsCents(rows[i].interest)
  }

  lemma {:induction false} AbsTotalCents(rows: seq<Row>)
    requires AllCents(rows)
    ensures IsCents(AbsTotal(rows))
    decreases |rows|
  {
    if |rows| > 0 {
      var init := rows[..|rows| - 1];
      assert forall i :: 0 <= i < |init| ==> init[i] == rows[i];
      AbsTotalCents(init);
      var c := rows[|rows| - 1].capital;
      CentsClosed(c, 0.0);
      assert IsCents(Abs(c));
      CentsClosed(AbsTotal(init), Abs(c));
    }
  }

  /** The last row with capital `capital` instead. */
  function WithLastCapital(rows: seq<Row>, capital: real): (r: seq<Row>)
    requires |rows| > 0
    ensures |r| == |rows| && r[..|rows| - 1] == rows[..|rows| - 1]
    ensures r[|rows| - 1] == Row(rows[|rows| - 1].date, capital, rows[|rows| - 1].interest)
  {
    rows[|rows| - 1 := rows[|rows| - 1].(capital := capital)]
  }

  /** The residual under 1: the last capital becomes -round(|last| +
      difference, 2), and the |capital| total must then be the balance, or
      the schedule is incomplete. */
  function Settle(pass: seq<Row>, balance: real): Result<seq<Row>>
    requires |pass| > 0
  {
    var difference := balance - AbsTotal(pass);
    var settled := WithLastCapital(pass, -Round2(Abs(pass[|pass| - 1].capital) + difference));
    if AbsTotal(settled) != balance then Err(ScheduleIncomplete) else Ok(settled)
  }

  /** With a whole-cents balance and pass, settling succeeds exactly when
      the last |capital| covers an overpayment, and it then repays the
      balance to the cent; otherwise the schedule is incomplete. */
  lemma SettleSucceedsIff(pass: seq<Row>, balance: real)
    requires |pass| > 0 && AllCents(pass) && IsCents(balance)
    ensures var difference := balance - AbsTotal(pass);
      Settle(pass, balance).Ok? <==> Abs(pass[|pass| - 1].capital) + difference >= 0.0
    ensures Settle(pass, balance).Err? ==> Settle(pass, balance).error == ScheduleIncomplete
    ensures Settle(pass, balance).Ok? ==> AbsTotal(Settle(pass, balance).value) == balance
  {
    var n := |pass|;
    var difference := balance - AbsTotal(pass);
    var last := Abs(pass[n - 1].capital);
    var x := last + difference;
    SettleRoundsExactly(pass, balance, x);
    SettleUnrounded(pass, balance, x);
    AbsTotalSplit(pass);
  }

  /** The |capital| total is that of all rows but the last, plus the last. */
  lemma AbsTotalSplit(rows: seq<Row>)
    requires |rows| > 0
    ensures AbsTotal(rows) == AbsTotal(rows[..|rows| - 1]) + Abs(rows[|rows| - 1].capital)
  {
  }

  /** Settling when the new last |capital| needs no rounding. */
  lemma SettleUnrounded(pass: seq<Row>, balance: real, x: real)
    requires |pass| > 0
    requires x == Abs(pass[|pass| - 1].capital) + (balance - AbsTotal(pass)) && Round2(x) == x
    ensures var settled := WithLastCapital(pass, -x);
      && Settle(pass, balance) == (if AbsTotal(settled) != balance then Err(ScheduleIncomplete) else Ok(settled))
      && AbsTotal(settled) == AbsTotal(pass[..|pass| - 1]) + Abs(-x)
  {
    var n := |pass|;
    var settled := WithLastCapital(pass, -x);
    assert settled[n - 1].capital == -x;
    assert settled[..n - 1] == pass[..n - 1];
  }

  /** The settled capital needs no rounding when everything is in cents. */
  lemma SettleRoundsExactly(pass: seq<Row>, balance: real, x: real)
    requires |pass| > 0 && AllCents(pass) && IsCents(balance)
    requires x == Abs(pass[|pass| - 1].capital) + (balance - AbsTotal(pass))
    ensures Round2(x) == x
  {
    var last := Abs(pass[|pass| - 1].capital);
    AbsTotalCents(pass);
    CentsClosed(balance, AbsTotal(pass));
    CentsClosed(pass[|pass| - 1].capital, 0.0);
    CentsClosed(last, balance - AbsTotal(pass));
    Round2OfCents(last + (balance - AbsTotal(pass)));
  }

  /** Settling touches only the last row's capital, and in whole cents. */
  lemma SettleShape(pass: seq<Row>, balance: real)
    requires |pass| > 0 && AllCents(pass)
    ensures var r := Settle(pass, balance);
      && (r.Ok? ==> SameDates(r.value, pass) && AllCents(r.value) && AbsTotal(r.value) == balance)
      && (r.Err? ==> r.error == ScheduleIncomplete)
  {
    var n := |pass|;
    var r := Settle(pass, balance);
    if r.Ok? {
      var x := Round2(Abs(pass[n - 1].capital) + balance - AbsTotal(pass));
      CentsClosed(x, 0.0);
      assert r.value == WithLastCapital(pass, -x);
      assert forall i :: 0 <= i < n - 1 ==> r.value[i] == pass[i];
    }
  }

  /** What one turn of the retry loop leads to: an outcome, or another
      pass from the rows this one wrote with a new ideal. */
  datatype Turn = Finished(outcome: Result<seq<Row>>) | Retry(rows: seq<Row>, ideal: real)

  /** One turn at a rounded ideal: run a pass and settle when what it
      repays is within 1 of the balance; otherwise move the ideal by the
      difference shared over the rows. */
  function TurnAt(state: seq<Row>, dateStart: Date, interestBalance: real, rounded: real, balance: real, rate: real): (t: Turn)
    requires |state| > 0
    ensures t.Retry? ==> |t.rows| == |state|
  {
    match PassFrom(state, 0, dateStart, interestBalance, rounded, balance, rate)
    case Err(e) => Finished(Err(e))
    case Ok(pass) =>
      var difference := balance - AbsTotal(pass);
      if Abs(difference) < 1.0 then Finished(Settle(pass, balance))
      else Retry(pass, rounded + difference / |state| as real)
  }

  /** The retry loop, at most `fuel` turns, each from the rows as the turn
      before left them, at its ideal rounded to cents. */
  function Attempts(state: seq<Row>, dateStart: Date, interestBalance: real, ideal: real, balance: real, rate: real, fuel: nat): Result<seq<Row>>
    requires |state| > 0
    decreases fuel
  {
    if fuel == 0 then Err(DoesNotTerminate)
    else
      match TurnAt(state, dateStart, interestBalance, Round2(ideal), balance, rate)
      case Finished(r) => r
      case Retry(pass, next) => Attempts(pass, dateStart, interestBalance, next, balance, rate, fuel - 1)
  }

  /** GenerateRepayments of the older engine: rows come back unchanged when
      there are none; a zero monthly multiplier or interest rate is refused;
      a zero balance leaves the rows as they are (the retry loop runs only
      while the total repaid differs from the balance, and it starts at 0);
      otherwise the retry loop runs from `ideal`, the closed-form first
      guess. */
  function Generated(rows: seq<Row>, dateStart: Date, monthlyMultiplier: real, balance: real, interestBalance: real,
                     rate: real, ideal: real, fuel: nat): Result<seq<Row>>
  {
    if |rows| == 0 then Ok(rows)
    else if monthlyMultiplier == 0.0 then Err(NoMonthlyMultiplier)
    else if rate == 0.0 then Err(InterestRateZero)
    else if balance == 0.0 then Ok(rows)
    else Attempts(rows, dateStart, interestBalance, ideal, balance, rate, fuel)
  }

  /** A retry-loop outcome that repays the balance exactly, on the dates of
      `state`, in whole cents, or fails for one of the loop's reasons. */
  predicate RepaysOn(r: Result<seq<Row>>, state: seq<Row>, balance: real) {
    && (r.Ok? ==> SameDates(r.value, state) && AbsTotal(r.value) == balance && AllCents(r.value))
    && (r.Err? ==> r.error in {DateOutOfRange, ScheduleIncomplete, DoesNotTerminate})
  }

  /** A turn that retries moves the ideal up when the pass repaid too
      little and down when it repaid too much, by a share of at least 1
      over the number of rows. */
  lemma TurnAtNudges(state: seq<Row>, dateStart: Date, interestBalance: real, rounded: real, balance: real, rate: real)
    requires |state| > 0
    ensures var t := TurnAt(state, dateStart, interestBalance, rounded, balance, rate);
      && (t.Retry? ==> Abs(balance - AbsTotal(t.rows)) >= 1.0)
      && (t.Retry? && AbsTotal(t.rows) < balance ==> t.ideal >= rounded + 1.0 / |state| as real)
      && (t.Retry? && AbsTotal(t.rows) > balance ==> t.ideal <= rounded - 1.0 / |state| as real)
  {
    var t := TurnAt(state, dateStart, interestBalance, rounded, balance, rate);
    if t.Retry? {
      var difference := balance - AbsTotal(t.rows);
      assert t.ideal == rounded + difference / |state| as real;
      ShareBound(difference, |state|);
    }
  }

  /** Sharing a difference of at least 1 over n shares at least 1 / n. */
  lemma ShareBound(difference: real, n: nat)
    requires n > 0
    ensures difference >= 1.0 ==> difference / n as real >= 1.0 / n as real
    ensures difference <= -1.0 ==> difference / n as real <= -1.0 / n as real
  {
  }

  /** A turn that finishes repays the balance on the same dates in whole
      cents, or fails for one of the loop's reasons; a turn that retries
      leaves whole-cents rows on the same dates. */
  lemma TurnAtRepays(state: seq<Row>, dateStart: Date, interestBalance: real, rounded: real, balance: real, rate: real)
    requires |state| > 0
    ensures var t := TurnAt(state, dateStart, interestBalance, rounded, balance, rate);
      && (t.Finished? ==> RepaysOn(t.outcome, state, balance))
      && (t.Retry? ==> SameDates(t.rows, state) && AllCents(t.rows))
  {
    var pass := PassFrom(state, 0, dateStart, interestBalance, rounded, balance, rate);
    if pass.Err? {
      PassFromFails(state, 0, dateStart, interestBalance, rounded, balance, rate);
    } else {
      var p := pass.value;
      PassFromLevel(state, 0, dateStart, interestBalance, rounded, balance, rate);
      assert AllCents(p) by {
        forall i | 0 <= i < |p| ensures IsCents(p[i].capital) && IsCents(p[i].interest) {
          assert LevelRow(p, i, rounded);
        }
      }
      var difference := balance - AbsTotal(p);
      if Abs(difference) < 1.0 {
        SettleShape(p, balance);
        SameDatesThrough(Settle(p, balance), p, state, balance);
      }
    }
  }

  /** Whatever the retry loop returns repays the balance exactly, on the
      same dates, in whole cents; it fails only on a date with no day before
      it, an unsettled residual, or running out of passes. */
  lemma {:induction false} AttemptsRepayBalance(state: seq<Row>, dateStart: Date, interestBalance: real, ideal: real, balance: real, rate: real, fuel: nat)
    requires |state| > 0
    ensures RepaysOn(Attempts(state, dateStart, interestBalance, ideal, balance, rate, fuel), state, balance)
    decreases fuel
  {
    if fuel > 0 {
      var t := TurnAt(state, dateStart, interestBalance, Round2(ideal), balance, rate);
      TurnAtRepays(state, dateStart, interestBalance, Round2(ideal), balance, rate);
      if t.Retry? {
        AttemptsRepayBalance(t.rows, dateStart, interestBalance, t.ideal, balance, rate, fuel - 1);
        SameDatesThrough(Attempts(t.rows, dateStart, interestBalance, t.ideal, balance, rate, fuel - 1), t.rows, state, balance);
      }
    }
  }

  /** An outcome that repays the balance on the dates of `p` does so on the
      dates of any `state` with the same dates as `p`. */
  lemma SameDatesThrough(r: Result<seq<Row>>, p: seq<Row>, state: seq<Row>, balance: real)
    requires RepaysOn(r, p, balance) && SameDates(p, state)
    ensures RepaysOn(r, state, balance)
  {
    if r.Ok? {
      assert forall i :: 0 <= i < |state| ==> r.value[i].date == p[i].date == state[i].date;
    }
  }

  /** A pass fails only on a row dated at MinValue. */
  lemma {:induction false} PassFromFails(state: seq<Row>, k: nat, dtLast: Date, due: real, ideal: real, balance: real, rate: real)
    requires k <= |state|
    requires PassFrom(state, k, dtLast, due, ideal, balance, rate).Err?
    ensures PassFrom(state, k, dtLast, due, ideal, balance, rate).error == DateOutOfRange
    decreases |state| - k
  {
    var row := RowAt(state, k, dtLast, due, ideal, balance, rate);
    if row.Ok? {
      PassFromFails(state[k := row.value], k + 1, row.value.date, 0.0, ideal, balance, rate);
    }
  }

  /** The refusals and the cases left as they are (no rows repay nothing,
      whatever the balance); any other outcome repays a non-zero balance
      exactly on the dates given. */
  lemma GeneratedCases(rows: seq<Row>, dateStart: Date, monthlyMultiplier: real, balance: real, interestBalance: real,
                       rate: real, ideal: real, fuel: nat)
    ensures var r := Generated(rows, dateStart, monthlyMultiplier, balance, interestBalance, rate, ideal, fuel);
      && (|rows| == 0 ==> r == Ok(rows))
      && (|rows| > 0 && monthlyMultiplier == 0.0 ==> r == Err(NoMonthlyMultiplier))
      && (|rows| > 0 && monthlyMultiplier != 0.0 && rate == 0.0 ==> r == Err(InterestRateZero))
      && (monthlyMultiplier != 0.0 && rate != 0.0 && balance == 0.0 ==> r == Ok(rows))
      && (r.Ok? && |rows| > 0 && balance != 0.0 ==> SameDates(r.value, rows) && AbsTotal(r.value) == balance && AllCents(r.value))
  {
    if |rows| > 0 && monthlyMultiplier != 0.0 && rate != 0.0 && balance != 0.0 {
      AttemptsRepayBalance(rows, dateStart, interestBalance, ideal, balance, rate, fuel);
    }
  }

  /** One pass over the entries, rewriting each in place in date order of
      the list: interest, then capital, from the entries as they stand. */
  method RunPass(entries: array<Row>, dateStart: Date, interestBalance: real, ideal: real, balance: real, rate: real)
    returns (r: Result<seq<Row>>)
    modifies entries
    ensures r == PassFrom(old(entries[..]), 0, dateStart, interestBalance, ideal, balance, rate)
    ensures r.Ok? ==> entries[..] == r.value
  {
    var dtLast := dateStart;
    var interestDue := interestBalance;
    var k := 0;
    while k < entries.Length
      invariant 0 <= k <= entries.Length
      invariant PassFrom(entries[..], k, dtLast, interestDue, ideal, balance, rate)
             == PassFrom(old(entries[..]), 0, dateStart, interestBalance, ideal, balance, rate)
    {
      var row := RowAt(entries[..], k, dtLast, interestDue, ideal, balance, rate);
      if row.Err? {
        return Err(row.error);
      }
      ghost var before := entries[..];
      entries[k] := row.value;
      assert entries[..] == before[k := row.value];
      dtLast := row.value.date;
      interestDue := 0.0;
      k := k + 1;
    }
    return Ok(entries[..]);
  }

  /** The residual under 1 settled on the last entry in place. */
  method SettleLast(entries: array<Row>, balance: real) returns (r: Result<seq<Row>>)
    requires entries.Length > 0
    modifies entries
    ensures r == Settle(old(entries[..]), balance)
    ensures r.Ok? ==> entries[..] == r.value
  {
    var difference := balance - AbsTotal(entries[..]);
    var last := entries[entries.Length - 1];
    entries[entries.Length - 1] := last.(capital := -Round2(Abs(last.capital) + difference));
    assert entries[..] == WithLastCapital(old(entries[..]), -Round2(Abs(last.capital) + difference));
    if AbsTotal(entries[..]) != balance {
      return Err(ScheduleIncomplete);
    }
    return Ok(entries[..]);
  }

  /** One turn of the retry loop on the entries in place. */
  method RunTurn(entries: array<Row>, dateStart: Date, interestBalance: real, rounded: real, balance: real, rate: real)
    returns (t: Turn)
    requires entries.Length > 0
    modifies entries
    ensures t == TurnAt(old(entries[..]), dateStart, interestBalance, rounded, balance, rate)
    ensures t.Retry? ==> entries[..] == t.rows
    ensures t.Finished? && t.outcome.Ok? ==> entries[..] == t.outcome.value
  {
    var pass := RunPass(entries, dateStart, interestBalance, rounded, balance, rate);
    if pass.Err? {
      return Finished(Err(pass.error));
    }
    var difference := balance - AbsTotal(entries[..]);
    if Abs(difference) < 1.0 {
      var settled := SettleLast(entries, balance);
      return Finished(settled);
    }
    return Retry(entries[..], rounded + difference / entries.Length as real);
  }

  /** The retry loop one turn at a time: a turn that finishes gives the
      loop's outcome, and one that retries leaves the rest to the other
      turns. */
  lemma AttemptsTurn(state: seq<Row>, dateStart: Date, interestBalance: real, ideal: real, balance: real, rate: real,
                     fuel: nat, next: nat, t: Turn)
    requires |state| > 0 && fuel == next + 1
    requires t == TurnAt(state, dateStart, interestBalance, Round2(ideal), balance, rate)
    ensures t.Finished? ==> Attempts(state, dateStart, interestBalance, ideal, balance, rate, fuel) == t.outcome
    ensures t.Retry? ==> Attempts(state, dateStart, interestBalance, ideal, balance, rate, fuel)
                         == Attempts(t.rows, dateStart, interestBalance, t.ideal, balance, rate, next)
  {
  }

  /** GenerateRepayments of the older engine on the entries in place, with
      at most `fuel` passes: the checks, then passes at the rounded ideal,
      nudged after each by the difference shared over the entries, until
      the residual is under 1 and is settled on the last entry. */
  method GenerateRepayments(entries: array<Row>, dateStart: Date, monthlyMultiplier: real, balance: real,
                            interestBalance: real, rate: real, ideal: real, fuel: nat)
    returns (r: Result<seq<Row>>)
    modifies entries
    ensures r == Generated(old(entries[..]), dateStart, monthlyMultiplier, balance, interestBalance, rate, ideal, fuel)
    ensures r.Ok? ==> entries[..] == r.value
  {
    if entries.Length == 0 {
      return Ok(entries[..]);
    }
    if monthlyMultiplier == 0.0 {
      return Err(NoMonthlyMultiplier);
    }
    if rate == 0.0 {
      return Err(InterestRateZero);
    }
    if balance == 0.0 {
      return Ok(entries[..]);
    }
    ghost var target := Attempts(entries[..], dateStart, interestBalance, ideal, balance, rate, fuel);
    var idealTotal := ideal;
    var remaining := fuel;
    while true
      invariant entries.Length > 0
      invariant Attempts(entries[..], dateStart, interestBalance, idealTotal, balance, rate, remaining) == target
      decreases remaining
    {
      if remaining == 0 {
        return Err(DoesNotTerminate);
      }
      ghost var before := entries[..];
      ghost var fuelBefore := remaining;
      var t := RunTurn(entries, dateStart, interestBalance, Round2(idealTotal), balance, rate);
      remaining := remaining - 1;
      AttemptsTurn(before, dateStart, interestBalance, idealTotal, balance, rate, fuelBefore, remaining, t);
      if t.Finished? {
        return t.outcome;
      }
      ghost var rows := entries[..];
      assert rows == t.rows;
      idealTotal := t.ideal;
    }
  }
}
