/** BuildDateTable of the aMorti engine: the due dates from a start date, one
    frequency step at a time, up to an end date. */
module DateTable {
  import opened Failures
  import opened Calendar
  import opened Common
  import opened Extensions

  /** b is one frequency step on from a. */
  predicate Step(a: Date, b: Date, f: Frequency, day: int) {
    AddFrequency(a, f, day) == Ok(b)
  }

  /** The dates after dt, each one step on from the one before, for as long
      as they stay at or before the end. */
  function Rest(dt: Date, f: Frequency, end: Date, day: int): Result<seq<Date>>
    requires AtOrBefore(dt, end)
    decreases DayNumber(end) - DayNumber(dt)
  {
    var next :- AddFrequency(dt, f, day);
    AddFrequencyIsLater(dt, f, day);
    if Before(end, next) then Ok([])
    else
      var tail :- Rest(next, f, end, day);
      Ok([next] + tail)
  }

  /** The date table: the start itself first when useStartAsFirst, then the
      dates after the start. */
  function Table(f: Frequency, start: Date, end: Date, day: int, useStartAsFirst: bool): Result<seq<Date>>
    requires AtOrBefore(start, end)
  {
    var rest :- Rest(start, f, end, day);
    if useStartAsFirst then Ok([start] + rest) else Ok(rest)
  }

  /** `list` followed by the dates after dtLast. */
  function Finish(list: seq<Date>, dtLast: Date, f: Frequency, end: Date, day: int): Result<seq<Date>>
    requires AtOrBefore(dtLast, end)
  {
    var tail :- Rest(dtLast, f, end, day);
    Ok(list + tail)
  }

  /** The outcome of BuildDateTable: the argument checks in the order the
      engine makes them, then the table. */
  function DateTableOf(f: Frequency, start: Date, end: Date, day: int, useStartAsFirst: bool): Result<seq<Date>> {
    if day < 1 then Err(DayBelowOne)
    else if day > 31 then Err(DayAboveThirtyOne)
    else if Before(end, start) then Err(EndBeforeStart)
    else Table(f, start, end, day, useStartAsFirst)
  }

  /** BuildDateTable(frequency, start, end, day, useStartAsFirst). The three
      argument checks come before any date is produced; a frequency outside
      the enum fails at the first step it is asked for. */
  method BuildDateTable(f: Frequency, start: Date, end: Date, day: int, useStartAsFirst: bool)
    returns (r: Result<seq<Date>>)
    ensures day < 1 ==> r == Err(DayBelowOne)
    ensures day > 31 ==> r == Err(DayAboveThirtyOne)
    ensures 1 <= day <= 31 && Before(end, start) ==> r == Err(EndBeforeStart)
    ensures 1 <= day <= 31 && AtOrBefore(start, end) ==> r == Table(f, start, end, day, useStartAsFirst)
    ensures r == DateTableOf(f, start, end, day, useStartAsFirst)
  {
    if day < 1 {
      return Err(DayBelowOne);
    }
    if day > 31 {
      return Err(DayAboveThirtyOne);
    }
    if Before(end, start) {
      return Err(EndBeforeStart);
    }
    var list: seq<Date> := [];
    var dtLast := start;
    var pending := useStartAsFirst;
    TableIsFinish(f, start, end, day, useStartAsFirst);
    while true
      invariant AtOrBefore(dtLast, end)
      invariant pending ==> list == [] && dtLast == start && useStartAsFirst
      invariant !pending ==> Finish(list, dtLast, f, end, day) == Table(f, start, end, day, useStartAsFirst)
      decreases pending, DayNumber(end) - DayNumber(dtLast)
    {
      if pending {
        list := [start];
        pending := false;
      } else {
        var next := AddFrequency(dtLast, f, day);
        FinishAdvance(list, dtLast, f, end, day);
        if next.Err? {
          return Err(next.error);
        }
        AddFrequencyIsLater(dtLast, f, day);
        var dt := next.value;
        if Before(end, dt) {
          return Ok(list);
        }
        list := list + [dt];
        dtLast := dt;
      }
    }
  }

  /** The table is the start (when used as first) followed by the dates
      after the start. */
  lemma TableIsFinish(f: Frequency, start: Date, end: Date, day: int, useStartAsFirst: bool)
    requires AtOrBefore(start, end)
    ensures Table(f, start, end, day, useStartAsFirst)
         == Finish(if useStartAsFirst then [start] else [], start, f, end, day)
  {
    var rest := Rest(start, f, end, day);
    if rest.Ok? {
      assert [] + rest.value == rest.value;
    }
  }

  /** One turn of the loop: a failing step fails the whole table, a step past
      the end closes it, any other step moves one date from the rest into
      the list. */
  lemma FinishAdvance(list: seq<Date>, dtLast: Date, f: Frequency, end: Date, day: int)
    requires AtOrBefore(dtLast, end)
    ensures var next := AddFrequency(dtLast, f, day);
      && (next.Err? ==> Finish(list, dtLast, f, end, day) == Err(next.error))
      && (next.Ok? && Before(end, next.value) ==> Finish(list, dtLast, f, end, day) == Ok(list))
      && (next.Ok? && !Before(end, next.value) ==>
            Finish(list, dtLast, f, end, day) == Finish(list + [next.value], next.value, f, end, day))
  {
    var next := AddFrequency(dtLast, f, day);
    if next.Ok? {
      AddFrequencyIsLater(dtLast, f, day);
      if Before(end, next.value) {
        FinishCloses(list, dtLast, f, end, day);
      } else {
        FinishMoves(list, dtLast, f, end, day, next.value);
      }
    }
  }

  lemma FinishCloses(list: seq<Date>, dtLast: Date, f: Frequency, end: Date, day: int)
    requires AtOrBefore(dtLast, end)
    requires AddFrequency(dtLast, f, day).Ok? && Before(end, AddFrequency(dtLast, f, day).value)
    ensures Finish(list, dtLast, f, end, day) == Ok(list)
  {
    assert list + [] == list;
  }

  lemma FinishMoves(list: seq<Date>, dtLast: Date, f: Frequency, end: Date, day: int, next: Date)
    requires AtOrBefore(dtLast, end)
    requires AddFrequency(dtLast, f, day) == Ok(next) && !Before(end, next)
    ensures AtOrBefore(next, end)
    ensures Finish(list, dtLast, f, end, day) == Finish(list + [next], next, f, end, day)
  {
    var tail := Rest(next, f, end, day);
    if tail.Ok? {
      assert list + ([next] + tail.value) == list + [next] + tail.value;
    }
  }

  /** Every date after dt lies after dt and at or before the end, and the
      dates ascend strictly. */
  lemma {:induction false} RestBounds(dt: Date, f: Frequency, end: Date, day: int)
    requires AtOrBefore(dt, end)
    requires Rest(dt, f, end, day).Ok?
    ensures var ds := Rest(dt, f, end, day).value;
      && (forall i :: 0 <= i < |ds| ==> Before(dt, ds[i]) && AtOrBefore(ds[i], end))
      && (forall i, j :: 0 <= i < j < |ds| ==> Before(ds[i], ds[j]))
    decreases DayNumber(end) - DayNumber(dt)
  {
    var next := AddFrequency(dt, f, day).value;
    AddFrequencyIsLater(dt, f, day);
    if !Before(end, next) {
      RestBounds(next, f, end, day);
      ConsAscending(dt, next, Rest(next, f, end, day).value, end);
    }
  }

  /** Putting a date that is after dt and before every later one in front
      of an ascending list keeps it ascending and after dt. */
  lemma ConsAscending(dt: Date, next: Date, tail: seq<Date>, end: Date)
    requires Before(dt, next) && AtOrBefore(next, end)
    requires forall i :: 0 <= i < |tail| ==> Before(next, tail[i]) && AtOrBefore(tail[i], end)
    requires forall i, j :: 0 <= i < j < |tail| ==> Before(tail[i], tail[j])
    ensures var ds := [next] + tail;
      && (forall i :: 0 <= i < |ds| ==> Before(dt, ds[i]) && AtOrBefore(ds[i], end))
      && (forall i, j :: 0 <= i < j < |ds| ==> Before(ds[i], ds[j]))
  {
    var ds := [next] + tail;
    assert forall i :: 1 <= i < |ds| ==> ds[i] == tail[i - 1];
  }

  /** The first date after dt is one step on from dt, every later one is one
      step on from the one before it, and one more step from the last date
      (from dt when there is none) passes the end. */
  lemma RestSteps(dt: Date, f: Frequency, end: Date, day: int)
    requires AtOrBefore(dt, end)
    requires Rest(dt, f, end, day).Ok?
    ensures var ds := Rest(dt, f, end, day).value;
      && (|ds| > 0 ==> Step(dt, ds[0], f, day))
      && (forall i {:trigger Step(ds[i - 1], ds[i], f, day)} :: 1 <= i < |ds| ==> Step(ds[i - 1], ds[i], f, day))
      && var last := if |ds| > 0 then ds[|ds| - 1] else dt;
         AddFrequency(last, f, day).Ok? && Before(end, AddFrequency(last, f, day).value)
  {
    var ds := Rest(dt, f, end, day).value;
    if |ds| > 0 {
      RestFirstStep(dt, f, end, day);
    }
    forall i | 1 <= i < |ds| ensures Step(ds[i - 1], ds[i], f, day) {
      RestStepAt(dt, f, end, day, i);
    }
    RestCloses(dt, f, end, day, ds, if |ds| > 0 then ds[|ds| - 1] else dt);
  }

  /** The first date after dt is one step on from dt. */
  lemma RestFirstStep(dt: Date, f: Frequency, end: Date, day: int)
    requires AtOrBefore(dt, end)
    requires Rest(dt, f, end, day).Ok? && |Rest(dt, f, end, day).value| > 0
    ensures Step(dt, Rest(dt, f, end, day).value[0], f, day)
  {
    RestUnfold(dt, f, end, day);
  }

  /** Each later date after dt is one step on from the date before it. */
  lemma {:induction false} RestStepAt(dt: Date, f: Frequency, end: Date, day: int, i: nat)
    requires AtOrBefore(dt, end)
    requires Rest(dt, f, end, day).Ok? && 1 <= i < |Rest(dt, f, end, day).value|
    ensures Step(Rest(dt, f, end, day).value[i - 1], Rest(dt, f, end, day).value[i], f, day)
    decreases i
  {
    RestUnfold(dt, f, end, day);
    var ds := Rest(dt, f, end, day).value;
    var next := AddFrequency(dt, f, day).value;
    var tail := Rest(next, f, end, day).value;
    var j := i - 1;
    if j == 0 {
      RestFirstStep(next, f, end, day);
    } else {
      RestStepAt(next, f, end, day, j);
    }
    ShiftStep(ds, next, tail, i, j, f, day);
  }

  /** A step inside `tail` (or from x to its first date) is a step inside
      [x] + tail, one index on. */
  lemma ShiftStep(ds: seq<Date>, x: Date, tail: seq<Date>, i: nat, j: nat, f: Frequency, day: int)
    requires ds == [x] + tail && 1 <= i < |ds| && j == i - 1
    requires j == 0 ==> Step(x, tail[0], f, day)
    requires j > 0 ==> Step(tail[j - 1], tail[j], f, day)
    ensures Step(ds[i - 1], ds[i], f, day)
  {
    ConsAt(x, tail, i);
    if j == 0 {
      StepTransfer(ds[i - 1], ds[i], x, tail[j], f, day);
    } else {
      ConsAt(x, tail, j);
      StepTransfer(ds[i - 1], ds[i], tail[j - 1], tail[j], f, day);
    }
  }

  lemma StepTransfer(a: Date, b: Date, c: Date, d: Date, f: Frequency, day: int)
    requires a == c && b == d && Step(c, d, f, day)
    ensures Step(a, b, f, day)
  {
  }

  lemma ConsAt<T>(x: T, tail: seq<T>, i: nat)
    requires 1 <= i <= |tail|
    ensures ([x] + tail)[i] == tail[i - 1] && ([x] + tail)[0] == x
  {
  }

  /** A non-empty list of the dates after dt starts one step on from dt,
      at or before the end, and goes on with the dates after that. */
  lemma RestUnfold(dt: Date, f: Frequency, end: Date, day: int)
    requires AtOrBefore(dt, end)
    requires Rest(dt, f, end, day).Ok? && |Rest(dt, f, end, day).value| > 0
    ensures AddFrequency(dt, f, day).Ok?
    ensures AtOrBefore(AddFrequency(dt, f, day).value, end)
    ensures Rest(AddFrequency(dt, f, day).value, f, end, day).Ok?
    ensures Rest(dt, f, end, day).value == [AddFrequency(dt, f, day).value] + Rest(AddFrequency(dt, f, day).value, f, end, day).value
  {
    AddFrequencyIsLater(dt, f, day);
  }

  /** The dates after dt can be listed exactly when the frequency is one of
      the declared ones (the day of month being at least 1). */
  lemma {:induction false} RestSucceeds(dt: Date, f: Frequency, end: Date, day: int)
    requires AtOrBefore(dt, end) && day >= 1
    ensures Rest(dt, f, end, day).Ok? <==> Declared(f)
    decreases DayNumber(end) - DayNumber(dt)
  {
    AddFrequencySucceeds(dt, f, day);
    if Declared(f) {
      var next := AddFrequency(dt, f, day).value;
      AddFrequencyIsLater(dt, f, day);
      if !Before(end, next) {
        RestSucceeds(next, f, end, day);
      }
    }
  }

  /** The table is produced exactly for a declared frequency; otherwise
      the step fails with InvalidFrequency. */
  lemma TableSucceeds(f: Frequency, start: Date, end: Date, day: int, useStartAsFirst: bool)
    requires AtOrBefore(start, end) && day >= 1
    ensures Table(f, start, end, day, useStartAsFirst).Ok? <==> Declared(f)
    ensures !Declared(f) ==> Table(f, start, end, day, useStartAsFirst) == Err(InvalidFrequency)
  {
    RestSucceeds(start, f, end, day);
  }

  /** The table holds only dates at or before the end, strictly ascending,
      none before the start. */
  lemma TableAscending(f: Frequency, start: Date, end: Date, day: int, useStartAsFirst: bool)
    requires AtOrBefore(start, end)
    requires Table(f, start, end, day, useStartAsFirst).Ok?
    ensures var ds := Table(f, start, end, day, useStartAsFirst).value;
      && (forall i :: 0 <= i < |ds| ==> AtOrBefore(start, ds[i]) && AtOrBefore(ds[i], end))
      && (forall i, j :: 0 <= i < j < |ds| ==> Before(ds[i], ds[j]))
  {
    RestBounds(start, f, end, day);
    var rest := Rest(start, f, end, day).value;
    if useStartAsFirst {
      assert Table(f, start, end, day, useStartAsFirst).value == [start] + rest;
      ConsFirst(start, rest, end);
    } else {
      assert Table(f, start, end, day, useStartAsFirst).value == rest;
    }
  }

  /** The start in front of the dates after it keeps the list ascending. */
  lemma ConsFirst(start: Date, rest: seq<Date>, end: Date)
    requires AtOrBefore(start, end)
    requires forall i :: 0 <= i < |rest| ==> Before(start, rest[i]) && AtOrBefore(rest[i], end)
    requires forall i, j :: 0 <= i < j < |rest| ==> Before(rest[i], rest[j])
    ensures var ds := [start] + rest;
      && (forall i :: 0 <= i < |ds| ==> AtOrBefore(start, ds[i]) && AtOrBefore(ds[i], end))
      && (forall i, j :: 0 <= i < j < |ds| ==> Before(ds[i], ds[j]))
  {
    var ds := [start] + rest;
    assert forall i :: 1 <= i < |ds| ==> ds[i] == rest[i - 1];
  }

  /** The first date is the start exactly when the start is used as first;
      otherwise it is one step on from the start. */
  lemma TableFirst(f: Frequency, start: Date, end: Date, day: int, useStartAsFirst: bool)
    requires AtOrBefore(start, end)
    requires Table(f, start, end, day, useStartAsFirst).Ok?
    ensures var ds := Table(f, start, end, day, useStartAsFirst).value;
      && (useStartAsFirst ==> |ds| > 0)
      && (|ds| > 0 ==> (ds[0] == start <==> useStartAsFirst))
      && (!useStartAsFirst && |ds| > 0 ==> Step(start, ds[0], f, day))
  {
    RestBounds(start, f, end, day);
    RestSteps(start, f, end, day);
    var rest := Rest(start, f, end, day).value;
    if useStartAsFirst {
      assert Table(f, start, end, day, useStartAsFirst).value == [start] + rest;
    } else {
      assert Table(f, start, end, day, useStartAsFirst).value == rest;
    }
  }

  /** Each date after the first is one step on from the date before it. */
  lemma TableSteps(f: Frequency, start: Date, end: Date, day: int, useStartAsFirst: bool)
    requires AtOrBefore(start, end)
    requires Table(f, start, end, day, useStartAsFirst).Ok?
    ensures var ds := Table(f, start, end, day, useStartAsFirst).value;
      forall i {:trigger Step(ds[i - 1], ds[i], f, day)} :: 1 <= i < |ds| ==> Step(ds[i - 1], ds[i], f, day)
  {
    var rest := Rest(start, f, end, day).value;
    var ds := Table(f, start, end, day, useStartAsFirst).value;
    forall i | 1 <= i < |ds| ensures Step(ds[i - 1], ds[i], f, day) {
      if useStartAsFirst {
        assert ds == [start] + rest;
        var j := i - 1;
        if j == 0 {
          RestFirstStep(start, f, end, day);
        } else {
          RestStepAt(start, f, end, day, j);
        }
        ShiftStep(ds, start, rest, i, j, f, day);
      } else {
        assert ds == rest;
        RestStepAt(start, f, end, day, i);
      }
    }
  }

  /** One more step from the last date of the table (from the start when
      the table is empty) passes the end. */
  lemma TableCloses(f: Frequency, start: Date, end: Date, day: int, useStartAsFirst: bool, ds: seq<Date>)
    requires AtOrBefore(start, end)
    requires Table(f, start, end, day, useStartAsFirst) == Ok(ds)
    ensures var last := if |ds| > 0 then ds[|ds| - 1] else start;
      AddFrequency(last, f, day).Ok? && Before(end, AddFrequency(last, f, day).value)
  {
    var rest := Rest(start, f, end, day).value;
    var last := if |rest| > 0 then rest[|rest| - 1] else start;
    RestCloses(start, f, end, day, rest, last);
    if useStartAsFirst {
      assert ds == [start] + rest;
      LastOfCons(start, rest, ds);
    } else {
      assert ds == rest;
    }
  }

  /** One more step from the last date after dt (from dt when there is
      none) passes the end. */
  lemma {:induction false} RestCloses(dt: Date, f: Frequency, end: Date, day: int, rest: seq<Date>, last: Date)
    requires AtOrBefore(dt, end)
    requires Rest(dt, f, end, day) == Ok(rest)
    requires last == if |rest| > 0 then rest[|rest| - 1] else dt
    ensures AddFrequency(last, f, day).Ok? && Before(end, AddFrequency(last, f, day).value)
    decreases |rest|
  {
    if |rest| > 0 {
      RestUnfold(dt, f, end, day);
      var next := AddFrequency(dt, f, day).value;
      var tail := Rest(next, f, end, day).value;
      LastOfCons(next, tail, rest);
      RestCloses(next, f, end, day, tail, last);
    } else {
      RestEmpty(dt, f, end, day);
    }
  }

  /** No dates after dt: the first step from dt already passes the end. */
  lemma RestEmpty(dt: Date, f: Frequency, end: Date, day: int)
    requires AtOrBefore(dt, end)
    requires Rest(dt, f, end, day) == Ok([])
    ensures AddFrequency(dt, f, day).Ok? && Before(end, AddFrequency(dt, f, day).value)
  {
    AddFrequencyIsLater(dt, f, day);
  }

  lemma LastOfCons<T>(x: T, tail: seq<T>, ds: seq<T>)
    requires ds == [x] + tail
    ensures ds[|ds| - 1] == if |tail| > 0 then tail[|tail| - 1] else x
  {
  }
}
