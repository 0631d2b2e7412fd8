/** The two GenerateRepayments overloads of the aMorti engine: repayments on
    a given table of due dates (instance count or maturity date), and
    repayments of a fixed value until the balance is repaid. */
module Repayments {
  import opened Failures
  import opened Decimals
  import opened Calendar
  import opened Common
  import opened Extensions
  import opened Interest
  import opened Annuity

  datatype EntryKind = Pay | Repay | Outstanding

  /** One balance movement or repayment: its kind, date, capital and
      interest, both stored unsigned. */
  datatype Entry = Entry(kind: EntryKind, date: Date, capital: real, interest: real)

  /** The capital as it moves the balance: a repayment takes it off, a
      payment or an outstanding balance adds it. */
  function ValueCapitalSigned(e: Entry): real {
    if e.kind == Repay then -e.capital else e.capital
  }

  /** A repayment lowers the balance by its capital and anything else raises
      it by its capital; either way the size of the movement is |capital|. */
  lemma SignedCapital(e: Entry)
    ensures e.kind == Repay ==> ValueCapitalSigned(e) == -e.capital
    ensures Abs(ValueCapitalSigned(e)) == Abs(e.capital)
    ensures e.kind != Repay ==> ValueCapitalSigned(e) == e.capital
  {
  }

  /** The terms a repayment generator works to: the frequency, the yearly
      percentage rate, the days in a year, the end of the capital repayment
      holiday, if any, and the InterestCalcFunc delegate the engine
      computes interest with (from, to, balance, rate, days in year). */
  datatype Terms = Terms(frequency: Frequency, rate: real, daysInYear: int, holidayEnd: Option<Date>,
                         interestCalc: (Date, Date, real, real, int) -> Result<real>)

  /** The delegate is Interest.Calculate, as the engine's InterestCalcFunc
      property returns. */
  ghost predicate CalculatesInterest(terms: Terms) {
    forall from: Date, to: Date, balance: real ::
      terms.interestCalc(from, to, balance, terms.rate, terms.daysInYear) == Calculate(from, to, balance, terms.rate, terms.daysInYear)
  }

  /** A date on or before the end of the capital repayment holiday. Dates
      are compared in calendar order (LexBefore, the same order as Before). */
  predicate InHoliday(holidayEnd: Option<Date>, d: Date) {
    holidayEnd.Some? && !LexBefore(holidayEnd.value, d)
  }

  /** The sum of |capital| over entries. */
  function SumAbsCapital(es: seq<Entry>): real
    decreases |es|
  {
    if |es| == 0 then 0.0 else SumAbsCapital(es[..|es| - 1]) + Abs(es[|es| - 1].capital)
  }

  /** Taking one more entry adds its |capital|. */
  lemma SumAbsCapitalTake(es: seq<Entry>, k: nat)
    requires k < |es|
    ensures SumAbsCapital(es[..k + 1]) == SumAbsCapital(es[..k]) + Abs(es[k].capital)
  {
    assert es[..k + 1][..k] == es[..k];
  }

  /** The sum of capital over entries, as stored. */
  function SumCapital(es: seq<Entry>): real
    decreases |es|
  {
    if |es| == 0 then 0.0 else SumCapital(es[..|es| - 1]) + es[|es| - 1].capital
  }

  /** The sum of |capital| over the entries dated before d. */
  function SumAbsBefore(es: seq<Entry>, d: Date): real
    decreases |es|
  {
    if |es| == 0 then 0.0
    else SumAbsBefore(es[..|es| - 1], d) + (if LexBefore(es[|es| - 1].date, d) then Abs(es[|es| - 1].capital) else 0.0)
  }

  /** The interest of one instalment dated `date`: nothing when it falls on
      the start date, otherwise InterestCalcFunc from the previous date to
      the day before this one, rounded to cents. The day before is taken
      first, so a date of 0001-01-01 fails either way. */
  function InstalmentInterest(dateStart: Date, dtLast: Date, date: Date, balance: real, terms: Terms): (r: Result<real>)
    ensures r.Ok? ==> IsCents(r.value)
    ensures date == MinValue ==> r == Err(DateOutOfRange)
  {
    var accrualEnd :- PrevDay(date);
    var accrued :- if dateStart != date then terms.interestCalc(dtLast, accrualEnd, balance, terms.rate, terms.daysInYear) else Ok(0.0);
    Ok(Round2(accrued))
  }

  /** With Interest.Calculate as the delegate: the instalment on the start
      date accrues nothing; any other fails exactly when the days in a year
      are zero, and accrues a non-negative amount when the rate and the
      days in a year are. */
  lemma InstalmentInterestValues(dateStart: Date, dtLast: Date, date: Date, balance: real, terms: Terms)
    requires CalculatesInterest(terms) && date != MinValue
    ensures date == dateStart ==> InstalmentInterest(dateStart, dtLast, date, balance, terms) == Ok(0.0)
    ensures date != dateStart ==> (InstalmentInterest(dateStart, dtLast, date, balance, terms).Err? <==> terms.daysInYear == 0)
    ensures terms.rate >= 0.0 && terms.daysInYear > 0 ==> InstalmentInterest(dateStart, dtLast, date, balance, terms).value >= 0.0
  {
    Round2OfCents(0.0);
    var accrualEnd := PrevDay(date).value;
    assert terms.interestCalc(dtLast, accrualEnd, balance, terms.rate, terms.daysInYear)
        == Calculate(dtLast, accrualEnd, balance, terms.rate, terms.daysInYear);
    if date != dateStart && terms.rate >= 0.0 && terms.daysInYear > 0 {
      CalculateNonNegative(dtLast, accrualEnd, balance, terms.rate, terms.daysInYear);
      Round2Monotone(0.0, Calculate(dtLast, accrualEnd, balance, terms.rate, terms.daysInYear).value);
    }
  }

  // ---------------------------------------------------------------------
  // Repayments on a table of due dates
  // ---------------------------------------------------------------------

  /** The number of dates after d. */
  function CountAfter(dates: seq<Date>, d: Date): (n: nat)
    ensures n <= |dates|
    decreases |dates|
  {
    if |dates| == 0 then 0
    else CountAfter(dates[..|dates| - 1], d) + (if LexBefore(d, dates[|dates| - 1]) then 1 else 0)
  }

  /** No date of the table is later than d. */
  predicate IsLatest(dates: seq<Date>, d: Date) {
    forall j :: 0 <= j < |dates| ==> !LexBefore(d, dates[j])
  }

  /** The number of instalments the ideal repayment is spread over: all of
      them, or those after the end of the capital repayment holiday. */
  function Instances(dates: seq<Date>, holidayEnd: Option<Date>): nat {
    if holidayEnd.Some? then CountAfter(dates, holidayEnd.value) else |dates|
  }

  /** The unrounded ideal repayment: with no interest the engine's
      Math.Round(capitalBalance * instances), a product (ZeroRateIdeal is
      the evidently intended share), otherwise the level payment of the
      geometric series at the frequency's per-period rate. */
  function IdealFor(balance: real, rate: real, f: Frequency, instances: nat): (r: Result<real>)
    ensures r.Err? ==> r.error == DivideByZero && rate != 0.0
    ensures rate == 0.0 ==> r.Ok? && Abs(r.value - balance * instances as real) <= 0.5
    ensures instances == 0 ==> (r.Err? <==> rate != 0.0)
  {
    if rate == 0.0 then Ok(ZeroRateIdealAsWritten(balance, instances) as real)
    else LevelPayment(balance, rate, MonthlyMultiplier(f), instances)
  }

  /** The capital of one instalment of the date-table overload, rounded to
      cents: none during the holiday or when the interest alone exceeds the
      ideal; on the latest date the rest of the balance, at most the ideal;
      otherwise what the ideal leaves after the interest. */
  function CountCapital(interest: real, ideal: real, balance: real, isLast: bool, inHoliday: bool): (r: real)
    ensures IsCents(r)
  {
    Round2(
      if inHoliday then 0.0
      else if interest > ideal then 0.0
      else if isLast then (if balance <= ideal then balance else ideal)
      else ideal - interest)
  }

  /** An instalment other than the latest, outside the holiday, whose
      interest the ideal covers, pays exactly the ideal: capital plus
      interest. */
  lemma CountCapitalLevel(interest: real, ideal: real, balance: real)
    requires IsCents(interest) && IsCents(ideal) && interest <= ideal
    ensures CountCapital(interest, ideal, balance, false, false) + interest == ideal
  {
    CentsClosed(ideal, interest);
    Round2OfCents(ideal - interest);
  }

  /** With a non-negative whole-cents ideal and balance, no instalment's
      capital is negative or more than the ideal. */
  lemma CountCapitalBounds(interest: real, ideal: real, balance: real, isLast: bool, inHoliday: bool)
    requires IsCents(ideal) && ideal >= 0.0 && balance >= 0.0 && interest >= 0.0
    ensures 0.0 <= CountCapital(interest, ideal, balance, isLast, inHoliday) <= ideal
  {
    var x :=
      if inHoliday then 0.0
      else if interest > ideal then 0.0
      else if isLast then (if balance <= ideal then balance else ideal)
      else ideal - interest;
    Round2OfCents(0.0);
    Round2OfCents(ideal);
    Round2Monotone(0.0, x);
    Round2Monotone(x, ideal);
  }

  /** The instalment on `date` of the date-table overload, given the
      previous due date and the balance still to repay before it. */
  function CountInstalment(dateStart: Date, dtLast: Date, date: Date, current: real, ideal: real, isLast: bool, terms: Terms): Result<Entry> {
    var interest :- InstalmentInterest(dateStart, dtLast, date, current, terms);
    var capital := CountCapital(interest, ideal, current, isLast, InHoliday(terms.holidayEnd, date));
    Ok(Entry(Repay, date, capital, interest))
  }

  /** The due date before the k-th, or the start date before the first. */
  function PreviousDue(dateStart: Date, dates: seq<Date>, k: nat): Date
    requires k <= |dates|
  {
    if k == 0 then dateStart else dates[k - 1]
  }

  /** A pass over n due dates from the i-th on, after the instalments
      already made: each instalment is what `step` makes of its index and
      the instalments before it, and the first failure ends the pass. */
  function Pass(step: (nat, seq<Entry>) -> Result<Entry>, n: nat, i: nat, entries: seq<Entry>): Result<seq<Entry>>
    requires i <= n
    decreases n - i
  {
    if i == n then Ok(entries)
    else
      var e :- step(i, entries);
      Pass(step, n, i + 1, entries + [e])
  }

  /** A pass keeps the instalments already made and adds one per index. */
  lemma {:induction false} PassShape(step: (nat, seq<Entry>) -> Result<Entry>, n: nat, i: nat, entries: seq<Entry>, out: seq<Entry>)
    requires i <= n && |entries| == i
    requires Pass(step, n, i, entries) == Ok(out)
    ensures |out| == n && out[..i] == entries
    ensures forall k :: i <= k < n ==> step(k, out[..k]) == Ok(out[k])
    decreases n - i
  {
    if i < n {
      var e := step(i, entries).value;
      PassShape(step, n, i + 1, entries + [e], out);
      assert out[..i] == (out[..i + 1])[..i];
    }
  }

  /** One more index: the pass goes on after the instalment the step makes,
      or ends with the step's failure. */
  lemma PassNext(step: (nat, seq<Entry>) -> Result<Entry>, n: nat, i: nat, entries: seq<Entry>)
    requires i < n
    ensures step(i, entries).Err? ==> Pass(step, n, i, entries) == Err(step(i, entries).error)
    ensures step(i, entries).Ok? ==> Pass(step, n, i, entries) == Pass(step, n, i + 1, entries + [step(i, entries).value])
  {
  }

  /** The date-table overload's instalment for the k-th due date, after
      the instalments `before` it: the balance is the original less the
      capital repaid on earlier dates, and interest runs from the previous
      due date. */
  function CountedInstalment(dateStart: Date, dates: seq<Date>, ideal: real, balance: real, terms: Terms, k: nat, before: seq<Entry>): Result<Entry>
    requires k < |dates|
  {
    CountInstalment(dateStart, PreviousDue(dateStart, dates, k), dates[k], balance - SumAbsBefore(before, dates[k]),
                    ideal, IsLatest(dates, dates[k]), terms)
  }

  /** CountedInstalment as the step of a pass. */
  function CountStep(dateStart: Date, dates: seq<Date>, ideal: real, balance: real, terms: Terms): (nat, seq<Entry>) -> Result<Entry> {
    (k: nat, before: seq<Entry>) =>
      if k < |dates| then CountedInstalment(dateStart, dates, ideal, balance, terms, k, before) else Err(ScheduleIncomplete)
  }

  /** The step of the date-table overload spelled out: the balance still
      to repay, the interest of the due date, then its capital. */
  lemma CountStepUnfold(dateStart: Date, dates: seq<Date>, ideal: real, balance: real, terms: Terms, k: nat, before: seq<Entry>,
                        dtLast: Date, current: real, interest: Result<real>)
    requires k < |dates| && dtLast == PreviousDue(dateStart, dates, k)
    requires current == balance - SumAbsBefore(before, dates[k])
    requires interest == InstalmentInterest(dateStart, dtLast, dates[k], current, terms)
    ensures interest.Err? ==> CountStep(dateStart, dates, ideal, balance, terms)(k, before) == Err(interest.error)
    ensures interest.Ok? ==>
      CountStep(dateStart, dates, ideal, balance, terms)(k, before)
      == Ok(Entry(Repay, dates[k], CountCapital(interest.value, ideal, current, IsLatest(dates, dates[k]), InHoliday(terms.holidayEnd, dates[k])), interest.value))
  {
  }

  lemma CountStepAt(dateStart: Date, dates: seq<Date>, ideal: real, balance: real, terms: Terms, k: nat, before: seq<Entry>)
    requires k < |dates|
    ensures CountStep(dateStart, dates, ideal, balance, terms)(k, before) == CountedInstalment(dateStart, dates, ideal, balance, terms, k, before)
  {
  }

  /** The last instalment takes up the difference between the balance and
      the capital repaid in total. */
  function Reconcile(es: seq<Entry>, balance: real): seq<Entry>
    requires |es| > 0
  {
    var difference := balance - SumAbsCapital(es);
    if difference != 0.0 then
      es[..|es| - 1] + [es[|es| - 1].(capital := es[|es| - 1].capital + difference)]
    else es
  }

  /** The ideal repayment of a date table, rounded to cents; zero is
      refused before the rounding, so only a failing ideal or an ideal of
      exactly zero fail. */
  function CountIdeal(dates: seq<Date>, balance: real, terms: Terms): (r: Result<real>)
    ensures var ideal := IdealFor(balance, terms.rate, terms.frequency, Instances(dates, terms.holidayEnd));
      && (r == Err(IdealRepaymentZero) <==> ideal == Ok(0.0))
      && (r.Err? && r.error != IdealRepaymentZero <==> ideal.Err?)
      && (r.Ok? ==> IsCents(r.value) && ideal.Ok? && Abs(ideal.value - r.value) <= 0.005)
  {
    var ideal :- IdealFor(balance, terms.rate, terms.frequency, Instances(dates, terms.holidayEnd));
    if ideal == 0.0 then Err(IdealRepaymentZero) else Ok(Round2(ideal))
  }

  /** GenerateRepayments(dateStart, entries, frequency, capitalBalance, ...)
      on the due dates of a date table. */
  function GenerateByCount(dateStart: Date, dates: seq<Date>, balance: real, terms: Terms): Result<seq<Entry>> {
    if |dates| == 0 then Ok([])
    else
      var ideal :- CountIdeal(dates, balance, terms);
      var pass :- Pass(CountStep(dateStart, dates, ideal, balance, terms), |dates|, 0, []);
      PassShape(CountStep(dateStart, dates, ideal, balance, terms), |dates|, 0, [], pass);
      Ok(Reconcile(pass, balance))
  }

  /** The reconciled pass over all due dates is the result. */
  lemma GenerateByCountOfPass(dateStart: Date, dates: seq<Date>, balance: real, terms: Terms, ideal: real)
    requires |dates| > 0
    requires CountIdeal(dates, balance, terms) == Ok(ideal)
    ensures var pass := Pass(CountStep(dateStart, dates, ideal, balance, terms), |dates|, 0, []);
      && (pass.Err? ==> GenerateByCount(dateStart, dates, balance, terms) == Err(pass.error))
      && (pass.Ok? ==> |pass.value| == |dates| && GenerateByCount(dateStart, dates, balance, terms) == Ok(Reconcile(pass.value, balance)))
  {
    var pass := Pass(CountStep(dateStart, dates, ideal, balance, terms), |dates|, 0, []);
    if pass.Ok? {
      PassShape(CountStep(dateStart, dates, ideal, balance, terms), |dates|, 0, [], pass.value);
    }
  }

  /** The date-table overload as the engine runs it: one loop over the due
      dates filling in interest and capital, then the reconciliation of the
      last instalment. */
  method GenerateRepaymentsByCount(dateStart: Date, dates: seq<Date>, balance: real, terms: Terms)
    returns (r: Result<seq<Entry>>)
    ensures r == GenerateByCount(dateStart, dates, balance, terms)
  {
    if |dates| == 0 {
      return Ok([]);
    }
    var instances := Instances(dates, terms.holidayEnd);
    var idealTotal := IdealFor(balance, terms.rate, terms.frequency, instances);
    if idealTotal.Err? {
      return Err(idealTotal.error);
    }
    if idealTotal.value == 0.0 {
      return Err(IdealRepaymentZero);
    }
    var ideal := Round2(idealTotal.value);
    GenerateByCountOfPass(dateStart, dates, balance, terms, ideal);
    ghost var step := CountStep(dateStart, dates, ideal, balance, terms);
    var entries: seq<Entry> := [];
    var dtLast := dateStart;
    var i := 0;
    while i < |dates|
      invariant 0 <= i <= |dates| && |entries| == i
      invariant Pass(step, |dates|, i, entries) == Pass(step, |dates|, 0, [])
      invariant dtLast == PreviousDue(dateStart, dates, i)
    {
      PassNext(step, |dates|, i, entries);
      var current := balance - SumAbsBefore(entries, dates[i]);
      var interest := InstalmentInterest(dateStart, dtLast, dates[i], current, terms);
      CountStepUnfold(dateStart, dates, ideal, balance, terms, i, entries, dtLast, current, interest);
      if interest.Err? {
        return Err(interest.error);
      }
      var capital := CountCapital(interest.value, ideal, current, IsLatest(dates, dates[i]), InHoliday(terms.holidayEnd, dates[i]));
      entries := entries + [Entry(Repay, dates[i], capital, interest.value)];
      dtLast := dates[i];
      i := i + 1;
    }
    return Ok(Reconcile(entries, balance));
  }

  // ---------------------------------------------------------------------
  // What the date-table overload promises
  // ---------------------------------------------------------------------

  /** Reconciliation keeps every instalment but the last; the last one's
      capital grows by what the balance and the capital repaid in total
      still differ by. */
  lemma ReconcileKeepsPrefix(es: seq<Entry>, balance: real)
    requires |es| > 0
    ensures |Reconcile(es, balance)| == |es|
    ensures Reconcile(es, balance)[..|es| - 1] == es[..|es| - 1]
    ensures Reconcile(es, balance)[|es| - 1]
         == es[|es| - 1].(capital := es[|es| - 1].capital + (balance - SumAbsCapital(es)))
  {
    var r := Reconcile(es, balance);
    if balance - SumAbsCapital(es) != 0.0 {
      assert r[..|es| - 1] == es[..|es| - 1];
    } else {
      assert es[|es| - 1] == es[|es| - 1].(capital := es[|es| - 1].capital + 0.0);
    }
  }

  /** When the instalments before the last repay no more than the balance
      and the last one's capital is not negative, the reconciled
      instalments repay exactly the balance. */
  lemma ReconcileRepaysBalance(es: seq<Entry>, balance: real)
    requires |es| > 0 && es[|es| - 1].capital >= 0.0 && SumAbsCapital(es[..|es| - 1]) <= balance
    ensures SumAbsCapital(Reconcile(es, balance)) == balance
  {
    var n := |es|;
    var r := Reconcile(es, balance);
    ReconcileKeepsPrefix(es, balance);
    assert SumAbsCapital(es) == SumAbsCapital(es[..n - 1]) + es[n - 1].capital;
    assert r[n - 1].capital == balance - SumAbsCapital(es[..n - 1]);
    assert SumAbsCapital(r) == SumAbsCapital(r[..n - 1]) + Abs(r[n - 1].capital);
  }

  /** The result of the date-table overload is its pass, reconciled. */
  lemma GenerateByCountIsPass(dateStart: Date, dates: seq<Date>, balance: real, terms: Terms, r: seq<Entry>)
    requires |dates| > 0 && GenerateByCount(dateStart, dates, balance, terms) == Ok(r)
    ensures CountIdeal(dates, balance, terms).Ok?
    ensures var pass := Pass(CountStep(dateStart, dates, CountIdeal(dates, balance, terms).value, balance, terms), |dates|, 0, []);
      pass.Ok? && |pass.value| == |dates| && r == Reconcile(pass.value, balance)
  {
    GenerateByCountOfPass(dateStart, dates, balance, terms, CountIdeal(dates, balance, terms).value);
  }

  /** A reconciled pass: each instalment but the last is what the step
      makes of the ones before it, and so is the last before it is
      reconciled. */
  lemma PassReconciled(step: (nat, seq<Entry>) -> Result<Entry>, n: nat, balance: real, pass: seq<Entry>)
    requires n > 0 && Pass(step, n, 0, []) == Ok(pass)
    ensures |pass| == n
    ensures var r := Reconcile(pass, balance);
      && |r| == n
      && (forall k :: 0 <= k < n - 1 ==> step(k, r[..k]) == Ok(r[k]))
      && step(n - 1, r[..n - 1]) == Ok(pass[n - 1])
      && r == Reconcile(r[..n - 1] + [pass[n - 1]], balance)
  {
    PassShape(step, n, 0, [], pass);
    ReconcileKeepsPrefix(pass, balance);
    var r := Reconcile(pass, balance);
    forall k | 0 <= k < n - 1
      ensures step(k, r[..k]) == Ok(r[k])
    {
      assert r[..k] == pass[..k] by {
        assert r[..k] == r[..n - 1][..k];
        assert pass[..k] == pass[..n - 1][..k];
      }
      assert r[k] == r[..n - 1][k];
    }
    assert pass == pass[..n - 1] + [pass[n - 1]];
  }

  /** The k-th instalment of the date-table overload is the one its due
      date calls for after the instalments before it; the last one is then
      reconciled. */
  lemma GenerateByCountAt(dateStart: Date, dates: seq<Date>, balance: real, terms: Terms, r: seq<Entry>, k: nat)
    requires |dates| > 0 && GenerateByCount(dateStart, dates, balance, terms) == Ok(r) && k < |dates|
    ensures CountIdeal(dates, balance, terms).Ok? && |r| == |dates|
    ensures var e := CountedInstalment(dateStart, dates, CountIdeal(dates, balance, terms).value, balance, terms, k, r[..k]);
      && e.Ok?
      && (k < |dates| - 1 ==> r[k] == e.value)
      && (k == |dates| - 1 ==> r == Reconcile(r[..k] + [e.value], balance))
  {
    GenerateByCountIsPass(dateStart, dates, balance, terms, r);
    var ideal := CountIdeal(dates, balance, terms).value;
    var step := CountStep(dateStart, dates, ideal, balance, terms);
    PassReconciled(step, |dates|, balance, Pass(step, |dates|, 0, []).value);
    CountStepAt(dateStart, dates, ideal, balance, terms, k, r[..k]);
  }

  /** Due dates in strictly ascending calendar order. */
  predicate StrictlyAscending(dates: seq<Date>) {
    forall i, j :: 0 <= i < j < |dates| ==> LexBefore(dates[i], dates[j])
  }

  /** On ascending due dates the latest date is the last one, and no other. */
  lemma LatestIsLast(dates: seq<Date>, k: nat)
    requires StrictlyAscending(dates) && k < |dates|
    ensures IsLatest(dates, dates[k]) <==> k == |dates| - 1
  {
    if k < |dates| - 1 {
      assert LexBefore(dates[k], dates[|dates| - 1]);
    } else {
      forall j | 0 <= j < |dates|
        ensures !LexBefore(dates[k], dates[j])
      {
        if j < k {
          assert LexBefore(dates[j], dates[k]);
        }
      }
    }
  }

  /** When every entry is dated before d, the capital repaid before d is
      all the capital repaid. */
  lemma {:induction false} SumAbsBeforeAll(es: seq<Entry>, d: Date)
    requires forall k :: 0 <= k < |es| ==> LexBefore(es[k].date, d)
    ensures SumAbsBefore(es, d) == SumAbsCapital(es)
    decreases |es|
  {
    if |es| > 0 {
      SumAbsBeforeAll(es[..|es| - 1], d);
    }
  }

  /** What an instalment of the date-table overload is made of. */
  lemma CountedInstalmentParts(dateStart: Date, dates: seq<Date>, ideal: real, balance: real, terms: Terms, k: nat, before: seq<Entry>, e: Entry)
    requires k < |dates| && CountedInstalment(dateStart, dates, ideal, balance, terms, k, before) == Ok(e)
    ensures e.kind == Repay && e.date == dates[k]
    ensures InstalmentInterest(dateStart, PreviousDue(dateStart, dates, k), dates[k], balance - SumAbsBefore(before, dates[k]), terms) == Ok(e.interest)
    ensures e.capital == CountCapital(e.interest, ideal, balance - SumAbsBefore(before, dates[k]), IsLatest(dates, dates[k]), InHoliday(terms.holidayEnd, dates[k]))
  {
  }

  /** An instalment as it stands in the result, the last one reconciled,
      keeps the date, kind and interest it was made with. */
  lemma ReconciledInstalment(dateStart: Date, dates: seq<Date>, ideal: real, balance: real, terms: Terms, r: seq<Entry>, k: nat)
    requires k < |dates| == |r|
    requires var e := CountedInstalment(dateStart, dates, ideal, balance, terms, k, r[..k]);
      && e.Ok?
      && (k < |dates| - 1 ==> r[k] == e.value)
      && (k == |dates| - 1 ==> r == Reconcile(r[..k] + [e.value], balance))
    ensures r[k].kind == Repay && r[k].date == dates[k]
    ensures InstalmentInterest(dateStart, PreviousDue(dateStart, dates, k), dates[k], balance - SumAbsBefore(r[..k], dates[k]), terms)
         == Ok(r[k].interest)
  {
    var e := CountedInstalment(dateStart, dates, ideal, balance, terms, k, r[..k]).value;
    CountedInstalmentParts(dateStart, dates, ideal, balance, terms, k, r[..k], e);
    if k == |dates| - 1 {
      ReconcileKeepsPrefix(r[..k] + [e], balance);
    }
  }

  /** The date-table overload makes one repayment per due date, on that
      date, whose interest accrues from the previous due date on the
      balance less the capital repaid before it. */
  lemma GenerateByCountInterest(dateStart: Date, dates: seq<Date>, balance: real, terms: Terms, r: seq<Entry>, k: nat)
    requires |dates| > 0 && GenerateByCount(dateStart, dates, balance, terms) == Ok(r) && k < |dates|
    ensures |r| == |dates| && r[k].kind == Repay && r[k].date == dates[k]
    ensures InstalmentInterest(dateStart, PreviousDue(dateStart, dates, k), dates[k], balance - SumAbsBefore(r[..k], dates[k]), terms)
         == Ok(r[k].interest)
  {
    GenerateByCountAt(dateStart, dates, balance, terms, r, k);
    ReconciledInstalment(dateStart, dates, CountIdeal(dates, balance, terms).value, balance, terms, r, k);
  }

  /** The capital of an instalment other than the latest: none in the
      holiday or when the interest alone exceeds the ideal, otherwise what
      makes capital and interest together the ideal. */
  lemma CountedCapital(dateStart: Date, dates: seq<Date>, ideal: real, balance: real, terms: Terms, k: nat, before: seq<Entry>, e: Entry)
    requires k < |dates| && CountedInstalment(dateStart, dates, ideal, balance, terms, k, before) == Ok(e)
    requires IsCents(ideal) && !IsLatest(dates, dates[k])
    ensures InHoliday(terms.holidayEnd, dates[k]) ==> e.capital == 0.0
    ensures !InHoliday(terms.holidayEnd, dates[k]) && e.interest > ideal ==> e.capital == 0.0
    ensures !InHoliday(terms.holidayEnd, dates[k]) && e.interest <= ideal ==> e.capital + e.interest == ideal
  {
    CountedInstalmentParts(dateStart, dates, ideal, balance, terms, k, before, e);
    Round2OfCents(0.0);
    if !InHoliday(terms.holidayEnd, dates[k]) && e.interest <= ideal {
      CountCapitalLevel(e.interest, ideal, balance - SumAbsBefore(before, dates[k]));
    }
  }

  /** On ascending due dates every instalment but the last pays the ideal
      repayment in capital and interest together, except in the holiday,
      where it repays no capital, and when its interest alone exceeds the
      ideal, where it repays none either. */
  lemma GenerateByCountLevel(dateStart: Date, dates: seq<Date>, balance: real, terms: Terms, r: seq<Entry>, k: nat)
    requires |dates| > 0 && GenerateByCount(dateStart, dates, balance, terms) == Ok(r)
    requires StrictlyAscending(dates) && k < |dates| - 1
    ensures CountIdeal(dates, balance, terms).Ok? && |r| == |dates|
    ensures InHoliday(terms.holidayEnd, dates[k]) ==> r[k].capital == 0.0
    ensures !InHoliday(terms.holidayEnd, dates[k]) && r[k].interest > CountIdeal(dates, balance, terms).value ==> r[k].capital == 0.0
    ensures !InHoliday(terms.holidayEnd, dates[k]) && r[k].interest <= CountIdeal(dates, balance, terms).value ==>
      r[k].capital + r[k].interest == CountIdeal(dates, balance, terms).value
  {
    GenerateByCountAt(dateStart, dates, balance, terms, r, k);
    LatestIsLast(dates, k);
    CountedCapital(dateStart, dates, CountIdeal(dates, balance, terms).value, balance, terms, k, r[..k], r[k]);
  }

  /** The capital of the latest instalment, before reconciliation, is not
      negative when the ideal and the balance left are not. */
  lemma CountCapitalLatest(interest: real, ideal: real, balance: real, inHoliday: bool)
    requires ideal >= 0.0 && balance >= 0.0
    ensures CountCapital(interest, ideal, balance, true, inHoliday) >= 0.0
  {
    Round2OfCents(0.0);
    Round2Monotone(0.0, if inHoliday || interest > ideal then 0.0 else if balance <= ideal then balance else ideal);
  }

  /** On ascending due dates, with each instalment on its own due date,
      the capital repaid before the k-th due date is all the capital of the
      instalments before it. */
  lemma PrefixBefore(dates: seq<Date>, r: seq<Entry>, k: nat)
    requires |dates| == |r| && k < |r| && StrictlyAscending(dates)
    requires forall j :: 0 <= j < |r| ==> r[j].date == dates[j]
    ensures SumAbsBefore(r[..k], dates[k]) == SumAbsCapital(r[..k])
  {
    var prefix := r[..k];
    forall j | 0 <= j < |prefix|
      ensures LexBefore(prefix[j].date, dates[k])
    {
      assert prefix[j] == r[j];
    }
    SumAbsBeforeAll(prefix, dates[k]);
  }

  /** The latest instalment as made, before reconciliation: its capital is
      not negative while the earlier ones leave some balance to repay. */
  lemma LatestInstalment(dateStart: Date, dates: seq<Date>, ideal: real, balance: real, terms: Terms, r: seq<Entry>)
    requires |dates| == |r| > 0 && StrictlyAscending(dates) && ideal >= 0.0
    requires forall j :: 0 <= j < |r| ==> r[j].date == dates[j]
    requires SumAbsCapital(r[..|r| - 1]) <= balance
    requires CountedInstalment(dateStart, dates, ideal, balance, terms, |r| - 1, r[..|r| - 1]).Ok?
    ensures CountedInstalment(dateStart, dates, ideal, balance, terms, |r| - 1, r[..|r| - 1]).value.capital >= 0.0
  {
    var n := |r|;
    var e := CountedInstalment(dateStart, dates, ideal, balance, terms, n - 1, r[..n - 1]).value;
    CountedInstalmentParts(dateStart, dates, ideal, balance, terms, n - 1, r[..n - 1], e);
    PrefixBefore(dates, r, n - 1);
    LatestIsLast(dates, n - 1);
    CountCapitalLatest(e.interest, ideal, balance - SumAbsCapital(r[..n - 1]), InHoliday(terms.holidayEnd, dates[n - 1]));
  }

  /** Each instalment of the date-table overload falls on its own due date. */
  lemma GenerateByCountDates(dateStart: Date, dates: seq<Date>, balance: real, terms: Terms, r: seq<Entry>)
    requires |dates| > 0 && GenerateByCount(dateStart, dates, balance, terms) == Ok(r)
    ensures |r| == |dates|
    ensures forall j :: 0 <= j < |r| ==> r[j].kind == Repay && r[j].date == dates[j]
  {
    GenerateByCountInterest(dateStart, dates, balance, terms, r, 0);
    forall j | 0 <= j < |r|
      ensures r[j].kind == Repay && r[j].date == dates[j]
    {
      GenerateByCountInterest(dateStart, dates, balance, terms, r, j);
    }
  }

  /** On ascending due dates, with a non-negative ideal, the instalments
      repay exactly the balance whenever those before the last repay no
      more than it: the last one takes up the rest. */
  lemma GenerateByCountRepaysBalance(dateStart: Date, dates: seq<Date>, balance: real, terms: Terms, r: seq<Entry>)
    requires |dates| > 0 && GenerateByCount(dateStart, dates, balance, terms) == Ok(r) && StrictlyAscending(dates)
    requires CountIdeal(dates, balance, terms).Ok? && CountIdeal(dates, balance, terms).value >= 0.0
    requires |r| == |dates| && SumAbsCapital(r[..|r| - 1]) <= balance
    ensures SumAbsCapital(r) == balance
  {
    var n := |dates|;
    var ideal := CountIdeal(dates, balance, terms).value;
    GenerateByCountDates(dateStart, dates, balance, terms, r);
    GenerateByCountAt(dateStart, dates, balance, terms, r, n - 1);
    LatestInstalment(dateStart, dates, ideal, balance, terms, r);
    var e := CountedInstalment(dateStart, dates, ideal, balance, terms, n - 1, r[..n - 1]).value;
    var es := r[..n - 1] + [e];
    assert es[..n - 1] == r[..n - 1];
    ReconcileRepaysBalance(es, balance);
  }

  /** On ascending due dates the capital repaid before each due date, which
      its interest accrues on the balance less of, is all the capital of the
      instalments before it. */
  lemma GenerateByCountRepaidBefore(dateStart: Date, dates: seq<Date>, balance: real, terms: Terms, r: seq<Entry>, k: nat)
    requires |dates| > 0 && GenerateByCount(dateStart, dates, balance, terms) == Ok(r) && StrictlyAscending(dates) && k < |dates|
    ensures |r| == |dates|
    ensures SumAbsBefore(r[..k], dates[k]) == SumAbsCapital(r[..k])
  {
    GenerateByCountDates(dateStart, dates, balance, terms, r);
    PrefixBefore(dates, r, k);
  }

  /** The failures of the date-table overload: an empty table makes no
      instalments; with every due date in the holiday there are no
      instances, so with no interest the product ideal is zero and refused,
      and with interest the series divides by zero; any ideal of zero is
      refused. */
  lemma GenerateByCountErrors(dateStart: Date, dates: seq<Date>, balance: real, terms: Terms)
    ensures |dates| == 0 ==> GenerateByCount(dateStart, dates, balance, terms) == Ok([])
    ensures |dates| > 0 && terms.rate == 0.0 && Instances(dates, terms.holidayEnd) == 0 ==>
      GenerateByCount(dateStart, dates, balance, terms) == Err(IdealRepaymentZero)
    ensures |dates| > 0 && terms.rate != 0.0 && Instances(dates, terms.holidayEnd) == 0 ==>
      GenerateByCount(dateStart, dates, balance, terms) == Err(DivideByZero)
    ensures |dates| > 0 && IdealFor(balance, terms.rate, terms.frequency, Instances(dates, terms.holidayEnd)) == Ok(0.0) ==>
      GenerateByCount(dateStart, dates, balance, terms) == Err(IdealRepaymentZero)
  {
    if |dates| > 0 && Instances(dates, terms.holidayEnd) == 0 && terms.rate == 0.0 {
      RoundHalfEvenOfInteger(0);
      assert balance * 0 as real == 0.0;
    }
  }

  /** The sum of |capital| is never negative. */
  lemma {:induction false} SumAbsCapitalNonNegative(es: seq<Entry>)
    ensures SumAbsCapital(es) >= 0.0
    decreases |es|
  {
    if |es| > 0 {
      SumAbsCapitalNonNegative(es[..|es| - 1]);
    }
  }

  /** The sum of |capital| covers the |capital| of each entry. */
  lemma {:induction false} SumAbsCapitalCovers(es: seq<Entry>, k: nat)
    requires k < |es|
    ensures SumAbsCapital(es) >= Abs(es[k].capital)
    decreases |es|
  {
    var n := |es|;
    if k < n - 1 {
      SumAbsCapitalCovers(es[..n - 1], k);
      assert es[..n - 1][k] == es[k];
    } else {
      SumAbsCapitalNonNegative(es[..n - 1]);
    }
  }

  /** At a zero rate the instalments accrue no interest. */
  lemma ZeroRateInterest(dateStart: Date, dtLast: Date, date: Date, balance: real, terms: Terms, interest: real)
    requires CalculatesInterest(terms) && terms.rate == 0.0
    requires InstalmentInterest(dateStart, dtLast, date, balance, terms) == Ok(interest)
    ensures interest == 0.0
  {
    Round2OfCents(0.0);
    var accrualEnd := PrevDay(date).value;
    if dateStart != date {
      assert terms.interestCalc(dtLast, accrualEnd, balance, terms.rate, terms.daysInYear)
          == Calculate(dtLast, accrualEnd, balance, terms.rate, terms.daysInYear);
      assert DailyRate(terms.rate, terms.daysInYear) == 0.0;
    }
  }

  /** The zero-rate ideal as written, at the instance-count level: with no
      interest, no holiday and two or more due dates, the product ideal
      makes the first instalment alone repay more capital than the whole
      balance, so the instalments cannot repay exactly the balance. */
  lemma GenerateByCountZeroRateOvershoots(dateStart: Date, dates: seq<Date>, balance: real, terms: Terms, r: seq<Entry>)
    requires |dates| >= 2 && StrictlyAscending(dates) && GenerateByCount(dateStart, dates, balance, terms) == Ok(r)
    requires terms.rate == 0.0 && terms.holidayEnd.None? && CalculatesInterest(terms) && balance >= 1.0
    ensures |r| == |dates| && r[0].capital > balance
    ensures SumAbsCapital(r) > balance
  {
    GenerateByCountLevel(dateStart, dates, balance, terms, r, 0);
    GenerateByCountInterest(dateStart, dates, balance, terms, r, 0);
    ZeroRateInterest(dateStart, PreviousDue(dateStart, dates, 0), dates[0], balance - SumAbsBefore(r[..0], dates[0]), terms, r[0].interest);
    ZeroRateCountIdeal(dates, balance, terms);
    SumAbsCapitalCovers(r, 0);
  }

  /** With no interest and no holiday the rounded product ideal over two or
      more due dates exceeds the balance. */
  lemma ZeroRateCountIdeal(dates: seq<Date>, balance: real, terms: Terms)
    requires |dates| >= 2 && terms.rate == 0.0 && terms.holidayEnd.None? && balance >= 1.0
    ensures CountIdeal(dates, balance, terms).Ok? && CountIdeal(dates, balance, terms).value > balance
  {
    var n := |dates|;
    var total := IdealFor(balance, terms.rate, terms.frequency, n).value;
    ProductExceeds(balance, n, total);
  }

  lemma ProductExceeds(balance: real, n: nat, total: real)
    requires n >= 2 && balance >= 1.0 && Abs(total - balance * n as real) <= 0.5
    ensures total - 0.005 > balance && total != 0.0
  {
    assert balance * n as real >= balance * 2.0;
  }

  // ---------------------------------------------------------------------
  // Repayments of a set value
  // ---------------------------------------------------------------------

  /** The capital of one instalment of the set-value overload, rounded to
      cents: none during the holiday; while the value is below the balance
      left, what the value leaves after the interest; otherwise the balance
      left, less the interest when both together exceed the value. */
  function ValueCapital(interest: real, value: real, current: real, inHoliday: bool): (r: real)
    ensures IsCents(r)
  {
    Round2(
      if inHoliday then 0.0
      else if value < current then value - interest
      else if current + interest > value then current - interest
      else current)
  }

  /** Outside the holiday, on whole cents: while the value is below the
      balance left an instalment pays exactly the value; otherwise it pays
      off the balance left, or, when that and the interest exceed the value,
      the balance left in capital and interest together. */
  lemma ValueCapitalCases(interest: real, value: real, current: real)
    requires IsCents(interest)
    ensures IsCents(value) && value < current ==> ValueCapital(interest, value, current, false) + interest == value
    ensures IsCents(current) && value >= current && current + interest > value ==>
      ValueCapital(interest, value, current, false) + interest == current
    ensures IsCents(current) && value >= current && current + interest <= value ==>
      ValueCapital(interest, value, current, false) == current
  {
    if IsCents(value) {
      CentsClosed(value, interest);
      Round2OfCents(value - interest);
    }
    if IsCents(current) {
      CentsClosed(current, interest);
      Round2OfCents(current - interest);
      Round2OfCents(current);
    }
  }

  /** The instalment on `date` of the set-value overload, given the previous
      due date and the balance left before it. */
  function ValueInstalment(dateStart: Date, dtLast: Date, date: Date, current: real, value: real, terms: Terms): Result<Entry> {
    var interest :- InstalmentInterest(dateStart, dtLast, date, current, terms);
    var capital := ValueCapital(interest, value, current, InHoliday(terms.holidayEnd, date));
    Ok(Entry(Repay, date, capital, interest))
  }

  /** A step that makes the instalment due on the date it is given. */
  ghost predicate Dated(step: (Date, Date, seq<Entry>) -> Result<Entry>) {
    forall dtLast: Date, dt: Date, before: seq<Entry> ::
      step(dtLast, dt, before).Ok? ==> step(dtLast, dt, before).value.date == dt
  }

  /** A run of instalments while the balance exceeds the capital repaid:
      the instalment due on dt, made by `step` from the previous due date
      and the instalments before it, then the next due date; the first
      failure ends the run, and so does running out of fuel. */
  function Run(step: (Date, Date, seq<Entry>) -> Result<Entry>, next: Date -> Result<Date>, balance: real, fuel: nat,
               dtLast: Date, dt: Date, entries: seq<Entry>): Result<seq<Entry>>
    decreases fuel
  {
    if balance <= SumAbsCapital(entries) then Ok(entries)
    else if fuel == 0 then Err(DoesNotTerminate)
    else
      var e :- step(dtLast, dt, entries);
      var later :- next(dt);
      Run(step, next, balance, fuel - 1, dt, later, entries + [e])
  }

  /** One more instalment: a run over a balance not yet repaid goes on after
      the step and the next date, or ends with the first failure. */
  lemma RunNext(step: (Date, Date, seq<Entry>) -> Result<Entry>, next: Date -> Result<Date>, balance: real, fuel: nat,
                dtLast: Date, dt: Date, entries: seq<Entry>)
    ensures balance <= SumAbsCapital(entries) ==> Run(step, next, balance, fuel, dtLast, dt, entries) == Ok(entries)
    ensures balance > SumAbsCapital(entries) && fuel == 0 ==> Run(step, next, balance, fuel, dtLast, dt, entries) == Err(DoesNotTerminate)
    ensures balance > SumAbsCapital(entries) && fuel > 0 && step(dtLast, dt, entries).Err? ==>
      Run(step, next, balance, fuel, dtLast, dt, entries) == Err(step(dtLast, dt, entries).error)
    ensures balance > SumAbsCapital(entries) && fuel > 0 && step(dtLast, dt, entries).Ok? && next(dt).Err? ==>
      Run(step, next, balance, fuel, dtLast, dt, entries) == Err(next(dt).error)
    ensures balance > SumAbsCapital(entries) && fuel > 0 && step(dtLast, dt, entries).Ok? && next(dt).Ok? ==>
      Run(step, next, balance, fuel, dtLast, dt, entries)
      == Run(step, next, balance, fuel - 1, dt, next(dt).value, entries + [step(dtLast, dt, entries).value])
  {
  }

  /** A run keeps the instalments already made; it stops once the capital
      repaid reaches the balance and not before; each new instalment is the
      step's, on a date the next-date step reaches from the one before. */
  lemma {:induction false} RunShape(step: (Date, Date, seq<Entry>) -> Result<Entry>, next: Date -> Result<Date>, balance: real, fuel: nat,
                                    dtLast: Date, dt: Date, entries: seq<Entry>, out: seq<Entry>)
    requires Dated(step)
    requires Run(step, next, balance, fuel, dtLast, dt, entries) == Ok(out)
    ensures |entries| <= |out| && out[..|entries|] == entries
    ensures balance <= SumAbsCapital(out)
    ensures forall k :: |entries| <= k < |out| ==> balance > SumAbsCapital(out[..k])
    ensures |entries| < |out| ==> out[|entries|].date == dt && step(dtLast, dt, entries) == Ok(out[|entries|])
    ensures forall k :: |entries| < k < |out| ==>
      next(out[k - 1].date) == Ok(out[k].date) && step(out[k - 1].date, out[k].date, out[..k]) == Ok(out[k])
    decreases fuel
  {
    if balance > SumAbsCapital(entries) {
      var e := step(dtLast, dt, entries).value;
      var later := next(dt).value;
      var n := |entries|;
      RunShape(step, next, balance, fuel - 1, dt, later, entries + [e], out);
      assert out[..n] == out[..n + 1][..n];
      assert out[n] == out[..n + 1][n];
      assert out[..n] == entries;
    }
  }

  /** The k-th instalment of a run from its start: made by the step from
      the due date before it, after the balance still exceeded the capital
      repaid. */
  lemma RunAt(step: (Date, Date, seq<Entry>) -> Result<Entry>, next: Date -> Result<Date>, balance: real, fuel: nat,
              dtStart: Date, out: seq<Entry>, k: nat)
    requires Dated(step) && Run(step, next, balance, fuel, dtStart, dtStart, []) == Ok(out) && k < |out|
    ensures balance > SumAbsCapital(out[..k])
    ensures step(if k == 0 then dtStart else out[k - 1].date, out[k].date, out[..k]) == Ok(out[k])
  {
    RunShape(step, next, balance, fuel, dtStart, dtStart, [], out);
  }

  /** The set-value overload's instalment due on dt after the previous due
      date, on the balance less all the capital repaid before it. */
  function ValueInstalmentAfter(dateStart: Date, value: real, balance: real, terms: Terms, dtLast: Date, dt: Date, before: seq<Entry>): Result<Entry> {
    ValueInstalment(dateStart, dtLast, dt, balance - SumAbsCapital(before), value, terms)
  }

  /** ValueInstalmentAfter as the step of a run. */
  function ValueStep(dateStart: Date, value: real, balance: real, terms: Terms): (Date, Date, seq<Entry>) -> Result<Entry> {
    (dtLast: Date, dt: Date, before: seq<Entry>) => ValueInstalmentAfter(dateStart, value, balance, terms, dtLast, dt, before)
  }

  lemma ValueStepAt(dateStart: Date, value: real, balance: real, terms: Terms, dtLast: Date, dt: Date, before: seq<Entry>)
    ensures ValueStep(dateStart, value, balance, terms)(dtLast, dt, before)
         == ValueInstalmentAfter(dateStart, value, balance, terms, dtLast, dt, before)
  {
  }

  /** Each set-value instalment falls on the date it is made for. */
  lemma ValueStepDated(dateStart: Date, value: real, balance: real, terms: Terms)
    ensures Dated(ValueStep(dateStart, value, balance, terms))
  {
    forall dtLast: Date, dt: Date, before: seq<Entry> | ValueStep(dateStart, value, balance, terms)(dtLast, dt, before).Ok?
      ensures ValueStep(dateStart, value, balance, terms)(dtLast, dt, before).value.date == dt
    {
      ValueStepAt(dateStart, value, balance, terms, dtLast, dt, before);
    }
  }

  /** The next due date: one frequency period on, at the day of month. */
  function NextDue(f: Frequency, dayOfMonth: int): Date -> Result<Date> {
    (d: Date) => AddFrequency(d, f, dayOfMonth)
  }

  /** GenerateRepayments(dateStart, repayment_capital_value, frequency,
      dayofmonth, capitalBalance, ...): instalments of a set value from the
      start date on, one frequency period apart, while the balance exceeds
      the capital repaid, at most `fuel` of them; a value of zero is
      refused. */
  function GenerateByValue(dateStart: Date, value: real, dayOfMonth: int, balance: real, terms: Terms, fuel: nat): Result<seq<Entry>> {
    if value == 0.0 then Err(IdealRepaymentZero)
    else Run(ValueStep(dateStart, value, balance, terms), NextDue(terms.frequency, dayOfMonth), balance, fuel, dateStart, dateStart, [])
  }

  /** The loop of the set-value overload: while the balance exceeds the
      capital repaid, the instalment on the current due date, then the due
      date one period on; at most `fuel` rounds. */
  method RunLoop(step: (Date, Date, seq<Entry>) -> Result<Entry>, next: Date -> Result<Date>, balance: real, fuel: nat, dtStart: Date)
    returns (r: Result<seq<Entry>>)
    ensures r == Run(step, next, balance, fuel, dtStart, dtStart, [])
  {
    var entries: seq<Entry> := [];
    var dtLast := dtStart;
    var dt := dtStart;
    var remaining := fuel;
    while balance > SumAbsCapital(entries)
      invariant Run(step, next, balance, remaining, dtLast, dt, entries) == Run(step, next, balance, fuel, dtStart, dtStart, [])
      decreases remaining
    {
      if remaining == 0 {
        return Err(DoesNotTerminate);
      }
      var e := step(dtLast, dt, entries);
      if e.Err? {
        return Err(e.error);
      }
      var later := next(dt);
      if later.Err? {
        return Err(later.error);
      }
      entries, dtLast, dt, remaining := entries + [e.value], dt, later.value, remaining - 1;
    }
    return Ok(entries);
  }

  /** The set-value overload as the engine runs it: a value of zero is
      refused, then the loop over the due dates from the start date. */
  method GenerateRepaymentsByValue(dateStart: Date, value: real, dayOfMonth: int, balance: real, terms: Terms, fuel: nat)
    returns (r: Result<seq<Entry>>)
    ensures r == GenerateByValue(dateStart, value, dayOfMonth, balance, terms, fuel)
  {
    if value == 0.0 {
      return Err(IdealRepaymentZero);
    }
    r := RunLoop(ValueStep(dateStart, value, balance, terms), NextDue(terms.frequency, dayOfMonth), balance, fuel, dateStart);
  }

  /** What an instalment of the set-value overload is made of. */
  lemma ValueInstalmentParts(dateStart: Date, dtLast: Date, date: Date, current: real, value: real, terms: Terms, e: Entry)
    requires ValueInstalment(dateStart, dtLast, date, current, value, terms) == Ok(e)
    ensures e.kind == Repay && e.date == date
    ensures InstalmentInterest(dateStart, dtLast, date, current, terms) == Ok(e.interest)
    ensures e.capital == ValueCapital(e.interest, value, current, InHoliday(terms.holidayEnd, date))
  {
  }

  /** The failures and the trivial case of the set-value overload: a value
      of zero is refused, and with no balance to repay there are no
      instalments. */
  lemma GenerateByValueErrors(dateStart: Date, value: real, dayOfMonth: int, balance: real, terms: Terms, fuel: nat)
    ensures value == 0.0 ==> GenerateByValue(dateStart, value, dayOfMonth, balance, terms, fuel) == Err(IdealRepaymentZero)
    ensures value != 0.0 && balance <= 0.0 ==> GenerateByValue(dateStart, value, dayOfMonth, balance, terms, fuel) == Ok([])
  {
  }

  /** The set-value overload stops once the capital repaid reaches the
      balance and not before; its instalments fall on the start date and
      then one frequency period apart; each is the instalment its date
      calls for after the ones before it. */
  lemma GenerateByValueShape(dateStart: Date, value: real, dayOfMonth: int, balance: real, terms: Terms, fuel: nat, r: seq<Entry>)
    requires GenerateByValue(dateStart, value, dayOfMonth, balance, terms, fuel) == Ok(r)
    ensures value != 0.0
    ensures balance <= SumAbsCapital(r)
    ensures forall k :: 0 <= k < |r| ==> balance > SumAbsCapital(r[..k])
    ensures |r| > 0 ==> r[0].date == dateStart
    ensures forall k :: 0 < k < |r| ==> AddFrequency(r[k - 1].date, terms.frequency, dayOfMonth) == Ok(r[k].date)
  {
    ValueStepDated(dateStart, value, balance, terms);
    RunShape(ValueStep(dateStart, value, balance, terms), NextDue(terms.frequency, dayOfMonth), balance, fuel, dateStart, dateStart, [], r);
  }

  /** The k-th instalment of the set-value overload is the one its due date
      calls for after the instalments before it, on the balance less all
      the capital they repaid, which it still exceeds. */
  lemma GenerateByValueAt(dateStart: Date, value: real, dayOfMonth: int, balance: real, terms: Terms, fuel: nat, r: seq<Entry>, k: nat)
    requires GenerateByValue(dateStart, value, dayOfMonth, balance, terms, fuel) == Ok(r) && k < |r|
    ensures balance > SumAbsCapital(r[..k])
    ensures ValueInstalmentAfter(dateStart, value, balance, terms, if k == 0 then dateStart else r[k - 1].date, r[k].date, r[..k]) == Ok(r[k])
  {
    ValueStepDated(dateStart, value, balance, terms);
    RunAt(ValueStep(dateStart, value, balance, terms), NextDue(terms.frequency, dayOfMonth), balance, fuel, dateStart, r, k);
    ValueStepAt(dateStart, value, balance, terms, if k == 0 then dateStart else r[k - 1].date, r[k].date, r[..k]);
  }

  /** What a set-value instalment after earlier ones is made of. */
  lemma ValueInstalmentAfterParts(dateStart: Date, value: real, balance: real, terms: Terms, dtLast: Date, date: Date, before: seq<Entry>, e: Entry)
    requires ValueInstalmentAfter(dateStart, value, balance, terms, dtLast, date, before) == Ok(e)
    ensures e.kind == Repay && e.date == date
    ensures InstalmentInterest(dateStart, dtLast, date, balance - SumAbsCapital(before), terms) == Ok(e.interest)
    ensures e.capital == ValueCapital(e.interest, value, balance - SumAbsCapital(before), InHoliday(terms.holidayEnd, date))
  {
    ValueInstalmentParts(dateStart, dtLast, date, balance - SumAbsCapital(before), value, terms, e);
  }

  /** How a set-value instalment splits, given the balance left before it:
      no capital in the holiday; outside it, on whole cents, exactly the
      value while the value is below the balance left, and otherwise the
      balance left in capital and interest together when they exceed the
      value. */
  predicate LevelInstalment(e: Entry, value: real, current: real, inHoliday: bool) {
    && (inHoliday ==> e.capital == 0.0)
    && (!inHoliday && IsCents(value) && value < current ==> e.capital + e.interest == value)
    && (!inHoliday && IsCents(current) && value >= current && current + e.interest > value ==>
          e.capital + e.interest == current)
  }

  /** The capital of a set-value instalment after earlier ones, case by
      case on the balance left. */
  lemma ValueInstalmentAfterCases(dateStart: Date, value: real, balance: real, terms: Terms, dtLast: Date, date: Date, before: seq<Entry>, e: Entry)
    requires ValueInstalmentAfter(dateStart, value, balance, terms, dtLast, date, before) == Ok(e)
    ensures LevelInstalment(e, value, balance - SumAbsCapital(before), InHoliday(terms.holidayEnd, date))
    ensures (&& !InHoliday(terms.holidayEnd, date) && IsCents(balance - SumAbsCapital(before))
             && value >= balance - SumAbsCapital(before) && balance - SumAbsCapital(before) + e.interest <= value) ==>
      e.capital == balance - SumAbsCapital(before)
  {
    ValueInstalmentAfterParts(dateStart, value, balance, terms, dtLast, date, before, e);
    Round2OfCents(0.0);
    ValueCapitalCases(e.interest, value, balance - SumAbsCapital(before));
  }

  /** Each instalment of the set-value overload splits as LevelInstalment
      says, on the balance its predecessors left. */
  lemma GenerateByValueLevel(dateStart: Date, value: real, dayOfMonth: int, balance: real, terms: Terms, fuel: nat, r: seq<Entry>, k: nat)
    requires GenerateByValue(dateStart, value, dayOfMonth, balance, terms, fuel) == Ok(r) && k < |r|
    ensures LevelInstalment(r[k], value, balance - SumAbsCapital(r[..k]), InHoliday(terms.holidayEnd, r[k].date))
  {
    var dtLast := if k == 0 then dateStart else r[k - 1].date;
    GenerateByValueAt(dateStart, value, dayOfMonth, balance, terms, fuel, r, k);
    ValueInstalmentAfterCases(dateStart, value, balance, terms, dtLast, r[k].date, r[..k], r[k]);
  }

  /** Once the instalments up to and including the k-th have repaid the
      balance, the k-th is the last. */
  lemma GenerateByValueLast(dateStart: Date, value: real, dayOfMonth: int, balance: real, terms: Terms, fuel: nat, r: seq<Entry>, k: nat)
    requires GenerateByValue(dateStart, value, dayOfMonth, balance, terms, fuel) == Ok(r) && k < |r|
    requires balance <= SumAbsCapital(r[..k + 1])
    ensures k == |r| - 1
  {
    if k + 1 < |r| {
      GenerateByValueAt(dateStart, value, dayOfMonth, balance, terms, fuel, r, k + 1);
      assert false;
    }
  }

  /** An instalment that can pay off the balance left within the value
      does so, and it is the last: the instalments then repay exactly the
      balance. */
  lemma GenerateByValuePaysOff(dateStart: Date, value: real, dayOfMonth: int, balance: real, terms: Terms, fuel: nat, r: seq<Entry>, k: nat)
    requires GenerateByValue(dateStart, value, dayOfMonth, balance, terms, fuel) == Ok(r) && k < |r|
    requires !InHoliday(terms.holidayEnd, r[k].date)
    requires var current := balance - SumAbsCapital(r[..k]);
      IsCents(current) && value >= current && current + r[k].interest <= value
    ensures r[k].capital == balance - SumAbsCapital(r[..k])
    ensures k == |r| - 1 && SumAbsCapital(r) == balance
  {
    GenerateByValueAt(dateStart, value, dayOfMonth, balance, terms, fuel, r, k);
    ValueInstalmentAfterCases(dateStart, value, balance, terms, if k == 0 then dateStart else r[k - 1].date, r[k].date, r[..k], r[k]);
    SumAbsCapitalTake(r, k);
    GenerateByValueLast(dateStart, value, dayOfMonth, balance, terms, fuel, r, k);
    assert r[..k + 1] == r;
  }

  /** The first instalment of the set-value overload falls on the start
      date and accrues no interest. */
  lemma GenerateByValueFirst(dateStart: Date, value: real, dayOfMonth: int, balance: real, terms: Terms, fuel: nat, r: seq<Entry>)
    requires GenerateByValue(dateStart, value, dayOfMonth, balance, terms, fuel) == Ok(r) && |r| > 0
    ensures r[0].date == dateStart && r[0].interest == 0.0
  {
    GenerateByValueShape(dateStart, value, dayOfMonth, balance, terms, fuel, r);
    GenerateByValueAt(dateStart, value, dayOfMonth, balance, terms, fuel, r, 0);
    ValueInstalmentAfterParts(dateStart, value, balance, terms, dateStart, r[0].date, r[..0], r[0]);
    Round2OfCents(0.0);
  }

  /** The due dates of the set-value overload strictly ascend. */
  lemma GenerateByValueAscending(dateStart: Date, value: real, dayOfMonth: int, balance: real, terms: Terms, fuel: nat, r: seq<Entry>, k: nat)
    requires GenerateByValue(dateStart, value, dayOfMonth, balance, terms, fuel) == Ok(r) && 0 < k < |r|
    ensures Before(r[k - 1].date, r[k].date)
  {
    GenerateByValueShape(dateStart, value, dayOfMonth, balance, terms, fuel, r);
    AddFrequencyIsLater(r[k - 1].date, terms.frequency, dayOfMonth);
  }
}
