/** Fill of the aMorti engine: the balance movements of a schedule (capital
    payments and an opening outstanding balance) taken in date order, each
    one cutting off the entries dated after it and re-amortizing the signed
    balance it leaves, and the schedule entries rebuilt from the result. */
module Timeline {
  import opened Failures
  import opened Calendar
  import opened Common
  import opened Extensions
  import opened Interest
  import opened DateTable
  import opened Repayments
  import Ledger

  /** A PAYMENT_CAPITAL parameter, already parsed: its date and value. */
  datatype Payment = Payment(date: Date, value: real)

  /** The repayment parameters, already parsed. A parameter that is absent
      reads as its type's default: 0 for the numbers, MinValue for the
      maturity date, None for the nullable dates. `optionCount` is how many
      of the three REPAYMENT_OPTION parameters are present. */
  datatype RepaymentOptions = RepaymentOptions(
    optionCount: nat,
    capitalOutstanding: real,
    frequency: Frequency,
    dayOfMonth: int,
    interestRate: int,
    instances: int,
    maturityDate: Date,
    repayValue: real,
    daysInYear: int,
    holidayEnd: Option<Date>,
    firstRepaymentDate: Option<Date>)

  /** The terms Fill hands both generators; interest is Interest.Calculate. */
  function TermsOf(o: RepaymentOptions): Terms {
    Terms(o.frequency, o.interestRate as real, o.daysInYear, o.holidayEnd, Calculate)
  }

  lemma TermsCalculateInterest(o: RepaymentOptions)
    ensures CalculatesInterest(TermsOf(o))
    ensures TermsOf(o).rate == o.interestRate as real && TermsOf(o).holidayEnd == o.holidayEnd
  {
  }

  /** Repayment by instances: a number of instances or a maturity date
      was given. */
  predicate Instanced(o: RepaymentOptions) {
    o.instances > 0 || LexBefore(MinValue, o.maturityDate)
  }

  /** Repayment of a set value. */
  predicate Valued(o: RepaymentOptions) {
    o.repayValue > 0.0
  }

  /** One Pay entry per payment, in the order given. */
  function PaymentEntries(ps: seq<Payment>): seq<Entry> {
    seq(|ps|, i requires 0 <= i < |ps| => Entry(Pay, ps[i].date, ps[i].value, 0.0))
  }

  /** The balance movements: the payments, then the outstanding capital on
      the schedule's start date when there is some. */
  function Movements(startDate: Date, ps: seq<Payment>, o: RepaymentOptions): seq<Entry> {
    PaymentEntries(ps) + (if o.capitalOutstanding > 0.0 then [Entry(Outstanding, startDate, o.capitalOutstanding, 0.0)] else [])
  }

  /** The later of an optional date and a date (the local maxDate). */
  function MaxDate(dt1: Option<Date>, dt2: Date): (r: Date) {
    if dt1.None? then dt2 else if LexBefore(dt1.value, dt2) then dt2 else dt1.value
  }

  /** MaxDate is the later of the two, and is one of them. */
  lemma MaxDateIsLater(dt1: Option<Date>, dt2: Date)
    ensures dt1.None? ==> MaxDate(dt1, dt2) == dt2
    ensures dt1.Some? ==> MaxDate(dt1, dt2) == dt1.value || MaxDate(dt1, dt2) == dt2
    ensures !LexBefore(MaxDate(dt1, dt2), dt2)
    ensures dt1.Some? ==> !LexBefore(MaxDate(dt1, dt2), dt1.value)
  {
  }

  /** A number that orders dates as the calendar does. */
  function DateKey(d: Date): int {
    (d.year * 12 + d.month) * 32 + d.day
  }

  lemma DateKeyOrder(a: Date, b: Date)
    ensures LexBefore(a, b) <==> DateKey(a) < DateKey(b)
  {
  }

  /** Entries ordered by date: no entry is dated before the one ahead of
      it. */
  predicate DateOrdered(s: seq<Entry>) {
    forall i :: 0 < i < |s| ==> DateKey(s[i - 1].date) <= DateKey(s[i].date)
  }

  /** x put after every entry dated on or before it. */
  function InsertByDate(x: Entry, s: seq<Entry>): seq<Entry> {
    if s == [] then [x]
    else if LexBefore(x.date, s[0].date) then [x] + s
    else [s[0]] + InsertByDate(x, s[1..])
  }

  /** OrderBy(n => n.Date): each entry inserted after the ones before it
      with the same date or an earlier one. */
  function OrderByDate(s: seq<Entry>): seq<Entry> {
    if s == [] then [] else InsertByDate(s[|s| - 1], OrderByDate(s[..|s| - 1]))
  }

  lemma {:induction false} InsertByDateContents(x: Entry, s: seq<Entry>)
    ensures multiset(InsertByDate(x, s)) == multiset(s) + multiset{x}
    ensures |InsertByDate(x, s)| == |s| + 1
  {
    if s != [] && !LexBefore(x.date, s[0].date) {
      InsertByDateContents(x, s[1..]);
      assert s == [s[0]] + s[1..];
    }
  }

  lemma {:induction false} InsertByDateSorts(x: Entry, s: seq<Entry>)
    requires DateOrdered(s)
    ensures DateOrdered(InsertByDate(x, s))
    ensures InsertByDate(x, s)[0] == x || (s != [] && InsertByDate(x, s)[0] == s[0])
  {
    DateKeyOrder(x.date, if s == [] then x.date else s[0].date);
    if s != [] && !LexBefore(x.date, s[0].date) {
      InsertByDateSorts(x, s[1..]);
      var t := InsertByDate(x, s[1..]);
      var r := [s[0]] + t;
      forall i | 0 < i < |r|
        ensures DateKey(r[i - 1].date) <= DateKey(r[i].date)
      {
        if i > 1 {
          assert r[i - 1] == t[i - 2] && r[i] == t[i - 1];
        }
      }
    }
  }

  /** In date order, no entry is dated before any entry ahead of it. */
  lemma {:induction false} DateOrderedPairwise(s: seq<Entry>, i: nat, j: nat)
    requires DateOrdered(s) && i < j < |s|
    ensures !LexBefore(s[j].date, s[i].date)
    decreases j - i
  {
    DateKeyOrder(s[j].date, s[i].date);
    if i + 1 < j {
      DateOrderedPairwise(s, i + 1, j);
      DateKeyOrder(s[j].date, s[i + 1].date);
    }
  }

  /** The movements come out in date order, each of them exactly once. */
  lemma OrderByDateSorts(s: seq<Entry>)
    ensures DateOrdered(OrderByDate(s))
    ensures multiset(OrderByDate(s)) == multiset(s)
  {
    OrderByDateOrdered(s);
    OrderByDateContents(s);
  }

  lemma {:induction false} OrderByDateOrdered(s: seq<Entry>)
    ensures DateOrdered(OrderByDate(s))
  {
    if s != [] {
      var init := s[..|s| - 1];
      OrderByDateOrdered(init);
      InsertByDateSorts(s[|s| - 1], OrderByDate(init));
    }
  }

  lemma {:induction false} OrderByDateContents(s: seq<Entry>)
    ensures multiset(OrderByDate(s)) == multiset(s)
  {
    if s != [] {
      var init, last := s[..|s| - 1], s[|s| - 1];
      var sorted := OrderByDate(init);
      OrderByDateContents(init);
      InsertByDateContents(last, sorted);
      assert OrderByDate(s) == InsertByDate(last, sorted);
      assert s == init + [last];
      assert multiset(s) == multiset(init) + multiset{last};
    }
  }

  /** RemoveAll(n => n.Date > d): the entries dated on or before d, in
      their order. */
  function RemoveAfter(es: seq<Entry>, d: Date): seq<Entry> {
    if es == [] then []
    else RemoveAfter(es[..|es| - 1], d) + (if LexBefore(d, es[|es| - 1].date) then [] else [es[|es| - 1]])
  }

  /** RemoveAfter keeps exactly the entries dated on or before d. */
  lemma {:induction false} RemoveAfterKeeps(es: seq<Entry>, d: Date)
    ensures forall e :: e in RemoveAfter(es, d) <==> e in es && !LexBefore(d, e.date)
    ensures |RemoveAfter(es, d)| <= |es|
  {
    if es != [] {
      RemoveAfterKeeps(es[..|es| - 1], d);
      assert es == es[..|es| - 1] + [es[|es| - 1]];
    }
  }

  /** Where(n => n.Date <= d).Sum(n => n.ValueCapitalSigned). */
  function SignedUpTo(es: seq<Entry>, d: Date): real {
    if es == [] then 0.0
    else SignedUpTo(es[..|es| - 1], d) + (if LexBefore(d, es[|es| - 1].date) then 0.0 else ValueCapitalSigned(es[|es| - 1]))
  }

  /** The sum of the signed capital of all entries. */
  function SumSigned(es: seq<Entry>): real {
    if es == [] then 0.0 else SumSigned(es[..|es| - 1]) + ValueCapitalSigned(es[|es| - 1])
  }

  /** When no entry is dated after d, the balance up to d is the signed sum
      of them all. */
  lemma {:induction false} SignedUpToAll(es: seq<Entry>, d: Date)
    requires forall i :: 0 <= i < |es| ==> !LexBefore(d, es[i].date)
    ensures SignedUpTo(es, d) == SumSigned(es)
  {
    if es != [] {
      SignedUpToAll(es[..|es| - 1], d);
    }
  }

  /** The repayments a movement on `date` leaves a balance of `balance` to:
      by instances on a date table from the later of the first repayment
      date and the movement, up to the maturity (the given one, or the
      number of instances on from that date), or by a set value. */
  function RepaymentsAfter(o: RepaymentOptions, date: Date, balance: real, fuel: nat): Result<seq<Entry>> {
    if Instanced(o) then
      var start := MaxDate(o.firstRepaymentDate, date);
      var maturity :- if o.instances > 0 then AddFrequencyBy(start, o.instances, o.frequency) else Ok(o.maturityDate);
      var dates :- DateTableOf(o.frequency, start, maturity, o.dayOfMonth, false);
      if |dates| == 0 then Err(NotEnoughInstances)
      else GenerateByCount(date, dates, balance, TermsOf(o))
    else if Valued(o) then GenerateByValue(date, o.repayValue, o.dayOfMonth, balance, TermsOf(o), fuel)
    else Ok([])
  }

  /** One movement: the entries dated after it dropped, the movement added,
      and the repayments of the signed balance up to its date added. */
  function Move(es: seq<Entry>, m: Entry, o: RepaymentOptions, fuel: nat): Result<seq<Entry>> {
    var kept := RemoveAfter(es, m.date) + [m];
    var repayments :- RepaymentsAfter(o, m.date, SignedUpTo(kept, m.date), fuel);
    Ok(kept + repayments)
  }

  /** The movements taken one after another from an empty list. */
  function Replay(ms: seq<Entry>, o: RepaymentOptions, fuel: nat): Result<seq<Entry>> {
    if ms == [] then Ok([])
    else
      var es :- Replay(ms[..|ms| - 1], o, fuel);
      Move(es, ms[|ms| - 1], o, fuel)
  }

  /** The entry list Fill builds: without repayment parameters, the
      payments alone; with them, exactly one repayment option must be
      given, and the movements are replayed in date order. */
  function Filled(startDate: Date, ps: seq<Payment>, options: Option<RepaymentOptions>, fuel: nat): Result<seq<Entry>> {
    match options
    case None => Ok(PaymentEntries(ps))
    case Some(o) =>
      if o.optionCount == 0 then Err(NoRepaymentOption)
      else if o.optionCount > 1 then Err(TooManyRepaymentOptions)
      else Replay(OrderByDate(Movements(startDate, ps, o)), o, fuel)
  }

  /** Where(n => n.Type != Outstanding): what becomes a schedule entry. */
  function Listed(es: seq<Entry>): seq<Entry> {
    if es == [] then []
    else Listed(es[..|es| - 1]) + (if es[|es| - 1].kind == Outstanding then [] else [es[|es| - 1]])
  }

  lemma {:induction false} ListedKeeps(es: seq<Entry>)
    ensures forall e :: e in Listed(es) <==> e in es && e.kind != Outstanding
  {
    if es != [] {
      ListedKeeps(es[..|es| - 1]);
      assert es == es[..|es| - 1] + [es[|es| - 1]];
    }
  }

  /** The schedule entry type an entry is cast to. */
  function EntryTypeOf(k: EntryKind): Ledger.ScheduleEntryType {
    if k == Repay then Ledger.ScheduleEntryType.Repay else Ledger.ScheduleEntryType.Pay
  }

  /** The schedule entries show the entries one for one: type, date, and
      the capital and interest of their transactions. */
  predicate Shows(ses: seq<Ledger.ScheduleEntry>, es: seq<Entry>)
    reads ses
  {
    && |ses| == |es|
    && forall i :: 0 <= i < |ses| ==>
         && ses[i].EntryType == EntryTypeOf(es[i].kind)
         && ses[i].EntryDate == es[i].date
         && ses[i].Capital() == es[i].capital
         && ses[i].Interest() == es[i].interest
  }

  /** No transaction of any of the entries has been repaid. */
  predicate AllUnrepaid(ses: seq<Ledger.ScheduleEntry>)
    reads ses, set i, k | 0 <= i < |ses| && 0 <= k < |ses[i].Transactions| :: ses[i].Transactions[k]
  {
    forall i, k :: 0 <= i < |ses| && 0 <= k < |ses[i].Transactions| ==>
      ses[i].Transactions[k].Outstanding == ses[i].Transactions[k].Value
  }

  /** The sum of interest over entries, as stored. */
  function SumInterest(es: seq<Entry>): real {
    if es == [] then 0.0 else SumInterest(es[..|es| - 1]) + es[|es| - 1].interest
  }

  /** The transactions of a list of schedule entries. */
  ghost function Footprint(ses: seq<Ledger.ScheduleEntry>): set<object>
    reads ses
  {
    set i, k | 0 <= i < |ses| && 0 <= k < |ses[i].Transactions| :: ses[i].Transactions[k]
  }

  lemma FootprintPrefix(ses: seq<Ledger.ScheduleEntry>, n: nat)
    requires n <= |ses|
    ensures Footprint(ses[..n]) <= Footprint(ses)
  {
    forall o | o in Footprint(ses[..n]) ensures o in Footprint(ses) {
      var i, k :| 0 <= i < n && 0 <= k < |ses[i].Transactions| && o == ses[i].Transactions[k];
      assert ses[..n][i] == ses[i];
    }
  }

  /** ScheduleEntries.Sum(n => n.OutstandingTotal). */
  function SumOutstandingTotal(ses: seq<Ledger.ScheduleEntry>): real
    reads ses, Footprint(ses)
  {
    if ses == [] then 0.0
    else
      FootprintPrefix(ses, |ses| - 1);
      SumOutstandingTotal(ses[..|ses| - 1]) + ses[|ses| - 1].OutstandingTotal()
  }

  /** ScheduleEntries.Sum(n => n.Outstanding(type)). */
  function SumOutstandingOf(ses: seq<Ledger.ScheduleEntry>, t: Ledger.TransactionType): real
    reads ses, Footprint(ses)
  {
    if ses == [] then 0.0
    else
      FootprintPrefix(ses, |ses| - 1);
      SumOutstandingOf(ses[..|ses| - 1], t) + ses[|ses| - 1].Outstanding(t)
  }

  /** What is outstanding in total is what is outstanding in capital plus
      what is outstanding in interest. */
  lemma {:induction false} OutstandingSplits(ses: seq<Ledger.ScheduleEntry>)
    ensures SumOutstandingTotal(ses) == SumOutstandingOf(ses, Ledger.TransactionType.Capital) + SumOutstandingOf(ses, Ledger.TransactionType.Interest)
  {
    if ses != [] {
      OutstandingSplits(ses[..|ses| - 1]);
    }
  }

  /** Schedule entries that show a list of entries, none of them repaid,
      owe all of its capital and all of its interest. */
  lemma {:induction false} ShownOwesAll(ses: seq<Ledger.ScheduleEntry>, es: seq<Entry>)
    requires Shows(ses, es) && AllUnrepaid(ses)
    ensures SumOutstandingOf(ses, Ledger.TransactionType.Capital) == SumCapital(es)
    ensures SumOutstandingOf(ses, Ledger.TransactionType.Interest) == SumInterest(es)
  {
    if ses != [] {
      var n := |ses| - 1;
      assert Shows(ses[..n], es[..n]);
      assert AllUnrepaid(ses[..n]) by {
        forall i, k | 0 <= i < n && 0 <= k < |ses[..n][i].Transactions|
          ensures ses[..n][i].Transactions[k].Outstanding == ses[..n][i].Transactions[k].Value
        {
          assert ses[..n][i] == ses[i];
        }
      }
      ShownOwesAll(ses[..n], es[..n]);
      assert Ledger.Unrepaid(ses[n].Transactions) by {
        forall k | 0 <= k < |ses[n].Transactions|
          ensures ses[n].Transactions[k].Outstanding == ses[n].Transactions[k].Value
        {
        }
      }
      Ledger.UnrepaidOutstandingIsValue(ses[n].Transactions, Ledger.TransactionType.Capital);
      Ledger.UnrepaidOutstandingIsValue(ses[n].Transactions, Ledger.TransactionType.Interest);
    }
  }

  /** Without repayment parameters Fill lists the payments alone; with
      them it refuses none or several repayment options before anything
      else. */
  lemma FilledErrors(startDate: Date, ps: seq<Payment>, options: Option<RepaymentOptions>, fuel: nat)
    ensures options.None? ==> Filled(startDate, ps, options, fuel) == Ok(PaymentEntries(ps))
    ensures options.Some? && options.value.optionCount == 0 ==> Filled(startDate, ps, options, fuel) == Err(NoRepaymentOption)
    ensures options.Some? && options.value.optionCount > 1 ==> Filled(startDate, ps, options, fuel) == Err(TooManyRepaymentOptions)
  {
  }

  /** A failure part way through the movements fails the whole replay with
      the same error. */
  lemma {:induction false} ReplayFailureSticks(ms: seq<Entry>, o: RepaymentOptions, fuel: nat, i: nat)
    requires i <= |ms| && Replay(ms[..i], o, fuel).Err?
    ensures Replay(ms, o, fuel) == Replay(ms[..i], o, fuel)
    decreases |ms| - i
  {
    if i < |ms| {
      assert ms[..i + 1][..i] == ms[..i];
      ReplayFailureSticks(ms, o, fuel, i + 1);
    } else {
      assert ms[..i] == ms;
    }
  }

  /** One turn of the movement loop: the repayments after movement i
      either fail the whole replay or extend the replay of the movements
      before it. */
  lemma ReplayNext(ms: seq<Entry>, o: RepaymentOptions, fuel: nat, i: nat, es: seq<Entry>, kept: seq<Entry>, balance: real, repayments: Result<seq<Entry>>)
    requires i < |ms| && Replay(ms[..i], o, fuel) == Ok(es)
    requires kept == RemoveAfter(es, ms[i].date) + [ms[i]] && balance == SignedUpTo(kept, ms[i].date)
    requires repayments == RepaymentsAfter(o, ms[i].date, balance, fuel)
    ensures repayments.Err? ==> Replay(ms, o, fuel) == Err(repayments.error)
    ensures repayments.Ok? ==> Replay(ms[..i + 1], o, fuel) == Ok(kept + repayments.value)
  {
    assert ms[..i + 1][..i] == ms[..i];
    if repayments.Err? {
      ReplayFailureSticks(ms, o, fuel, i + 1);
    }
  }

  /** One movement keeps the entries dated on or before it, in their order,
      then the movement itself, then the repayments of the signed capital
      of all of them. */
  lemma MoveCutsOff(es: seq<Entry>, m: Entry, o: RepaymentOptions, fuel: nat, r: seq<Entry>)
    requires Move(es, m, o, fuel) == Ok(r)
    ensures var kept := RemoveAfter(es, m.date);
      && |kept| < |r| && r[..|kept|] == kept && r[|kept|] == m
      && (forall e :: e in kept <==> e in es && !LexBefore(m.date, e.date))
      && RepaymentsAfter(o, m.date, SumSigned(kept + [m]), fuel) == Ok(r[|kept| + 1..])
  {
    var kept := RemoveAfter(es, m.date);
    RemoveAfterKeeps(es, m.date);
    var withM := kept + [m];
    forall i | 0 <= i < |withM| ensures !LexBefore(m.date, withM[i].date) {
      if i < |kept| {
        assert withM[i] in kept;
      }
    }
    SignedUpToAll(withM, m.date);
    assert r == withM + r[|kept| + 1..];
  }

  /** Repayment by instances fails when the date table is empty; with a
      number of instances the maturity is strictly after the first due
      date, so the table's own end-before-start check cannot fire; with no
      repayment option nothing is repaid. */
  lemma RepaymentsAfterCases(o: RepaymentOptions, date: Date, balance: real, fuel: nat)
    ensures !Instanced(o) && !Valued(o) ==> RepaymentsAfter(o, date, balance, fuel) == Ok([])
    ensures o.instances > 0 && Declared(o.frequency) ==>
      var start := MaxDate(o.firstRepaymentDate, date);
      AddFrequencyBy(start, o.instances, o.frequency).Ok?
      && Before(start, AddFrequencyBy(start, o.instances, o.frequency).value)
    ensures var start := MaxDate(o.firstRepaymentDate, date);
      var maturity := if o.instances > 0 then AddFrequencyBy(start, o.instances, o.frequency) else Ok(o.maturityDate);
      Instanced(o) && maturity.Ok? && DateTableOf(o.frequency, start, maturity.value, o.dayOfMonth, false) == Ok([]) ==>
      RepaymentsAfter(o, date, balance, fuel) == Err(NotEnoughInstances)
  {
    if o.instances > 0 && Declared(o.frequency) {
      AddFrequencyByIsLater(MaxDate(o.firstRepaymentDate, date), o.instances, o.frequency);
    }
  }

  /** A schedule of the aMorti engine: its version, start date and entries. */
  class Schedule {
    const Version: int
    const StartDate: Date
    var ScheduleEntries: seq<Ledger.ScheduleEntry>

    constructor (startDate: Date, version: int)
      ensures StartDate == startDate && Version == version && ScheduleEntries == []
    {
      StartDate := startDate;
      Version := version;
      ScheduleEntries := [];
    }

    /** Outstanding(): the outstanding total over all entries. */
    function Outstanding(): real
      reads this, ScheduleEntries, Footprint(ScheduleEntries)
    {
      SumOutstandingTotal(ScheduleEntries)
    }

    /** Outstanding(type): what is outstanding of one transaction type. */
    function OutstandingOf(t: Ledger.TransactionType): real
      reads this, ScheduleEntries, Footprint(ScheduleEntries)
    {
      SumOutstandingOf(ScheduleEntries, t)
    }

    /** Fill(payments, repayments): builds the entry list, and only once it
        is complete replaces the schedule entries with its Pay and Repay
        entries, each with one capital and one interest transaction. A
        failure leaves the schedule entries as they were. */
    method Fill(ps: seq<Payment>, options: Option<RepaymentOptions>, fuel: nat) returns (r: Result<seq<Entry>>)
      modifies this
      ensures r == Filled(StartDate, ps, options, fuel)
      ensures r.Err? ==> ScheduleEntries == old(ScheduleEntries)
      ensures r.Ok? ==> Shows(ScheduleEntries, Listed(r.value)) && AllUnrepaid(ScheduleEntries)
      ensures r.Ok? ==> forall i :: 0 <= i < |ScheduleEntries| ==> fresh(ScheduleEntries[i])
    {
      if options.None? {
        r := Ok(PaymentEntries(ps));
      } else {
        var o := options.value;
        if o.optionCount == 0 {
          return Err(NoRepaymentOption);
        }
        if o.optionCount > 1 {
          return Err(TooManyRepaymentOptions);
        }
        r := ReplayMovements(OrderByDate(Movements(StartDate, ps, o)), o, fuel);
        if r.Err? {
          return;
        }
      }
      Refill(r.value);
    }

    /** The end of Fill: ScheduleEntries cleared, then one entry added per
        Pay or Repay entry, in order. */
    method Refill(entries: seq<Entry>)
      modifies this
      ensures Shows(ScheduleEntries, Listed(entries)) && AllUnrepaid(ScheduleEntries)
      ensures forall i :: 0 <= i < |ScheduleEntries| ==> fresh(ScheduleEntries[i])
    {
      ScheduleEntries := [];
      var j := 0;
      while j < |entries|
        invariant 0 <= j <= |entries|
        invariant Shows(ScheduleEntries, Listed(entries[..j]))
        invariant AllUnrepaid(ScheduleEntries)
        invariant forall k :: 0 <= k < |ScheduleEntries| ==> fresh(ScheduleEntries[k])
      {
        var e := entries[j];
        assert entries[..j + 1][..j] == entries[..j];
        if e.kind != EntryKind.Outstanding {
          var entry := NewEntry(e);
          ScheduleEntries := ScheduleEntries + [entry];
        }
        j := j + 1;
      }
      assert entries[..j] == entries;
    }
  }

  /** A schedule entry for an entry, of its type and date, with a capital
      transaction and an interest transaction of its values. */
  method NewEntry(e: Entry) returns (entry: Ledger.ScheduleEntry)
    ensures fresh(entry) && forall k :: 0 <= k < |entry.Transactions| ==> fresh(entry.Transactions[k])
    ensures entry.EntryType == EntryTypeOf(e.kind) && entry.EntryDate == e.date
    ensures entry.Capital() == e.capital && entry.Interest() == e.interest
    ensures Ledger.Unrepaid(entry.Transactions)
  {
    entry := new Ledger.ScheduleEntry(EntryTypeOf(e.kind), e.date);
    var capital := entry.AddScheduleEntryTransaction(Ledger.TransactionType.Capital, e.capital);
    var interest := entry.AddScheduleEntryTransaction(Ledger.TransactionType.Interest, e.interest);
  }

  /** Fill's loop over the movements in date order: each one drops the
      entries dated after it, joins the list, and has the signed balance up
      to its date re-amortized. */
  method ReplayMovements(movements: seq<Entry>, o: RepaymentOptions, fuel: nat) returns (r: Result<seq<Entry>>)
    ensures r == Replay(movements, o, fuel)
  {
    var entries: seq<Entry> := [];
    var i := 0;
    while i < |movements|
      invariant 0 <= i <= |movements|
      invariant Replay(movements[..i], o, fuel) == Ok(entries)
    {
      var movement := movements[i];
      var kept := RemoveAfter(entries, movement.date) + [movement];
      var capitalBalance := SignedUpTo(kept, movement.date);
      var repayments: Result<seq<Entry>> := Ok([]);
      if Instanced(o) {
        var start := MaxDate(o.firstRepaymentDate, movement.date);
        var maturity: Result<Date> := Ok(o.maturityDate);
        if o.instances > 0 {
          maturity := AddFrequencyBy(start, o.instances, o.frequency);
        }
        if maturity.Err? {
          repayments := Err(maturity.error);
        } else {
          var dates := BuildDateTable(o.frequency, start, maturity.value, o.dayOfMonth, false);
          if dates.Err? {
            repayments := Err(dates.error);
          } else if |dates.value| == 0 {
            repayments := Err(NotEnoughInstances);
          } else {
            repayments := GenerateRepaymentsByCount(movement.date, dates.value, capitalBalance, TermsOf(o));
          }
        }
      } else if Valued(o) {
        repayments := GenerateRepaymentsByValue(movement.date, o.repayValue, o.dayOfMonth, capitalBalance, TermsOf(o), fuel);
      }
      ReplayNext(movements, o, fuel, i, entries, kept, capitalBalance, repayments);
      if repayments.Err? {
        return Err(repayments.error);
      }
      entries := kept + repayments.value;
      i := i + 1;
    }
    assert movements[..i] == movements;
    r := Ok(entries);
  }
}
