/** The bookkeeping side of the older AmortSchedule revision: its schedule
    entry keeps capital and interest transactions (the same transactions as
    the aMorti engine's) and shows what is due, what is outstanding and what
    has been paid, and its schedule sums what is outstanding over its
    entries. */
module AmortLedger {
  import opened Calendar
  import opened Ledger

  /** The sum of Value - Outstanding over the transactions of one type:
      what has been paid of them, transaction by transaction. */
  function SumPaid(ts: seq<Transaction>, t: TransactionType): real
    reads ts
  {
    if ts == [] then 0.0
    else
      var last := ts[|ts| - 1];
      SumPaid(ts[..|ts| - 1], t) + (if last.Type == t then last.Value - last.Outstanding else 0.0)
  }

  /** What has been paid of one type is its value sum less its outstanding
      sum. */
  lemma {:induction false} SumPaidIsValueLessOutstanding(ts: seq<Transaction>, t: TransactionType)
    ensures SumPaid(ts, t) == SumValue(ts, t) - SumOutstanding(ts, t)
  {
    if ts != [] {
      SumPaidIsValueLessOutstanding(ts[..|ts| - 1], t);
    }
  }

  /** Appending transactions adds their sums to each of the typed sums. */
  lemma {:induction false} SumsConcat(ts: seq<Transaction>, us: seq<Transaction>, t: TransactionType)
    ensures SumValue(ts + us, t) == SumValue(ts, t) + SumValue(us, t)
    ensures SumOutstanding(ts + us, t) == SumOutstanding(ts, t) + SumOutstanding(us, t)
    decreases |us|
  {
    if us == [] {
      assert ts + us == ts;
    } else {
      var n := |us| - 1;
      assert (ts + us)[..|ts + us| - 1] == ts + us[..n];
      SumsConcat(ts, us[..n], t);
    }
  }

  /** A dated schedule entry of the AmortSchedule revision. */
  class ScheduleEntry {
    /** The date part of the constructor's argument; dates carry no time of
        day here, so it is the argument itself. */
    const EntryDate: Date
    var Transactions: seq<Transaction>

    constructor (entryDate: Date)
      ensures EntryDate == entryDate && Transactions == []
    {
      EntryDate := entryDate;
      Transactions := [];
    }

    /** Capital due: the value of the capital transactions. */
    function Capital(): real
      reads this
    {
      SumValue(Transactions, TransactionType.Capital)
    }

    /** Interest due: the value of the interest transactions. */
    function Interest(): real
      reads this
    {
      SumValue(Transactions, TransactionType.Interest)
    }

    function Total(): real
      reads this
    {
      Capital() + Interest()
    }

    function CapitalOutstanding(): real
      reads this, Transactions
    {
      SumOutstanding(Transactions, TransactionType.Capital)
    }

    function InterestOutstanding(): real
      reads this, Transactions
    {
      SumOutstanding(Transactions, TransactionType.Interest)
    }

    /** What is outstanding over every transaction, whatever its type. */
    function TotalOutstanding(): real
      reads this, Transactions
    {
      SumAllOutstanding(Transactions)
    }

    function CapitalPaid(): real
      reads this, Transactions
    {
      Capital() - CapitalOutstanding()
    }

    function InterestPaid(): real
      reads this, Transactions
    {
      Interest() - InterestOutstanding()
    }

    function TotalPaid(): real
      reads this, Transactions
    {
      Total() - TotalOutstanding()
    }

    /** Appends one new, wholly outstanding transaction: what is due of its
        type grows by its value, what is outstanding too, and what has been
        paid does not change. */
    method AddScheduleEntryTransaction(transactionType: TransactionType, value: real) returns (t: Transaction)
      modifies this
      ensures fresh(t) && t.Type == transactionType && t.Value == value && t.Outstanding == value
      ensures Transactions == old(Transactions) + [t]
      ensures Capital() == old(Capital()) + (if transactionType == TransactionType.Capital then value else 0.0)
      ensures Interest() == old(Interest()) + (if transactionType == TransactionType.Interest then value else 0.0)
      ensures CapitalPaid() == old(CapitalPaid()) && InterestPaid() == old(InterestPaid())
    {
      t := new Transaction(transactionType, value);
      SumsConcat(Transactions, [t], TransactionType.Capital);
      SumsConcat(Transactions, [t], TransactionType.Interest);
      assert SumOutstanding([t], TransactionType.Capital) == SumValue([t], TransactionType.Capital);
      assert SumOutstanding([t], TransactionType.Interest) == SumValue([t], TransactionType.Interest);
      Transactions := Transactions + [t];
    }

    /** AddRange: appends the given transactions in order; each typed sum
        grows by theirs. */
    method AddScheduleEntryTransactions(ts: seq<Transaction>)
      modifies this
      ensures Transactions == old(Transactions) + ts
      ensures Capital() == old(Capital()) + SumValue(ts, TransactionType.Capital)
      ensures Interest() == old(Interest()) + SumValue(ts, TransactionType.Interest)
      ensures CapitalOutstanding() == old(CapitalOutstanding()) + SumOutstanding(ts, TransactionType.Capital)
      ensures InterestOutstanding() == old(InterestOutstanding()) + SumOutstanding(ts, TransactionType.Interest)
    {
      SumsConcat(Transactions, ts, TransactionType.Capital);
      SumsConcat(Transactions, ts, TransactionType.Interest);
      Transactions := Transactions + ts;
    }

    /** What has been paid of each type is what its transactions have been
        paid down by, and the total paid is the capital paid plus the
        interest paid. */
    lemma PaidIsWhatWasPaidDown()
      ensures CapitalPaid() == SumPaid(Transactions, TransactionType.Capital)
      ensures InterestPaid() == SumPaid(Transactions, TransactionType.Interest)
      ensures TotalPaid() == CapitalPaid() + InterestPaid()
      ensures TotalOutstanding() == CapitalOutstanding() + InterestOutstanding()
    {
      SumPaidIsValueLessOutstanding(Transactions, TransactionType.Capital);
      SumPaidIsValueLessOutstanding(Transactions, TransactionType.Interest);
      SumsSplitByType(Transactions);
    }

    /** With no transaction paid below nothing or above its value, what has
        been paid lies between nothing and what was due; before any
        repayment nothing has been paid. */
    lemma PaidBounds()
      ensures PartlyRepaid(Transactions) ==>
        && 0.0 <= CapitalPaid() <= Capital()
        && 0.0 <= InterestPaid() <= Interest()
        && 0.0 <= TotalPaid() <= Total()
      ensures Unrepaid(Transactions) ==> CapitalPaid() == 0.0 && InterestPaid() == 0.0 && TotalPaid() == 0.0
    {
      SumsSplitByType(Transactions);
      if PartlyRepaid(Transactions) {
        OutstandingWithinValue(Transactions, TransactionType.Capital);
        OutstandingWithinValue(Transactions, TransactionType.Interest);
      }
      if Unrepaid(Transactions) {
        UnrepaidOutstandingIsValue(Transactions, TransactionType.Capital);
        UnrepaidOutstandingIsValue(Transactions, TransactionType.Interest);
      }
    }
  }

  /** Every transaction of every entry. */
  ghost function Footprint(ses: seq<ScheduleEntry>): set<object>
    reads ses
  {
    set i, k | 0 <= i < |ses| && 0 <= k < |ses[i].Transactions| :: ses[i].Transactions[k]
  }

  lemma FootprintPrefix(ses: seq<ScheduleEntry>, n: nat)
    requires n <= |ses|
    ensures Footprint(ses[..n]) <= Footprint(ses)
  {
    forall o | o in Footprint(ses[..n]) ensures o in Footprint(ses) {
      var i, k :| 0 <= i < n && 0 <= k < |ses[i].Transactions| && o == ses[i].Transactions[k];
      assert ses[..n][i] == ses[i];
    }
  }

  /** Schedule.Outstanding(): the TotalOutstanding of every entry summed. */
  function ScheduleOutstanding(ses: seq<ScheduleEntry>): real
    reads ses, Footprint(ses)
  {
    if ses == [] then 0.0
    else
      FootprintPrefix(ses, |ses| - 1);
      ScheduleOutstanding(ses[..|ses| - 1]) + ses[|ses| - 1].TotalOutstanding()
  }

  /** Schedule.Outstanding(type): what every entry has outstanding of one
      type, summed. */
  function ScheduleOutstandingOf(ses: seq<ScheduleEntry>, t: TransactionType): real
    reads ses, Footprint(ses)
  {
    if ses == [] then 0.0
    else
      FootprintPrefix(ses, |ses| - 1);
      var e := ses[|ses| - 1];
      ScheduleOutstandingOf(ses[..|ses| - 1], t)
        + (if t == TransactionType.Capital then e.CapitalOutstanding() else e.InterestOutstanding())
  }

  /** What a schedule has outstanding in total is what it has outstanding
      in capital plus what it has outstanding in interest. */
  lemma {:induction false} ScheduleOutstandingSplits(ses: seq<ScheduleEntry>)
    ensures ScheduleOutstanding(ses) == ScheduleOutstandingOf(ses, TransactionType.Capital) + ScheduleOutstandingOf(ses, TransactionType.Interest)
  {
    if ses != [] {
      ScheduleOutstandingSplits(ses[..|ses| - 1]);
      ses[|ses| - 1].PaidIsWhatWasPaidDown();
    }
  }
}
