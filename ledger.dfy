/** The bookkeeping side of a schedule: a transaction carries a fixed value
    and an outstanding amount that repayments wear down, and a schedule
    entry is a dated list of capital and interest transactions with the
    sums a grid displays. */
module Ledger {
  import opened Decimals
  import opened Calendar

  datatype TransactionType = Capital | Interest

  /** The outstanding amount after repaying `amount`: the amount, but never
      more than what is outstanding, comes off. */
  function RepaidOutstanding(outstanding: real, amount: real): (r: real)
    ensures amount <= outstanding ==> r == outstanding - amount
    ensures amount >= outstanding ==> r == 0.0
  {
    outstanding - Min(outstanding, amount)
  }

  /** With a non-negative amount on a non-negative outstanding amount, a
      repayment lands between nothing and what was outstanding; repaying
      nothing changes nothing. */
  lemma RepayBounds(outstanding: real, amount: real)
    requires outstanding >= 0.0 && amount >= 0.0
    ensures 0.0 <= RepaidOutstanding(outstanding, amount) <= outstanding
    ensures amount == 0.0 ==> RepaidOutstanding(outstanding, amount) == outstanding
  {
  }

  /** Two repayments in a row wear the outstanding amount down exactly as
      one repayment of their sum. */
  lemma RepayTwiceIsRepaySum(outstanding: real, a: real, b: real)
    requires outstanding >= 0.0 && a >= 0.0 && b >= 0.0
    ensures RepaidOutstanding(RepaidOutstanding(outstanding, a), b) == RepaidOutstanding(outstanding, a + b)
  {
    if a < outstanding {
      assert RepaidOutstanding(outstanding, a) == outstanding - a;
    }
  }

  /** ScheduleEntryTransaction: Value and Type are fixed at construction,
      Outstanding starts at Value and only Repay changes it. */
  class Transaction {
    const Value: real
    const Type: TransactionType
    var Outstanding: real

    constructor (transactionType: TransactionType, value: real)
      ensures Type == transactionType && Value == value
      ensures Outstanding == value
    {
      Type := transactionType;
      Value := value;
      Outstanding := value;
    }

    /** Repay(amount): takes min(Outstanding, amount) off and returns the new
        outstanding amount. */
    method Repay(amount: real) returns (r: real)
      modifies this
      ensures Outstanding == RepaidOutstanding(old(Outstanding), amount)
      ensures r == Outstanding
    {
      Outstanding := Outstanding - Min(Outstanding, amount);
      r := Outstanding;
    }
  }

  /** The sum of Value over the transactions of one type. */
  function SumValue(ts: seq<Transaction>, t: TransactionType): real {
    if ts == [] then 0.0
    else SumValue(ts[..|ts| - 1], t) + (if ts[|ts| - 1].Type == t then ts[|ts| - 1].Value else 0.0)
  }

  /** The sum of Outstanding over the transactions of one type. */
  function SumOutstanding(ts: seq<Transaction>, t: TransactionType): real
    reads ts
  {
    if ts == [] then 0.0
    else SumOutstanding(ts[..|ts| - 1], t) + (if ts[|ts| - 1].Type == t then ts[|ts| - 1].Outstanding else 0.0)
  }

  /** The sum of Outstanding over all transactions, whatever their type. */
  function SumAllOutstanding(ts: seq<Transaction>): real
    reads ts
  {
    if ts == [] then 0.0 else SumAllOutstanding(ts[..|ts| - 1]) + ts[|ts| - 1].Outstanding
  }

  /** The sum of Value over all transactions, whatever their type. */
  function SumAllValue(ts: seq<Transaction>): real {
    if ts == [] then 0.0 else SumAllValue(ts[..|ts| - 1]) + ts[|ts| - 1].Value
  }

  /** Every transaction is either capital or interest, so the untyped sums
      split into the two typed ones. */
  lemma {:induction false} SumsSplitByType(ts: seq<Transaction>)
    ensures SumAllOutstanding(ts) == SumOutstanding(ts, Capital) + SumOutstanding(ts, Interest)
    ensures SumAllValue(ts) == SumValue(ts, Capital) + SumValue(ts, Interest)
  {
    if ts != [] {
      SumsSplitByType(ts[..|ts| - 1]);
    }
  }

  /** No transaction repaid: every Outstanding still equals its Value. */
  predicate Unrepaid(ts: seq<Transaction>)
    reads ts
  {
    forall i :: 0 <= i < |ts| ==> ts[i].Outstanding == ts[i].Value
  }

  /** Before any repayment the outstanding sums are the value sums. */
  lemma {:induction false} UnrepaidOutstandingIsValue(ts: seq<Transaction>, t: TransactionType)
    requires Unrepaid(ts)
    ensures SumOutstanding(ts, t) == SumValue(ts, t)
  {
    if ts != [] {
      UnrepaidOutstandingIsValue(ts[..|ts| - 1], t);
    }
  }

  /** Transactions whose repayments never went below zero or above their
      value: 0 <= Outstanding <= Value for each. */
  predicate PartlyRepaid(ts: seq<Transaction>)
    reads ts
  {
    forall i :: 0 <= i < |ts| ==> 0.0 <= ts[i].Outstanding <= ts[i].Value
  }

  /** Then the outstanding sum of a type lies between nothing and its value
      sum. */
  lemma {:induction false} OutstandingWithinValue(ts: seq<Transaction>, t: TransactionType)
    requires PartlyRepaid(ts)
    ensures 0.0 <= SumOutstanding(ts, t) <= SumValue(ts, t)
  {
    if ts != [] {
      OutstandingWithinValue(ts[..|ts| - 1], t);
    }
  }

  datatype ScheduleEntryType = Pay | Repay

  /** A dated schedule entry of the aMorti engine with its transactions. */
  class ScheduleEntry {
    const EntryType: ScheduleEntryType
    /** The date part of the constructor's argument; dates carry no time of
        day here, so it is the argument itself. */
    const EntryDate: Date
    var Transactions: seq<Transaction>

    constructor (entryType: ScheduleEntryType, entryDate: Date)
      ensures EntryType == entryType && EntryDate == entryDate
      ensures Transactions == []
    {
      EntryType := entryType;
      EntryDate := entryDate;
      Transactions := [];
    }

    function Capital(): real
      reads this
    {
      SumValue(Transactions, TransactionType.Capital)
    }

    function Interest(): real
      reads this
    {
      SumValue(Transactions, TransactionType.Interest)
    }

    function Total(): real
      reads this
    {
      Capital() + Interest()
    }

    /** The sign a grid shows: negative for repayments. */
    function Sign(): real
      reads this
    {
      if EntryType == Repay then -1.0 else 1.0
    }

    function CapitalSigned(): real
      reads this
    {
      SumValue(Transactions, TransactionType.Capital) * Sign()
    }

    function InterestSigned(): real
      reads this
    {
      SumValue(Transactions, TransactionType.Interest) * Sign()
    }

    function TotalSigned(): real
      reads this
    {
      CapitalSigned() + InterestSigned()
    }

    function OutstandingCapital(): real
      reads this, Transactions
    {
      SumOutstanding(Transactions, TransactionType.Capital)
    }

    function OutstandingInterest(): real
      reads this, Transactions
    {
      SumOutstanding(Transactions, TransactionType.Interest)
    }

    function OutstandingTotal(): real
      reads this, Transactions
    {
      OutstandingCapital() + OutstandingInterest()
    }

    /** Outstanding(type): the outstanding sum of one transaction type. */
    function Outstanding(t: TransactionType): real
      reads this, Transactions
    {
      SumOutstanding(Transactions, t)
    }

    /** Appends one new transaction; the transactions already there are
        neither changed nor reordered. */
    method AddScheduleEntryTransaction(transactionType: TransactionType, value: real) returns (t: Transaction)
      modifies this
      ensures fresh(t)
      ensures t.Type == transactionType && t.Value == value && t.Outstanding == value
      ensures Transactions == old(Transactions) + [t]
      ensures Capital() == old(Capital()) + (if transactionType == TransactionType.Capital then value else 0.0)
      ensures Interest() == old(Interest()) + (if transactionType == TransactionType.Interest then value else 0.0)
      ensures old(Unrepaid(Transactions)) ==> Unrepaid(Transactions)
    {
      t := new Transaction(transactionType, value);
      SumValueAppend(Transactions, t, TransactionType.Capital);
      SumValueAppend(Transactions, t, TransactionType.Interest);
      Transactions := Transactions + [t];
    }

    /** The signed figures are the plain ones negated on a repayment entry,
        and the signed total is the total under the same sign. */
    lemma SignedFigures()
      ensures EntryType == Repay ==> CapitalSigned() == -Capital() && InterestSigned() == -Interest()
      ensures EntryType == Pay ==> CapitalSigned() == Capital() && InterestSigned() == Interest()
      ensures TotalSigned() == (if EntryType == Repay then -Total() else Total())
    {
    }

    /** The outstanding total is the outstanding sum over every transaction,
        and the value total the value sum over every transaction. */
    lemma TotalsCoverAllTransactions()
      ensures OutstandingTotal() == SumAllOutstanding(Transactions)
      ensures OutstandingTotal() == Outstanding(TransactionType.Capital) + Outstanding(TransactionType.Interest)
      ensures Total() == SumAllValue(Transactions)
    {
      SumsSplitByType(Transactions);
    }

    /** Before any repayment everything is outstanding. */
    lemma UnrepaidEntryIsOutstanding()
      requires Unrepaid(Transactions)
      ensures OutstandingTotal() == Total()
      ensures OutstandingCapital() == Capital() && OutstandingInterest() == Interest()
    {
      UnrepaidOutstandingIsValue(Transactions, TransactionType.Capital);
      UnrepaidOutstandingIsValue(Transactions, TransactionType.Interest);
    }
  }

  /** Appending a transaction adds its value to the sum of its own type and
      nothing to the other. */
  lemma SumValueAppend(ts: seq<Transaction>, t: Transaction, k: TransactionType)
    ensures SumValue(ts + [t], k) == SumValue(ts, k) + (if t.Type == k then t.Value else 0.0)
  {
    assert (ts + [t])[..|ts + [t]| - 1] == ts;
  }

  /** The signed capital of later-dated entries: what CapitalBalance adds. */
  function LaterCapital(entries: seq<ScheduleEntry>, after: Date): real
    reads entries
  {
    if entries == [] then 0.0
    else
      var e := entries[|entries| - 1];
      LaterCapital(entries[..|entries| - 1], after)
        + (if Before(after, e.EntryDate) then (if e.EntryType == Repay then e.Capital() else -e.Capital()) else 0.0)
  }

  /** CapitalBalance of an entry within its schedule's entries: its own
      capital, plus the capital of every later repayment, minus the capital
      of every later payment. */
  function CapitalBalance(entry: ScheduleEntry, entries: seq<ScheduleEntry>): real
    reads entry, entries
  {
    entry.Capital() + LaterCapital(entries, entry.EntryDate)
  }

  /** The sum of CapitalSigned over the later-dated entries. */
  function LaterCapitalSigned(entries: seq<ScheduleEntry>, after: Date): real
    reads entries
  {
    if entries == [] then 0.0
    else
      var e := entries[|entries| - 1];
      LaterCapitalSigned(entries[..|entries| - 1], after)
        + (if Before(after, e.EntryDate) then e.CapitalSigned() else 0.0)
  }

  /** CapitalBalance is the entry's own capital less the signed capital that
      follows it: later repayments, signed negative, add to it, later
      payments take away; with nothing later it is the entry's capital. */
  lemma {:induction false} CapitalBalanceIsCapitalLessLaterSigned(entry: ScheduleEntry, entries: seq<ScheduleEntry>)
    ensures CapitalBalance(entry, entries) == entry.Capital() - LaterCapitalSigned(entries, entry.EntryDate)
    ensures (forall i :: 0 <= i < |entries| ==> !Before(entry.EntryDate, entries[i].EntryDate))
              ==> CapitalBalance(entry, entries) == entry.Capital()
  {
    LaterSignedAgree(entries, entry.EntryDate);
    if forall i :: 0 <= i < |entries| ==> !Before(entry.EntryDate, entries[i].EntryDate) {
      NothingLater(entries, entry.EntryDate);
    }
  }

  lemma {:induction false} LaterSignedAgree(entries: seq<ScheduleEntry>, after: Date)
    ensures LaterCapital(entries, after) == -LaterCapitalSigned(entries, after)
  {
    if entries != [] {
      LaterSignedAgree(entries[..|entries| - 1], after);
    }
  }

  lemma {:induction false} NothingLater(entries: seq<ScheduleEntry>, after: Date)
    requires forall i :: 0 <= i < |entries| ==> !Before(after, entries[i].EntryDate)
    ensures LaterCapital(entries, after) == 0.0
  {
    if entries != [] {
      NothingLater(entries[..|entries| - 1], after);
    }
  }
}
