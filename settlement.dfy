/** The daily settlement page (src/pages/SettlementPage.tsx): per-payment-method totals and counts over
    the transactions `getTodayTransactions` returns. */
module Settlement {
  import opened Types
  import opened Seqs
  import Ledger

  /** `transactions.filter(t => t.paymentMethod === method)`. */
  function ByMethod(txns: seq<Transaction>, m: PaymentMethod): (r: seq<Transaction>)
    ensures forall t :: multiset(r)[t] == if t.paymentMethod == m then multiset(txns)[t] else 0
    ensures forall t :: t in r <==> t in txns && t.paymentMethod == m
    ensures IsSubsequence(r, txns)
  {
    if txns == [] then []
    else
      var rest := ByMethod(txns[1..], m);
      assert txns == [txns[0]] + txns[1..];
      if txns[0].paymentMethod == m then
        SubsequenceKeep(rest, txns[1..], txns[0]);
        [txns[0]] + rest
      else
        SubsequenceSkip(rest, txns[1..], txns[0]);
        rest
  }

  /** Reference definition: every transaction's amount counts when it was paid with the method, else nothing. */
  function AmountPaidWith(txns: seq<Transaction>, m: PaymentMethod): int
  {
    if txns == [] then 0
    else (if txns[0].paymentMethod == m then txns[0].totalAmount else 0) + AmountPaidWith(txns[1..], m)
  }

  /** Reference definition: the number of transactions paid with the method. */
  function CountPaidWith(txns: seq<Transaction>, m: PaymentMethod): nat
  {
    if txns == [] then 0
    else (if txns[0].paymentMethod == m then 1 else 0) + CountPaidWith(txns[1..], m)
  }

  /** Summing the filtered transactions is summing the amounts of exactly those paid with the method. */
  lemma {:induction false} ByMethodSum(txns: seq<Transaction>, m: PaymentMethod)
    ensures Ledger.SumAmounts(ByMethod(txns, m)) == AmountPaidWith(txns, m)
    ensures |ByMethod(txns, m)| == CountPaidWith(txns, m)
  {
    if txns != [] {
      ByMethodSum(txns[1..], m);
      if txns[0].paymentMethod == m {
        var rest := ByMethod(txns[1..], m);
        assert ([txns[0]] + rest)[1..] == rest;
      }
    }
  }

  /** `getTotalByMethod`: the amounts of exactly the transactions paid with the method, added up. */
  function TotalByMethod(txns: seq<Transaction>, m: PaymentMethod): (total: int)
    ensures total == AmountPaidWith(txns, m)
  {
    ByMethodSum(txns, m);
    Ledger.SumAmounts(ByMethod(txns, m))
  }

  /** `getCountByMethod`: how many transactions were paid with the method. */
  function CountByMethod(txns: seq<Transaction>, m: PaymentMethod): (count: nat)
    ensures count == CountPaidWith(txns, m)
  {
    ByMethodSum(txns, m);
    |ByMethod(txns, m)|
  }

  /** Every transaction has one of the three methods, so the three totals add up to the day's total. */
  lemma {:induction false} TotalsPartition(txns: seq<Transaction>)
    ensures TotalByMethod(txns, Cash) + TotalByMethod(txns, Qris) + TotalByMethod(txns, Transfer)
         == Ledger.SumAmounts(txns)
  {
    if txns != [] {
      TotalsPartition(txns[1..]);
    }
  }

  /** Likewise the three counts add up to the number of transactions. */
  lemma {:induction false} CountsPartition(txns: seq<Transaction>)
    ensures CountByMethod(txns, Cash) + CountByMethod(txns, Qris) + CountByMethod(txns, Transfer) == |txns|
  {
    if txns != [] {
      CountsPartition(txns[1..]);
    }
  }

  datatype MethodSummary = MethodSummary(total: int, count: nat)

  /** What the page shows: one line per method, `totalAmount` and `totalTransactions`. */
  datatype Summary = Summary(
    cash: MethodSummary,
    qris: MethodSummary,
    transfer: MethodSummary,
    totalAmount: int,
    totalTransactions: nat)

  /** The settlement figures of a list of transactions: each method line holds that method's total and count,
      `totalAmount` is the sum of all amounts, the method lines split the totals exactly, and an empty day
      shows zero everywhere. */
  function Summarize(txns: seq<Transaction>): (s: Summary)
    ensures s.cash == MethodSummary(AmountPaidWith(txns, Cash), CountPaidWith(txns, Cash))
    ensures s.qris == MethodSummary(AmountPaidWith(txns, Qris), CountPaidWith(txns, Qris))
    ensures s.transfer == MethodSummary(AmountPaidWith(txns, Transfer), CountPaidWith(txns, Transfer))
    ensures s.totalAmount == Ledger.SumAmounts(txns)
    ensures s.cash.total + s.qris.total + s.transfer.total == s.totalAmount
    ensures s.cash.count + s.qris.count + s.transfer.count == s.totalTransactions
    ensures s.totalTransactions == |txns|
    ensures txns == [] ==> s == Summary(MethodSummary(0, 0), MethodSummary(0, 0), MethodSummary(0, 0), 0, 0)
  {
    TotalsPartition(txns);
    CountsPartition(txns);
    Summary(
      MethodSummary(TotalByMethod(txns, Cash), CountByMethod(txns, Cash)),
      MethodSummary(TotalByMethod(txns, Qris), CountByMethod(txns, Qris)),
      MethodSummary(TotalByMethod(txns, Transfer), CountByMethod(txns, Transfer)),
      Ledger.SumAmounts(txns),
      |txns|)
  }

  /** The page's input is today's transactions, so each one aggregated under a method is stamped at or after
      local midnight, and each of today's transactions is aggregated under its own method. */
  lemma SettledAreToday(stored: seq<Transaction>, midnight: int, m: PaymentMethod)
    ensures forall t :: t in ByMethod(Ledger.Since(stored, midnight), m) <==>
      t in stored && t.timestamp >= midnight && t.paymentMethod == m
  {
  }
}
