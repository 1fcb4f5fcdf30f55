/** The transaction log's pure queries (`transactionStorage.getTodayTotal` and `getTodayTransactions`
    in src/utils/storage.ts), also used by the history and settlement pages. */
module Ledger {
  import opened Types
  import opened Seqs

  /** `transactions.filter(t => t.timestamp >= bound)`. */
  function Since(txns: seq<Transaction>, bound: int): (r: seq<Transaction>)
    ensures forall t :: multiset(r)[t] == if t.timestamp >= bound then multiset(txns)[t] else 0
    ensures forall t :: t in r <==> t in txns && t.timestamp >= bound
    ensures IsSubsequence(r, txns)
  {
    if txns == [] then []
    else
      var rest := Since(txns[1..], bound);
      assert txns == [txns[0]] + txns[1..];
      if txns[0].timestamp >= bound then
        SubsequenceKeep(rest, txns[1..], txns[0]);
        [txns[0]] + rest
      else
        SubsequenceSkip(rest, txns[1..], txns[0]);
        rest
  }

  /** `reduce((sum, t) => sum + t.totalAmount, 0)`. */
  function SumAmounts(txns: seq<Transaction>): int
  {
    if txns == [] then 0 else txns[0].totalAmount + SumAmounts(txns[1..])
  }

  /** Reference definition: every record's amount counts when it is stamped at or after `bound`, else nothing. */
  function AmountSince(txns: seq<Transaction>, bound: int): int
  {
    if txns == [] then 0
    else (if txns[0].timestamp >= bound then txns[0].totalAmount else 0) + AmountSince(txns[1..], bound)
  }

  /** Summing the selected records is the same as summing the amounts of exactly the records at or after `bound`. */
  lemma {:induction false} SinceSum(txns: seq<Transaction>, bound: int)
    ensures SumAmounts(Since(txns, bound)) == AmountSince(txns, bound)
  {
    if txns != [] {
      SinceSum(txns[1..], bound);
      if txns[0].timestamp >= bound {
        var rest := Since(txns[1..], bound);
        assert ([txns[0]] + rest)[1..] == rest;
      }
    }
  }

  /** A later bound selects a subsequence of what an earlier bound selects. */
  lemma {:induction false} SinceMonotone(txns: seq<Transaction>, later: int, earlier: int)
    requires earlier <= later
    ensures IsSubsequence(Since(txns, later), Since(txns, earlier))
  {
    if txns != [] {
      SinceMonotone(txns[1..], later, earlier);
      var a, b := Since(txns[1..], later), Since(txns[1..], earlier);
      if txns[0].timestamp >= later {
        SubsequenceKeep(a, b, txns[0]);
      } else if txns[0].timestamp >= earlier {
        SubsequenceSkip(a, b, txns[0]);
      }
    }
  }
}
