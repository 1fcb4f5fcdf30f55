/** The transaction history page (src/pages/HistoryPage.tsx): the all / today / 7-day window over the
    stored transactions, the total of what the window shows, and the one-row-at-a-time expansion. */
module History {
  import opened Types
  import opened Seqs
  import Ledger

  datatype Window = All | Today | Week

  /** Seven days in milliseconds: 7 * 24 * 60 * 60 * 1000. */
  const WEEK_MS: int := 7 * 24 * 60 * 60 * 1000

  /** The `switch` inside the filter callback. */
  predicate InWindow(t: Transaction, w: Window, midnight: int, now: int)
  {
    match w
    case Today => t.timestamp >= midnight
    case Week => t.timestamp >= now - WEEK_MS
    case All => true
  }

  /** `filteredTransactions`: the records in the window, in log order. */
  function Windowed(txns: seq<Transaction>, w: Window, midnight: int, now: int): (r: seq<Transaction>)
    ensures forall t :: t in r <==> t in txns && InWindow(t, w, midnight, now)
    ensures IsSubsequence(r, txns)
  {
    if txns == [] then []
    else
      var rest := Windowed(txns[1..], w, midnight, now);
      assert txns == [txns[0]] + txns[1..];
      if InWindow(txns[0], w, midnight, now) then
        SubsequenceKeep(rest, txns[1..], txns[0]);
        [txns[0]] + rest
      else
        SubsequenceSkip(rest, txns[1..], txns[0]);
        rest
  }

  /** 'all' keeps the list as it is, 'today' is exactly the records since local midnight and 'week' exactly
      those of the last seven days, as `getTodayTransactions` would select them. */
  lemma {:induction false} WindowedIsSince(txns: seq<Transaction>, w: Window, midnight: int, now: int)
    ensures w == All ==> Windowed(txns, w, midnight, now) == txns
    ensures w == Today ==> Windowed(txns, w, midnight, now) == Ledger.Since(txns, midnight)
    ensures w == Week ==> Windowed(txns, w, midnight, now) == Ledger.Since(txns, now - WEEK_MS)
  {
    if txns != [] {
      WindowedIsSince(txns[1..], w, midnight, now);
      if w == All {
        assert txns == [txns[0]] + txns[1..];
      } else {
        var bound := if w == Today then midnight else now - WEEK_MS;
        assert InWindow(txns[0], w, midnight, now) <==> txns[0].timestamp >= bound;
      }
    }
  }

  /** `totalFiltered`: under 'all' the whole log's total; under 'today' what `getTodayTotal` reports, the
      amounts of exactly the records stamped since midnight; under 'week' those of the last seven days. */
  function TotalFiltered(txns: seq<Transaction>, w: Window, midnight: int, now: int): (total: int)
    ensures w == All ==> total == Ledger.SumAmounts(txns)
    ensures w == Today ==> total == Ledger.AmountSince(txns, midnight)
    ensures w == Week ==> total == Ledger.AmountSince(txns, now - WEEK_MS)
  {
    WindowedIsSince(txns, w, midnight, now);
    Ledger.SinceSum(txns, midnight);
    Ledger.SinceSum(txns, now - WEEK_MS);
    Ledger.SumAmounts(Windowed(txns, w, midnight, now))
  }

  /** When local midnight lies within the last seven days, the 'today' list is part of the 'week' list. */
  lemma TodayWithinWeek(txns: seq<Transaction>, midnight: int, now: int)
    requires midnight >= now - WEEK_MS
    ensures IsSubsequence(Windowed(txns, Today, midnight, now), Windowed(txns, Week, midnight, now))
  {
    WindowedIsSince(txns, Today, midnight, now);
    WindowedIsSince(txns, Week, midnight, now);
    Ledger.SinceMonotone(txns, midnight, now - WEEK_MS);
  }

  /** Clicking a row: `setExpandedId(expandedId === id ? null : id)`. The clicked row ends expanded exactly
      when it was not, and no other row is expanded afterwards. */
  function Toggle(expanded: Option<string>, id: string): (r: Option<string>)
    ensures r == Some(id) <==> expanded != Some(id)
    ensures r == None <==> expanded == Some(id)
  {
    if expanded == Some(id) then None else Some(id)
  }
}
