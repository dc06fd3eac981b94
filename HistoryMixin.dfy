/** The analytics of `HistoryMixin` (`library/db_modules/history_mixin.py`)
  * over the rows its queries return: the money of today's trades, the rows
  * `add_daily_result` writes, the consolidated allocation with its
  * day-over-day differences, and the sampling of the daily totals.
  *
  * SQL aggregates arrive as inputs (`None` for NULL); what the Python code
  * does with them is modelled. */
module HistoryMixin {
  import opened Common

  // ---------------------------------------------------------------------------
  // record_trade / get_trade_today

  datatype TradeRecord = TradeRecord(accountId: string, ruleId: int, orderId: string, symbol: string,
                                     quantity: int, price: real, tradeType: string, usedMoney: real)

  /** The row `record_trade` inserts. */
  function RecordTrade(accountId: string, ruleId: int, orderId: string, symbol: string,
                       quantity: int, price: real, tradeType: string): (r: TradeRecord)
    ensures r.usedMoney == price * quantity as real
    ensures r.quantity == quantity && r.price == price && r.symbol == symbol && r.ruleId == ruleId
  {
    TradeRecord(accountId, ruleId, orderId, symbol, quantity, price, tradeType, price * quantity as real)
  }

  function SumUsed(records: seq<TradeRecord>): real
  {
    if records == [] then 0.0 else SumUsed(records[..|records| - 1]) + records[|records| - 1].usedMoney
  }

  /** `get_trade_today` over today's rows of one rule: `int(SUM(used_money))`,
    * and 0 when the sum is NULL because there is no row. */
  function TradeToday(todayRecords: seq<TradeRecord>): int
  {
    var totalMoney := if todayRecords == [] then None else Some(SumUsed(todayRecords));
    if totalMoney.Some? then Trunc(totalMoney.value) else 0
  }

  lemma {:induction false} SumUsedNonNegative(records: seq<TradeRecord>)
    requires forall k :: 0 <= k < |records| ==> records[k].usedMoney >= 0.0
    ensures SumUsed(records) >= 0.0
  {
    if records != [] {
      SumUsedNonNegative(records[..|records| - 1]);
    }
  }

  /** With no trade today the answer is 0; otherwise, for buys at non-negative
    * money, it is the money spent with its fraction dropped. */
  lemma TradeTodayIsMoneySpent(todayRecords: seq<TradeRecord>)
    ensures todayRecords == [] ==> TradeToday(todayRecords) == 0
    ensures (forall k :: 0 <= k < |todayRecords| ==> todayRecords[k].usedMoney >= 0.0) ==>
              0 <= TradeToday(todayRecords)
              && TradeToday(todayRecords) as real <= SumUsed(todayRecords) < TradeToday(todayRecords) as real + 1.0
  {
    if forall k :: 0 <= k < |todayRecords| ==> todayRecords[k].usedMoney >= 0.0 {
      SumUsedNonNegative(todayRecords);
    }
  }

  // ---------------------------------------------------------------------------
  // add_daily_result

  /** One `daily_records` row: symbol, amount and quantity (NULL for cash and total). */
  datatype DailyRow = DailyRow(symbol: string, amount: real, quantity: Option<real>)

  /** One entry of the `etfs` argument, in the dictionary's order. */
  datatype EtfData = EtfData(symbol: string, quantity: real, lastPrice: real)

  /** `add_daily_result`: the rows inserted, in order. */
  method AddDailyResult(cashBalance: real, totalValue: real, etfs: seq<EtfData>) returns (rows: seq<DailyRow>)
    ensures |rows| == |etfs| + 2
    ensures rows[0] == DailyRow("cash", cashBalance, None)
    ensures rows[1] == DailyRow("total", totalValue, None)
    ensures forall k :: 0 <= k < |etfs| ==>
              rows[k + 2] == DailyRow(etfs[k].symbol, etfs[k].quantity * etfs[k].lastPrice, Some(etfs[k].quantity))
  {
    rows := [DailyRow("cash", cashBalance, None)];
    rows := rows + [DailyRow("total", totalValue, None)];
    for i := 0 to |etfs|
      invariant |rows| == i + 2
      invariant rows[0] == DailyRow("cash", cashBalance, None)
      invariant rows[1] == DailyRow("total", totalValue, None)
      invariant forall k :: 0 <= k < i ==>
                  rows[k + 2] == DailyRow(etfs[k].symbol, etfs[k].quantity * etfs[k].lastPrice, Some(etfs[k].quantity))
    {
      var etfValue := etfs[i].quantity * etfs[i].lastPrice;
      rows := rows + [DailyRow(etfs[i].symbol, etfValue, Some(etfs[i].quantity))];
    }
  }

  // ---------------------------------------------------------------------------
  // get_consolidated_portfolio_allocation

  /** One row of the per-symbol query: `SUM(amount)` and `SUM(quantity)`. */
  datatype Holding = Holding(symbol: string, totalValue: real, totalQuantity: Option<real>)

  datatype Allocation = Allocation(symbol: string, totalValue: real, totalQuantity: Option<real>,
                                   percentage: real, diffQuantity: Option<real>,
                                   diffValue: real, diffPercentage: real)

  /** Setting `d[h.symbol] = h` on a dictionary kept as its items in order:
    * an existing key keeps its place, a new key goes last. */
  function Upsert(d: seq<Holding>, h: Holding): (r: seq<Holding>)
    ensures |r| == |d| || |r| == |d| + 1
  {
    if d == [] then [h]
    else if d[0].symbol == h.symbol then [h] + d[1..]
    else [d[0]] + Upsert(d[1..], h)
  }

  /** The dictionary the query rows are read into. */
  function RowsToDict(rows: seq<Holding>): seq<Holding>
  {
    if rows == [] then [] else Upsert(RowsToDict(rows[..|rows| - 1]), rows[|rows| - 1])
  }

  predicate DistinctSymbols(d: seq<Holding>)
  {
    forall i, j :: 0 <= i < j < |d| ==> d[i].symbol != d[j].symbol
  }

  function Lookup(d: seq<Holding>, symbol: string): (r: Option<Holding>)
    ensures r.Some? ==> r.value.symbol == symbol && r.value in d
    ensures r.None? <==> forall k :: 0 <= k < |d| ==> d[k].symbol != symbol
  {
    if d == [] then None
    else if d[0].symbol == symbol then Some(d[0])
    else Lookup(d[1..], symbol)
  }

  lemma {:induction false} UpsertLookup(d: seq<Holding>, h: Holding)
    ensures Lookup(Upsert(d, h), h.symbol) == Some(h)
    ensures forall s :: s != h.symbol ==> Lookup(Upsert(d, h), s) == Lookup(d, s)
  {
    if d != [] {
      if d[0].symbol != h.symbol {
        UpsertLookup(d[1..], h);
        var r := Upsert(d[1..], h);
        assert Upsert(d, h) == [d[0]] + r;
        assert ([d[0]] + r)[1..] == r;
      } else {
        assert Upsert(d, h) == [h] + d[1..];
        assert ([h] + d[1..])[1..] == d[1..];
      }
    }
  }

  lemma {:induction false} UpsertDistinct(d: seq<Holding>, h: Holding)
    requires DistinctSymbols(d)
    ensures DistinctSymbols(Upsert(d, h))
  {
    if d != [] {
      var tail := d[1..];
      if d[0].symbol != h.symbol {
        UpsertDistinct(tail, h);
        UpsertLookup(tail, h);
        var r := Upsert(tail, h);
        forall k | 0 <= k < |tail|
          ensures tail[k].symbol != d[0].symbol
        {
          assert tail[k] == d[k + 1];
        }
        assert Lookup(r, d[0].symbol).None?;
        var whole := [d[0]] + r;
        assert Upsert(d, h) == whole;
        forall i, j | 0 <= i < j < |whole|
          ensures whole[i].symbol != whole[j].symbol
        {
          assert whole[j] == r[j - 1];
          if i > 0 {
            assert whole[i] == r[i - 1];
          }
        }
      } else {
        var whole := [h] + tail;
        assert Upsert(d, h) == whole;
        forall i, j | 0 <= i < j < |whole|
          ensures whole[i].symbol != whole[j].symbol
        {
          assert whole[j] == d[j];
          if i > 0 {
            assert whole[i] == d[i];
          }
        }
      }
    }
  }

  /** Reading the rows into the dictionary leaves one entry per symbol, and
    * the entry of a symbol is its last row. */
  lemma RowsToDictLastWins(rows: seq<Holding>)
    ensures DistinctSymbols(RowsToDict(rows))
    ensures forall s :: (Lookup(RowsToDict(rows), s).None? <==> forall k :: 0 <= k < |rows| ==> rows[k].symbol != s)
    ensures forall k :: 0 <= k < |rows| && (forall j :: k < j < |rows| ==> rows[j].symbol != rows[k].symbol)
                        ==> Lookup(RowsToDict(rows), rows[k].symbol) == Some(rows[k])
  {
    RowsToDictDistinct(rows);
    forall s
      ensures Lookup(RowsToDict(rows), s).None? <==> forall k :: 0 <= k < |rows| ==> rows[k].symbol != s
    {
      RowsToDictPresence(rows, s);
    }
    forall k | 0 <= k < |rows| && (forall j :: k < j < |rows| ==> rows[j].symbol != rows[k].symbol)
      ensures Lookup(RowsToDict(rows), rows[k].symbol) == Some(rows[k])
    {
      RowsToDictLast(rows, k);
    }
  }

  lemma {:induction false} RowsToDictDistinct(rows: seq<Holding>)
    ensures DistinctSymbols(RowsToDict(rows))
  {
    if rows != [] {
      RowsToDictDistinct(rows[..|rows| - 1]);
      UpsertDistinct(RowsToDict(rows[..|rows| - 1]), rows[|rows| - 1]);
    }
  }

  lemma {:induction false} RowsToDictPresence(rows: seq<Holding>, s: string)
    ensures Lookup(RowsToDict(rows), s).None? <==> forall k :: 0 <= k < |rows| ==> rows[k].symbol != s
  {
    if rows != [] {
      var n := |rows| - 1;
      var init := rows[..n];
      RowsToDictPresence(init, s);
      UpsertLookup(RowsToDict(init), rows[n]);
      if s != rows[n].symbol {
        assert forall k :: 0 <= k < n ==> init[k] == rows[k];
      }
    }
  }

  lemma {:induction false} RowsToDictLast(rows: seq<Holding>, k: int)
    requires 0 <= k < |rows| && forall j :: k < j < |rows| ==> rows[j].symbol != rows[k].symbol
    ensures Lookup(RowsToDict(rows), rows[k].symbol) == Some(rows[k])
  {
    var n := |rows| - 1;
    var init := rows[..n];
    var before := RowsToDict(init);
    assert RowsToDict(rows) == Upsert(before, rows[n]);
    UpsertLookup(before, rows[n]);
    if k < n {
      var s := rows[k].symbol;
      assert rows[n].symbol != s;
      assert init[k] == rows[k];
      assert forall j :: k < j < n ==> init[j] == rows[j];
      RowsToDictLast(init, k);
      assert Lookup(before, s) == Some(rows[k]);
      assert Lookup(Upsert(before, rows[n]), s) == Lookup(before, s);
    }
  }

  /** The percentage of `value` in `total`. */
  function Percent(value: real, total: real): real
    requires total != 0.0
  {
    value / total * 100.0
  }

  /** Python's `x or 0` on a quantity. */
  function OrZero(q: Option<real>): real
  {
    if q.Some? then q.value else 0.0
  }

  /** One allocation: its share of `total`, and its change from the previous
    * date's row `prev`, when there is a previous date. */
  function AllocationOf(curr: Holding, total: real, hasPrevDate: bool, prev: Option<Holding>, prevTotal: real)
    : Allocation
    requires total != 0.0
  {
    var pct := Percent(curr.totalValue, total);
    if hasPrevDate && prev.Some? then
      var prevPct := if prevTotal > 0.0 then Percent(prev.value.totalValue, prevTotal) else 0.0;
      Allocation(curr.symbol, curr.totalValue, curr.totalQuantity, pct,
                 Some(OrZero(curr.totalQuantity) - OrZero(prev.value.totalQuantity)),
                 curr.totalValue - prev.value.totalValue, pct - prevPct)
    else if hasPrevDate then
      Allocation(curr.symbol, curr.totalValue, curr.totalQuantity, pct, curr.totalQuantity, curr.totalValue, pct)
    else
      Allocation(curr.symbol, curr.totalValue, curr.totalQuantity, pct, Some(0.0), 0.0, 0.0)
  }

  /** A symbol held on both dates gets the changes from the previous date; a
    * new symbol's changes are its current values; with no previous date the
    * changes are zero. */
  lemma AllocationDiffs(curr: Holding, total: real, hasPrevDate: bool, prev: Option<Holding>, prevTotal: real)
    requires total != 0.0
    ensures var a := AllocationOf(curr, total, hasPrevDate, prev, prevTotal);
            a.symbol == curr.symbol && a.totalValue == curr.totalValue
            && a.percentage * total == curr.totalValue * 100.0
            && (hasPrevDate && prev.Some? ==>
                  prev.value.totalValue + a.diffValue == curr.totalValue
                  && a.diffQuantity == Some(OrZero(curr.totalQuantity) - OrZero(prev.value.totalQuantity))
                  && (prevTotal > 0.0 ==> a.percentage - a.diffPercentage == Percent(prev.value.totalValue, prevTotal))
                  && (prevTotal <= 0.0 ==> a.diffPercentage == a.percentage))
            && (hasPrevDate && prev.None? ==>
                  a.diffValue == a.totalValue && a.diffPercentage == a.percentage && a.diffQuantity == curr.totalQuantity)
            && (!hasPrevDate ==> a.diffValue == 0.0 && a.diffPercentage == 0.0 && a.diffQuantity == Some(0.0))
  {
    var a := AllocationOf(curr, total, hasPrevDate, prev, prevTotal);
    assert a.percentage == curr.totalValue / total * 100.0;
    assert curr.totalValue / total * total == curr.totalValue;
  }

  function Allocations(current: seq<Holding>, total: real, hasPrevDate: bool, prevData: seq<Holding>, prevTotal: real)
    : (r: seq<Allocation>)
    requires total != 0.0
    ensures |r| == |current|
    ensures forall k :: 0 <= k < |current| ==>
              r[k] == AllocationOf(current[k], total, hasPrevDate, Lookup(prevData, current[k].symbol), prevTotal)
  {
    if current == [] then []
    else [AllocationOf(current[0], total, hasPrevDate, Lookup(prevData, current[0].symbol), prevTotal)]
         + Allocations(current[1..], total, hasPrevDate, prevData, prevTotal)
  }

  predicate SortedByPercentage(s: seq<Allocation>)
  {
    forall i, j :: 0 <= i < j < |s| ==> s[i].percentage >= s[j].percentage
  }

  /** Inserting before the first element of no greater percentage keeps
    * earlier elements ahead of equal later ones, as Python's stable sort does. */
  function InsertByPercentage(x: Allocation, s: seq<Allocation>): seq<Allocation>
  {
    if s == [] then [x]
    else if s[0].percentage <= x.percentage then [x] + s
    else [s[0]] + InsertByPercentage(x, s[1..])
  }

  /** `allocations.sort(key=percentage, reverse=True)`. */
  function SortByPercentage(s: seq<Allocation>): seq<Allocation>
  {
    if s == [] then [] else InsertByPercentage(s[0], SortByPercentage(s[1..]))
  }

  lemma {:induction false} InsertByPercentagePermutes(x: Allocation, s: seq<Allocation>)
    ensures multiset(InsertByPercentage(x, s)) == multiset(s) + multiset{x}
    ensures |InsertByPercentage(x, s)| == |s| + 1
  {
    if s != [] && s[0].percentage > x.percentage {
      InsertByPercentagePermutes(x, s[1..]);
      assert s == [s[0]] + s[1..];
    }
  }

  /** Inserting keeps every percentage under a common bound. */
  lemma {:induction false} InsertByPercentageBounded(x: Allocation, s: seq<Allocation>, bound: real)
    requires x.percentage <= bound
    requires forall k :: 0 <= k < |s| ==> s[k].percentage <= bound
    ensures forall k :: 0 <= k < |InsertByPercentage(x, s)| ==> InsertByPercentage(x, s)[k].percentage <= bound
  {
    if s != [] && s[0].percentage > x.percentage {
      InsertByPercentageBounded(x, s[1..], bound);
      var r := InsertByPercentage(x, s[1..]);
      assert InsertByPercentage(x, s) == [s[0]] + r;
    }
  }

  lemma {:induction false} InsertByPercentageFacts(x: Allocation, s: seq<Allocation>)
    requires SortedByPercentage(s)
    ensures SortedByPercentage(InsertByPercentage(x, s))
    ensures multiset(InsertByPercentage(x, s)) == multiset(s) + multiset{x}
  {
    InsertByPercentagePermutes(x, s);
    if s != [] && s[0].percentage > x.percentage {
      var tail := s[1..];
      InsertByPercentageFacts(x, tail);
      InsertByPercentageBounded(x, tail, s[0].percentage);
      var r := InsertByPercentage(x, tail);
      var whole := [s[0]] + r;
      assert InsertByPercentage(x, s) == whole;
      forall i, j | 0 <= i < j < |whole|
        ensures whole[i].percentage >= whole[j].percentage
      {
        assert whole[j] == r[j - 1];
        if i > 0 {
          assert whole[i] == r[i - 1];
        }
      }
    } else if s != [] {
      var whole := [x] + s;
      forall i, j | 0 <= i < j < |whole|
        ensures whole[i].percentage >= whole[j].percentage
      {
        assert whole[j] == s[j - 1];
        if i > 0 {
          assert whole[i] == s[i - 1];
        } else {
          assert s[0].percentage >= s[j - 1].percentage || j == 1;
        }
      }
    }
  }

  /** The sort orders by percentage, descending, and only rearranges. */
  lemma {:induction false} SortByPercentageFacts(s: seq<Allocation>)
    ensures SortedByPercentage(SortByPercentage(s))
    ensures multiset(SortByPercentage(s)) == multiset(s)
  {
    if s != [] {
      SortByPercentageFacts(s[1..]);
      InsertByPercentageFacts(s[0], SortByPercentage(s[1..]));
      assert s == [s[0]] + s[1..];
    }
  }

  /** `get_consolidated_portfolio_allocation` from its query results:
    * `latestDate` is `MAX(record_date)`, `total` the latest total, `currentRows`
    * the latest per-symbol rows; the previous date's results are read only
    * when there is a previous date. `None` is `(None, None)`. */
  function ConsolidatedAllocation(latestDate: Option<string>, prevDate: Option<string>, total: Option<real>,
                                  currentRows: seq<Holding>, prevTotalRow: Option<real>, prevRows: seq<Holding>)
    : Option<(seq<Allocation>, real)>
  {
    if latestDate.None? || total.None? || total.value == 0.0 then None
    else
      var prevData := if prevDate.Some? then RowsToDict(prevRows) else [];
      var prevTotal := if prevDate.Some? && prevTotalRow.Some? && prevTotalRow.value != 0.0 then prevTotalRow.value else 0.0;
      var allocations := Allocations(RowsToDict(currentRows), total.value, prevDate.Some?, prevData, prevTotal);
      Some((SortByPercentage(allocations), total.value))
  }

  /** No latest date, or a NULL or zero total, gives `(None, None)`. Otherwise
    * there is one allocation per symbol of the latest rows, built from that
    * symbol's last row, sorted by percentage, descending. */
  lemma ConsolidationShape(latestDate: Option<string>, prevDate: Option<string>, total: Option<real>,
                           currentRows: seq<Holding>, prevTotalRow: Option<real>, prevRows: seq<Holding>)
    ensures ConsolidatedAllocation(latestDate, prevDate, total, currentRows, prevTotalRow, prevRows).None?
            <==> latestDate.None? || total.None? || total.value == 0.0
    ensures var r := ConsolidatedAllocation(latestDate, prevDate, total, currentRows, prevTotalRow, prevRows);
            r.Some? ==>
              r.value.1 == total.value
              && SortedByPercentage(r.value.0)
              && multiset(r.value.0)
                 == multiset(Allocations(RowsToDict(currentRows), total.value, prevDate.Some?,
                                         if prevDate.Some? then RowsToDict(prevRows) else [],
                                         if prevDate.Some? && prevTotalRow.Some? && prevTotalRow.value != 0.0
                                         then prevTotalRow.value else 0.0))
  {
    if !(latestDate.None? || total.None? || total.value == 0.0) {
      var prevData := if prevDate.Some? then RowsToDict(prevRows) else [];
      var prevTotal := if prevDate.Some? && prevTotalRow.Some? && prevTotalRow.value != 0.0 then prevTotalRow.value else 0.0;
      SortByPercentageFacts(Allocations(RowsToDict(currentRows), total.value, prevDate.Some?, prevData, prevTotal));
    }
  }

  // ---------------------------------------------------------------------------
  // get_daily_total_values

  /** One `(record_date, SUM(amount))` row, ordered by date. */
  datatype DayTotal = DayTotal(recordDate: string, totalValue: real)

  /** Whether the row with 1-based number `rn` survives the sampling of
    * `totalDays` rows down to about `maxPoints`. */
  predicate KeepsRow(rn: int, totalDays: int, maxPoints: int)
    requires maxPoints > 0
  {
    totalDays <= maxPoints || rn == 1 || rn % (totalDays / maxPoints) == 0 || rn == totalDays
  }

  /** The numbers, 1-based, of the first `n` rows that survive, in order. */
  function KeptNumbers(n: nat, totalDays: int, maxPoints: int): seq<int>
    requires maxPoints > 0
  {
    if n == 0 then []
    else KeptNumbers(n - 1, totalDays, maxPoints) + (if KeepsRow(n, totalDays, maxPoints) then [n] else [])
  }

  lemma {:induction false} KeptNumbersFacts(n: nat, totalDays: int, maxPoints: int)
    requires maxPoints > 0
    ensures forall k :: 0 <= k < |KeptNumbers(n, totalDays, maxPoints)| ==> 1 <= KeptNumbers(n, totalDays, maxPoints)[k] <= n
    ensures forall i, j :: 0 <= i < j < |KeptNumbers(n, totalDays, maxPoints)| ==>
              KeptNumbers(n, totalDays, maxPoints)[i] < KeptNumbers(n, totalDays, maxPoints)[j]
    ensures forall rn :: 1 <= rn <= n ==> (rn in KeptNumbers(n, totalDays, maxPoints) <==> KeepsRow(rn, totalDays, maxPoints))
  {
    if n > 0 {
      KeptNumbersFacts(n - 1, totalDays, maxPoints);
    }
  }

  /** The rows `get_daily_total_values(max_points)` returns. */
  function SampledTotals(days: seq<DayTotal>, maxPoints: int): (r: seq<DayTotal>)
    requires maxPoints > 0
  {
    var rns := KeptNumbers(|days|, |days|, maxPoints);
    KeptNumbersFacts(|days|, |days|, maxPoints);
    seq(|rns|, k requires 0 <= k < |rns| => days[rns[k] - 1])
  }

  /** At most `maxPoints` days are all kept; beyond that the first and last
    * day always survive, and a row survives whenever its number is 1, the
    * count, or a multiple of the interval. */
  lemma SamplingKeepsEnds(days: seq<DayTotal>, maxPoints: int)
    requires maxPoints > 0
    ensures |days| <= maxPoints ==> SampledTotals(days, maxPoints) == days
    ensures days != [] ==> SampledTotals(days, maxPoints) != []
                           && SampledTotals(days, maxPoints)[0] == days[0]
                           && SampledTotals(days, maxPoints)[|SampledTotals(days, maxPoints)| - 1] == days[|days| - 1]
    ensures forall k :: 0 <= k < |days| && KeepsRow(k + 1, |days|, maxPoints) ==> days[k] in SampledTotals(days, maxPoints)
  {
    if |days| <= maxPoints {
      SampleAll(days, maxPoints);
    }
    if days != [] {
      SampleEnds(days, maxPoints);
    }
    SampleKeeps(days, maxPoints);
  }

  lemma SampleAll(days: seq<DayTotal>, maxPoints: int)
    requires maxPoints > 0 && |days| <= maxPoints
    ensures SampledTotals(days, maxPoints) == days
  {
    AllKept(|days|, |days|, maxPoints);
  }

  lemma SampleEnds(days: seq<DayTotal>, maxPoints: int)
    requires maxPoints > 0 && days != []
    ensures SampledTotals(days, maxPoints) != []
    ensures SampledTotals(days, maxPoints)[0] == days[0]
    ensures SampledTotals(days, maxPoints)[|SampledTotals(days, maxPoints)| - 1] == days[|days| - 1]
  {
    var n := |days|;
    var rns := KeptNumbers(n, n, maxPoints);
    KeptNumbersFacts(n, n, maxPoints);
    assert KeepsRow(1, n, maxPoints) && KeepsRow(n, n, maxPoints);
    assert 1 in rns && n in rns;
  }

  lemma SampleKeeps(days: seq<DayTotal>, maxPoints: int)
    requires maxPoints > 0
    ensures forall k :: 0 <= k < |days| && KeepsRow(k + 1, |days|, maxPoints) ==> days[k] in SampledTotals(days, maxPoints)
  {
    var n := |days|;
    var rns := KeptNumbers(n, n, maxPoints);
    KeptNumbersFacts(n, n, maxPoints);
    var r := SampledTotals(days, maxPoints);
    forall k | 0 <= k < n && KeepsRow(k + 1, n, maxPoints)
      ensures days[k] in r
    {
      assert k + 1 in rns;
      var i :| 0 <= i < |rns| && rns[i] == k + 1;
      assert r[i] == days[k];
    }
  }

  lemma {:induction false} AllKept(n: nat, totalDays: int, maxPoints: int)
    requires maxPoints > 0 && totalDays <= maxPoints
    ensures KeptNumbers(n, totalDays, maxPoints) == seq(n, k => k + 1)
  {
    if n > 0 {
      AllKept(n - 1, totalDays, maxPoints);
      assert seq(n, k => k + 1) == seq(n - 1, k => k + 1) + [n];
    }
  }
}
