/** The trading loop of `trader.py` (`TradingSystem`): which rules fire at a
  * price, how many shares `buy_stock`/`sell_stock` order, how the in-memory
  * position cache follows the fills, which statuses are written back, the
  * pre-market split adjustment and the close-of-day price/high update.
  *
  * Broker calls (prices, cash, order placement, ETF sales) and database reads
  * are inputs of the operations; the database writes are their results. */
module Trader {
  import opened Common
  import SafetyGuard
  import EtfCash

  /** `OrderType`: SELL = 0, BUY = 1. */
  datatype OrderType = Sell | Buy

  /** `limit_type`; `Price` stands for every other value (plain price limits). */
  datatype LimitType = Weekly | Monthly | Percent | HighPercent | Price

  datatype Status = Active | Processed | Completed | Inactive

  function StatusText(s: Status): string
  {
    match s
    case Active => "ACTIVE"
    case Processed => "PROCESSED"
    case Completed => "COMPLETED"
    case Inactive => "INACTIVE"
  }

  /** A trading rule row. `averagePrice` is `None` for a NULL column. */
  datatype Rule = Rule(id: int, userId: string, symbol: string, stockName: Option<string>, hashValue: string,
                       limitType: LimitType, limitValue: real, tradeAction: OrderType,
                       targetAmount: int, dailyMoney: real, cashOnly: bool, status: Status,
                       averagePrice: Option<real>, highPrice: real, currentHolding: real)

  /** `datetime.now()` as the trader reads it: weekday (0 = Monday) and day of month. */
  datatype Today = Today(weekday: int, day: int)

  predicate IsPeriodic(rule: Rule)
  {
    rule.limitType == Weekly || rule.limitType == Monthly
  }

  // ---------------------------------------------------------------------------
  // Periodic rules

  /** `check_periodic_buy_date`: weekly rules fire on their weekday, monthly rules
    * on their day of the month, every other rule never. */
  function CheckPeriodicBuyDate(rule: Rule, today: Today): (due: bool)
    ensures due ==> IsPeriodic(rule)
    ensures rule.limitType == Weekly ==> (due <==> today.weekday as real == rule.limitValue)
    ensures rule.limitType == Monthly ==> (due <==> today.day as real == rule.limitValue)
  {
    match rule.limitType
    case Weekly => today.weekday as real == rule.limitValue
    case Monthly => today.day as real == rule.limitValue
    case _ => false
  }

  predicate Reactivated(rule: Rule, today: Today)
  {
    rule.status == Processed && CheckPeriodicBuyDate(rule, today)
  }

  /** Ids written back as ACTIVE, in rule order. */
  function ReactivatedIds(rules: seq<Rule>, today: Today): seq<int>
  {
    if rules == [] then []
    else ReactivatedIds(rules[..|rules| - 1], today)
         + (if Reactivated(rules[|rules| - 1], today) then [rules[|rules| - 1].id] else [])
  }

  /** `update_periodic_rule_status`: the `update_rule_status(id, 'ACTIVE')` calls it makes. */
  method UpdatePeriodicRuleStatus(rules: seq<Rule>, today: Today) returns (activated: seq<int>)
    ensures activated == ReactivatedIds(rules, today)
  {
    activated := [];
    for i := 0 to |rules|
      invariant activated == ReactivatedIds(rules[..i], today)
    {
      assert rules[..i + 1][..i] == rules[..i];
      if rules[i].status == Processed && CheckPeriodicBuyDate(rules[i], today) {
        activated := activated + [rules[i].id];
      }
    }
    assert rules[..|rules|] == rules;
  }

  /** An id is reactivated exactly when some PROCESSED rule with that id is due today. */
  lemma {:induction false} ReactivatedExactlyWhenDue(rules: seq<Rule>, today: Today, id: int)
    ensures id in ReactivatedIds(rules, today) <==> exists r :: r in rules && r.id == id && Reactivated(r, today)
  {
    if rules != [] {
      var init := rules[..|rules| - 1];
      ReactivatedExactlyWhenDue(init, today, id);
      assert forall r :: r in rules <==> r in init || r == rules[|rules| - 1];
    }
  }

  // ---------------------------------------------------------------------------
  // Trigger decisions of one pass of process_trading_rules

  datatype Action = BuyAction | SellAction | NoAction

  /** The `limit_type` dispatch for one rule at the current price. */
  function TriggerAction(rule: Rule, lastPrice: real): Action
  {
    match rule.limitType
    case Weekly => if rule.tradeAction == Buy then BuyAction else NoAction
    case Monthly => if rule.tradeAction == Buy then BuyAction else NoAction
    case Percent =>
      if rule.averagePrice.None? || rule.averagePrice.value == 0.0 then
        (if rule.tradeAction == Buy then BuyAction else NoAction)
      else if rule.tradeAction == Buy then
        (if lastPrice <= rule.averagePrice.value * (1.0 - rule.limitValue / 100.0) then BuyAction else NoAction)
      else
        (if lastPrice >= rule.averagePrice.value * (1.0 + rule.limitValue / 100.0) then SellAction else NoAction)
    case HighPercent =>
      if rule.tradeAction == Buy && rule.highPrice > 0.0
         && lastPrice <= rule.highPrice * (1.0 - rule.limitValue / 100.0) then BuyAction
      else NoAction
    case Price =>
      if rule.tradeAction == Buy && lastPrice <= rule.limitValue then BuyAction
      else if rule.tradeAction == Sell && lastPrice >= rule.limitValue then SellAction
      else NoAction
  }

  /** A rule only ever acts on its own side; periodic and high-percent rules
    * never sell, and a percent rule without an average price never sells. */
  lemma TriggerSides(rule: Rule, lastPrice: real)
    ensures TriggerAction(rule, lastPrice) == BuyAction ==> rule.tradeAction == Buy
    ensures TriggerAction(rule, lastPrice) == SellAction ==> rule.tradeAction == Sell
    ensures rule.limitType in {Weekly, Monthly, HighPercent} ==> TriggerAction(rule, lastPrice) != SellAction
    ensures rule.limitType == Percent && (rule.averagePrice.None? || rule.averagePrice.value == 0.0) ==>
              TriggerAction(rule, lastPrice) == (if rule.tradeAction == Buy then BuyAction else NoAction)
    ensures IsPeriodic(rule) && rule.tradeAction == Buy ==> TriggerAction(rule, lastPrice) == BuyAction
  {
  }

  /** A rule that buys at some price also buys at every lower price, and one
    * that sells at some price also sells at every higher price. */
  lemma TriggerMonotone(rule: Rule, p: real, q: real)
    ensures TriggerAction(rule, p) == BuyAction && q <= p ==> TriggerAction(rule, q) == BuyAction
    ensures TriggerAction(rule, p) == SellAction && q >= p ==> TriggerAction(rule, q) == SellAction
  {
  }

  /** The decisions of one pass over the active rules; a rule whose price could
    * not be read (`None`) is skipped. */
  method DecideTradingPass(rules: seq<Rule>, prices: seq<Option<real>>) returns (actions: seq<Action>)
    requires |prices| == |rules|
    ensures |actions| == |rules|
    ensures forall i :: 0 <= i < |rules| ==>
              actions[i] == if prices[i].None? then NoAction else TriggerAction(rules[i], prices[i].value)
  {
    actions := [];
    for i := 0 to |rules|
      invariant |actions| == i
      invariant forall k :: 0 <= k < i ==>
                  actions[k] == if prices[k].None? then NoAction else TriggerAction(rules[k], prices[k].value)
    {
      if prices[i].None? {
        actions := actions + [NoAction];
      } else {
        actions := actions + [TriggerAction(rules[i], prices[i].value)];
      }
    }
  }

  // ---------------------------------------------------------------------------
  // The position cache `positions_by_account` {hash: {symbol: quantity}}

  type PositionCache = map<string, map<string, real>>

  /** `positions_by_account[hash].get(symbol, 0)`, or `None` when the account is
    * missing (the `KeyError` that makes `buy_stock`/`sell_stock` skip the rule). */
  function AccountHolding(cache: PositionCache, hashValue: string, symbol: string): (h: Option<real>)
    ensures h.Some? <==> hashValue in cache
  {
    if hashValue !in cache then None
    else if symbol in cache[hashValue] then Some(cache[hashValue][symbol])
    else Some(0.0)
  }

  /** `positions_by_account.get(hash, {}).get(symbol, 0)`. */
  function HoldingOf(cache: PositionCache, hashValue: string, symbol: string): real
  {
    if hashValue in cache && symbol in cache[hashValue] then cache[hashValue][symbol] else 0.0
  }

  /** The cache after a fill of `delta` shares (negative for a sale) in a
    * cached account; the order methods never apply it to an account that is
    * not cached (see `PlaceResult`), and it leaves such a cache as it was. */
  function Adjusted(cache: PositionCache, hashValue: string, symbol: string, delta: real): PositionCache
  {
    if hashValue in cache then
      cache[hashValue := cache[hashValue][symbol := HoldingOf(cache, hashValue, symbol) + delta]]
    else cache
  }

  /** A fill changes exactly one holding, by exactly its size, and no account appears or disappears. */
  lemma AdjustedChangesOneHolding(cache: PositionCache, hashValue: string, symbol: string, delta: real,
                                  h: string, s: string)
    ensures Adjusted(cache, hashValue, symbol, delta).Keys == cache.Keys
    ensures HoldingOf(Adjusted(cache, hashValue, symbol, delta), h, s)
            == HoldingOf(cache, h, s) + (if h == hashValue && s == symbol && hashValue in cache then delta else 0.0)
  {
  }

  /** Selling what was just bought restores every holding. */
  lemma BuyThenSellRestoresHoldings(cache: PositionCache, hashValue: string, symbol: string, q: real,
                                    h: string, s: string)
    ensures HoldingOf(Adjusted(Adjusted(cache, hashValue, symbol, q), hashValue, symbol, -q), h, s)
            == HoldingOf(cache, h, s)
  {
    AdjustedChangesOneHolding(cache, hashValue, symbol, q, h, s);
    AdjustedChangesOneHolding(Adjusted(cache, hashValue, symbol, q), hashValue, symbol, -q, h, s);
  }

  /** What `buy_stock` or `sell_stock` did with one triggered rule. */
  datatype TradeOutcome =
    | NoAccountPositions                 // KeyError on positions_by_account: rule skipped
    | ZeroPrice                          // ZeroDivisionError on last_price == 0: raised
    | EtfQuoteFailed(etf: string)        // buy only: sell_etf_for_cash raised on the ETF's quote
    | NothingToTrade(shares: int)        // max_shares <= 0 from limits and target
    | NoFunds(shares: int)               // buy only: cash allows no share
    | OrderRejected(shares: int)         // the broker did not fill the order
    | OrderFilled(shares: int, newStatus: Option<Status>)

  predicate OrderSent(o: TradeOutcome)
  {
    o.OrderRejected? || o.OrderFilled?
  }

  /** The outcomes that leave `buy_stock`/`sell_stock` as an exception, which
    * the trading loop logs and raises again, ending the pass. */
  predicate Raises(o: TradeOutcome)
  {
    o.ZeroPrice? || o.EtfQuoteFailed?
  }

  /** `(int(daily_money) - today_trading_money) // last_price`. */
  function SharesByDailyMoney(rule: Rule, todayTradingMoney: int, lastPrice: real): int
    requires lastPrice != 0.0
  {
    Floor((Trunc(rule.dailyMoney) - todayTradingMoney) as real / lastPrice)
  }

  /** The shares `sell_stock` orders from the day's money and the surplus over the target. */
  function PlannedSellShares(rule: Rule, h: real, lastPrice: real, todayTradingMoney: int): int
    requires lastPrice != 0.0
  {
    Min(SharesByDailyMoney(rule, todayTradingMoney, lastPrice), Trunc(h) - rule.targetAmount)
  }

  /** `sell_stock`: shares sold and the status written back. */
  function SellStockSpec(rule: Rule, holding: Option<real>, lastPrice: real, todayTradingMoney: int,
                         orderSucceeded: bool): TradeOutcome
  {
    if holding.None? then NoAccountPositions
    else if lastPrice == 0.0 then ZeroPrice
    else
      var h := holding.value;
      var shares := PlannedSellShares(rule, h, lastPrice, todayTradingMoney);
      if shares <= 0 then NothingToTrade(shares)
      else if !orderSucceeded then OrderRejected(shares)
      else OrderFilled(shares, if h - shares as real <= rule.targetAmount as real then Some(Completed) else None)
  }

  /** The amount `sell_etf_for_cash` is asked to raise, if it is called. */
  function EtfRequest(rule: Rule, requiredCash: real, cash: real): (r: Option<real>)
    ensures r.Some? <==> !rule.cashOnly && requiredCash > cash
    ensures r.Some? ==> r.value > 0.0 && r.value == requiredCash - cash
  {
    if !rule.cashOnly && requiredCash > cash then Some(requiredCash - cash) else None
  }

  /** The shares `buy_stock` plans from the day's money and the target, before looking at cash. */
  function PlannedBuyShares(rule: Rule, h: real, lastPrice: real, todayTradingMoney: int): int
    requires lastPrice != 0.0
  {
    Min(SharesByDailyMoney(rule, todayTradingMoney, lastPrice), rule.targetAmount - Trunc(h))
  }

  /** `required_cash = max_shares * last_price`. */
  function RequiredCash(shares: int, price: real): real
  {
    shares as real * price
  }

  /** The ETF sale `buy_stock` makes for a plan costing `requiredCash`, if it
    * makes one: `sell_etf_for_cash` on the account's cached positions, with
    * the broker's ETF quotes `etfQuote` and the result `etfPlaced` of the
    * market sell order. */
  function EtfSaleFor(rule: Rule, cache: PositionCache, requiredCash: real, cash: real,
                      etfQuote: string -> Option<real>, etfPlaced: bool): Option<EtfCash.EtfSale>
    requires rule.hashValue in cache
  {
    var request := EtfRequest(rule, requiredCash, cash);
    if request.None? then None
    else Some(EtfCash.EtfSaleSpec(request.value, cache[rule.hashValue], etfQuote, etfPlaced))
  }

  /** `order and order.is_success` for the ETF sale. */
  predicate EtfSaleSucceeded(sale: Option<EtfCash.EtfSale>)
  {
    sale.Some? && sale.value.EtfSold? && sale.value.placed
  }

  /** The cash a buy is sized by: `get_cash` again (`cashAfterSale`) after a
    * successful ETF sale, the first reading otherwise. */
  function CashForBuy(cash: real, sale: Option<EtfCash.EtfSale>, cashAfterSale: real): real
  {
    if EtfSaleSucceeded(sale) then cashAfterSale else cash
  }

  /** The status a filled buy writes back. */
  function BuyStatus(rule: Rule, h: real, shares: int): Option<Status>
  {
    if IsPeriodic(rule) then Some(Processed)
    else if h + shares as real >= rule.targetAmount as real then Some(Completed)
    else None
  }

  /** `buy_stock` once the plan is positive: cap by cash, then order. */
  function BuyWithCash(rule: Rule, h: real, planned: int, lastPrice: real, available: real,
                       orderSucceeded: bool): TradeOutcome
    requires lastPrice != 0.0
  {
    var shares := Min(planned, Trunc(available / lastPrice));
    if shares <= 0 then NoFunds(shares)
    else if !orderSucceeded then OrderRejected(shares)
    else OrderFilled(shares, BuyStatus(rule, h, shares))
  }

  /** The ETF sale the buy plan of a cached account makes, if any. */
  function BuyEtfSale(rule: Rule, cache: PositionCache, lastPrice: real, todayTradingMoney: int, cash: real,
                      etfQuote: string -> Option<real>, etfPlaced: bool): Option<EtfCash.EtfSale>
    requires rule.hashValue in cache && lastPrice != 0.0
  {
    var planned := PlannedBuyShares(rule, HoldingOf(cache, rule.hashValue, rule.symbol), lastPrice, todayTradingMoney);
    EtfSaleFor(rule, cache, RequiredCash(planned, lastPrice), cash, etfQuote, etfPlaced)
  }

  /** The cash a positive buy plan of a cached account is sized by. */
  function BuyCash(rule: Rule, cache: PositionCache, lastPrice: real, todayTradingMoney: int, cash: real,
                   etfQuote: string -> Option<real>, etfPlaced: bool, cashAfterSale: real): real
    requires rule.hashValue in cache && lastPrice != 0.0
  {
    CashForBuy(cash, BuyEtfSale(rule, cache, lastPrice, todayTradingMoney, cash, etfQuote, etfPlaced), cashAfterSale)
  }

  /** `buy_stock` on the position cache: shares bought and the status written back. */
  function BuyStockSpec(rule: Rule, cache: PositionCache, lastPrice: real, todayTradingMoney: int, cash: real,
                        etfQuote: string -> Option<real>, etfPlaced: bool, cashAfterSale: real,
                        orderSucceeded: bool): TradeOutcome
  {
    if rule.hashValue !in cache then NoAccountPositions
    else if lastPrice == 0.0 then ZeroPrice
    else
      var h := HoldingOf(cache, rule.hashValue, rule.symbol);
      var planned := PlannedBuyShares(rule, h, lastPrice, todayTradingMoney);
      var sale := BuyEtfSale(rule, cache, lastPrice, todayTradingMoney, cash, etfQuote, etfPlaced);
      if planned <= 0 then NothingToTrade(planned)
      else if sale.Some? && sale.value.QuoteFailed? then EtfQuoteFailed(sale.value.etf)
      else BuyWithCash(rule, h, planned, lastPrice, CashForBuy(cash, sale, cashAfterSale), orderSucceeded)
  }

  /** A filled sale is positive, never takes the holding below the target and,
    * at a positive price, never moves more than the day's remaining money;
    * the rule is completed exactly when the target is reached. */
  lemma SellFillWithinLimits(rule: Rule, h: real, lastPrice: real, todayTradingMoney: int, orderSucceeded: bool)
    ensures var o := SellStockSpec(rule, Some(h), lastPrice, todayTradingMoney, orderSucceeded);
            o.OrderFilled? ==>
              o.shares > 0
              && Trunc(h) - o.shares >= rule.targetAmount
              && (lastPrice > 0.0 ==> o.shares as real * lastPrice <= (Trunc(rule.dailyMoney) - todayTradingMoney) as real)
              && (o.newStatus == Some(Completed) <==> h - o.shares as real <= rule.targetAmount as real)
              && (o.newStatus.Some? ==> o.newStatus == Some(Completed))
  {
    var o := SellStockSpec(rule, Some(h), lastPrice, todayTradingMoney, orderSucceeded);
    if o.OrderFilled? && lastPrice > 0.0 {
      FloorQuotientCost(o.shares, (Trunc(rule.dailyMoney) - todayTradingMoney) as real, lastPrice);
    }
  }

  /** A buy capped by cash is positive when filled, never takes the holding
    * above the target and, at a positive price, costs no more than the day's
    * remaining money nor the cash it was sized by. */
  lemma BuyFillWithinLimits(rule: Rule, h: real, planned: int, lastPrice: real, todayTradingMoney: int,
                            available: real, orderSucceeded: bool)
    requires lastPrice > 0.0 && planned == PlannedBuyShares(rule, h, lastPrice, todayTradingMoney)
    ensures var o := BuyWithCash(rule, h, planned, lastPrice, available, orderSucceeded);
            o.OrderFilled? ==>
              o.shares > 0
              && Trunc(h) + o.shares <= rule.targetAmount
              && o.shares as real * lastPrice <= (Trunc(rule.dailyMoney) - todayTradingMoney) as real
              && o.shares as real * lastPrice <= available
  {
    var o := BuyWithCash(rule, h, planned, lastPrice, available, orderSucceeded);
    if o.OrderFilled? {
      assert o.shares <= planned && o.shares <= Trunc(available / lastPrice);
      FloorQuotientCost(o.shares, (Trunc(rule.dailyMoney) - todayTradingMoney) as real, lastPrice);
      TruncQuotientCost(o.shares, available, lastPrice);
    }
  }

  /** Every filled `buy_stock` is the positive plan capped by the cash re-read
    * after any ETF sale; without a successful ETF sale that is the cash first read. */
  lemma BuyStockIsCappedPlan(rule: Rule, cache: PositionCache, lastPrice: real, todayTradingMoney: int, cash: real,
                             etfQuote: string -> Option<real>, etfPlaced: bool, cashAfterSale: real,
                             orderSucceeded: bool)
    requires lastPrice > 0.0 && rule.hashValue in cache
    ensures var o := BuyStockSpec(rule, cache, lastPrice, todayTradingMoney, cash, etfQuote, etfPlaced,
                                  cashAfterSale, orderSucceeded);
            var h := HoldingOf(cache, rule.hashValue, rule.symbol);
            var available := BuyCash(rule, cache, lastPrice, todayTradingMoney, cash, etfQuote, etfPlaced, cashAfterSale);
            o.OrderFilled? ==>
              PlannedBuyShares(rule, h, lastPrice, todayTradingMoney) > 0
              && o.shares as real * lastPrice <= available
              && (!EtfSaleSucceeded(BuyEtfSale(rule, cache, lastPrice, todayTradingMoney, cash, etfQuote, etfPlaced)) ==>
                    o.shares as real * lastPrice <= cash)
              && Trunc(h) + o.shares <= rule.targetAmount
  {
    var o := BuyStockSpec(rule, cache, lastPrice, todayTradingMoney, cash, etfQuote, etfPlaced,
                          cashAfterSale, orderSucceeded);
    var h := HoldingOf(cache, rule.hashValue, rule.symbol);
    var planned := PlannedBuyShares(rule, h, lastPrice, todayTradingMoney);
    var available := BuyCash(rule, cache, lastPrice, todayTradingMoney, cash, etfQuote, etfPlaced, cashAfterSale);
    if o.OrderFilled? {
      assert o == BuyWithCash(rule, h, planned, lastPrice, available, orderSucceeded);
      BuyFillWithinLimits(rule, h, planned, lastPrice, todayTradingMoney, available, orderSucceeded);
    }
  }

  /** The buy raises exactly when a positive plan of a rule that may sell ETFs
    * lacks cash and `sell_etf_for_cash`, asked for the missing amount, hits a
    * failed quote; a cash-only rule never raises this way. */
  lemma EtfQuoteFailureStopsBuy(rule: Rule, cache: PositionCache, lastPrice: real, todayTradingMoney: int, cash: real,
                                etfQuote: string -> Option<real>, etfPlaced: bool, cashAfterSale: real,
                                orderSucceeded: bool)
    requires rule.hashValue in cache && lastPrice != 0.0
    ensures var o := BuyStockSpec(rule, cache, lastPrice, todayTradingMoney, cash, etfQuote, etfPlaced,
                                  cashAfterSale, orderSucceeded);
            var planned := PlannedBuyShares(rule, HoldingOf(cache, rule.hashValue, rule.symbol), lastPrice, todayTradingMoney);
            var required := RequiredCash(planned, lastPrice);
            (o.EtfQuoteFailed? <==>
               planned > 0 && !rule.cashOnly && required > cash
               && EtfCash.EtfSaleSpec(required - cash, cache[rule.hashValue], etfQuote, etfPlaced).QuoteFailed?)
            && (rule.cashOnly ==> !o.EtfQuoteFailed?)
  {
    var h := HoldingOf(cache, rule.hashValue, rule.symbol);
    var planned := PlannedBuyShares(rule, h, lastPrice, todayTradingMoney);
    var required := RequiredCash(planned, lastPrice);
    var sale := BuyEtfSale(rule, cache, lastPrice, todayTradingMoney, cash, etfQuote, etfPlaced);
    assert sale == EtfSaleFor(rule, cache, required, cash, etfQuote, etfPlaced);
    assert sale.Some? <==> !rule.cashOnly && required > cash;
    if planned > 0 && !(sale.Some? && sale.value.QuoteFailed?) {
      var o := BuyWithCash(rule, h, planned, lastPrice, CashForBuy(cash, sale, cashAfterSale), orderSucceeded);
      assert !o.EtfQuoteFailed?;
    }
  }

  /** Periodic rules go to PROCESSED after any fill; other rules go to
    * COMPLETED exactly when the fill reaches the target. */
  lemma BuyStatusRule(rule: Rule, cache: PositionCache, lastPrice: real, todayTradingMoney: int, cash: real,
                      etfQuote: string -> Option<real>, etfPlaced: bool, cashAfterSale: real)
    requires rule.hashValue in cache
    ensures var o := BuyStockSpec(rule, cache, lastPrice, todayTradingMoney, cash, etfQuote, etfPlaced,
                                  cashAfterSale, true);
            var h := HoldingOf(cache, rule.hashValue, rule.symbol);
            o.OrderFilled? ==>
              (IsPeriodic(rule) ==> o.newStatus == Some(Processed))
              && (!IsPeriodic(rule) ==> (o.newStatus == Some(Completed) <==> h + o.shares as real >= rule.targetAmount as real)
                                        && o.newStatus != Some(Processed))
  {
  }

  // ---------------------------------------------------------------------------
  // load_daily_positions

  /** `max_retries`: tries of `get_positions` per account. */
  const MaxRetries: nat := 3

  /** `retry_delay`, in seconds. */
  const RetryDelay: real := 2.0

  function Pow2(n: nat): nat
  {
    if n == 0 then 1 else 2 * Pow2(n - 1)
  }

  /** The pause after the `n`-th failed try: `retry_delay * 2 ** (n - 1)`. */
  function Backoff(n: nat): real
    requires n >= 1
  {
    RetryDelay * Pow2(n - 1) as real
  }

  /** The pauses after the first `n` failed tries. */
  function Backoffs(n: nat): seq<real>
  {
    if n == 0 then [] else Backoffs(n - 1) + [Backoff(n)]
  }

  /** One account's answers to `get_positions`, try by try; `None` is an
    * exception, and so is every try beyond the answers given. */
  type Replies = seq<Option<map<string, real>>>

  /** The first try from `from` on, within the retry budget, that succeeds. */
  function FirstLoadFrom(replies: Replies, from: nat): (k: Option<nat>)
    ensures k.Some? ==> from <= k.value < MaxRetries && k.value < |replies| && replies[k.value].Some?
                        && forall j :: from <= j < k.value ==> replies[j].None?
    ensures k.None? ==> forall j :: from <= j < MaxRetries && j < |replies| ==> replies[j].None?
    decreases MaxRetries - from
  {
    if from >= MaxRetries || from >= |replies| then None
    else if replies[from].Some? then Some(from)
    else FirstLoadFrom(replies, from + 1)
  }

  function FirstLoad(replies: Replies): Option<nat>
  {
    FirstLoadFrom(replies, 0)
  }

  /** The pauses one account costs: one after every failed try but the last. */
  function AccountPauses(replies: Replies): seq<real>
  {
    var first := FirstLoad(replies);
    if first.Some? then Backoffs(first.value) else Backoffs(MaxRetries - 1)
  }

  /** The cache after loading the accounts in order. An account that fails
    * every try ends the load, so the accounts after it stay unloaded. */
  function LoadedCache(cache: PositionCache, hashes: seq<string>, replies: seq<Replies>): PositionCache
    requires |replies| == |hashes|
    decreases |hashes|
  {
    if hashes == [] then cache
    else
      var first := FirstLoad(replies[0]);
      if first.None? then cache
      else LoadedCache(cache[hashes[0] := replies[0][first.value].value], hashes[1..], replies[1..])
  }

  /** The pauses of the load, account after account, up to the first account
    * that fails every try. */
  function LoadPauses(replies: seq<Replies>): seq<real>
  {
    if replies == [] then []
    else if FirstLoad(replies[0]).None? then AccountPauses(replies[0])
    else AccountPauses(replies[0]) + LoadPauses(replies[1..])
  }

  /** The number of leading accounts that load within their tries. */
  function LoadedCount(replies: seq<Replies>): nat
  {
    if replies == [] then 0
    else if FirstLoad(replies[0]).None? then 0
    else 1 + LoadedCount(replies[1..])
  }

  /** The load functions from the `i`-th account on, one account at a time. */
  lemma LoadStep(cache: PositionCache, hashes: seq<string>, replies: seq<Replies>, i: nat)
    requires |replies| == |hashes| && i < |hashes|
    ensures FirstLoad(replies[i]).None? ==>
              LoadedCache(cache, hashes[i..], replies[i..]) == cache
              && LoadPauses(replies[i..]) == AccountPauses(replies[i])
              && LoadedCount(replies[i..]) == 0
    ensures FirstLoad(replies[i]).Some? ==>
              LoadedCache(cache, hashes[i..], replies[i..])
              == LoadedCache(cache[hashes[i] := replies[i][FirstLoad(replies[i]).value].value], hashes[i + 1..], replies[i + 1..])
              && LoadPauses(replies[i..]) == AccountPauses(replies[i]) + LoadPauses(replies[i + 1..])
              && LoadedCount(replies[i..]) == 1 + LoadedCount(replies[i + 1..])
  {
    assert hashes[i..][0] == hashes[i] && hashes[i..][1..] == hashes[i + 1..];
    assert replies[i..][0] == replies[i] && replies[i..][1..] == replies[i + 1..];
  }

  /** Every pause is 2 s or 4 s, the doubling backoff of the first and second failure. */
  lemma AccountPausesDouble(replies: Replies)
    ensures |AccountPauses(replies)| < MaxRetries
    ensures forall p :: p in AccountPauses(replies) ==> p == RetryDelay || p == 2.0 * RetryDelay
  {
    assert Backoffs(1) == [RetryDelay];
    assert Backoffs(2) == [RetryDelay, 2.0 * RetryDelay];
  }

  /** The load goes through the accounts in order until the first that fails
    * all three tries: exactly the accounts before it are loaded, the accounts
    * after it are not, and it waits 2 s or 4 s between tries. */
  lemma {:induction false} LoadStopsAtFirstFailure(cache: PositionCache, hashes: seq<string>, replies: seq<Replies>)
    requires |replies| == |hashes|
    decreases |hashes|
    ensures var n := LoadedCount(replies);
            n <= |hashes|
            && (n < |hashes| ==> forall j :: 0 <= j < MaxRetries && j < |replies[n]| ==> replies[n][j].None?)
            && (forall h :: h in LoadedCache(cache, hashes, replies) <==> h in cache || h in hashes[..n])
            && (forall p :: p in LoadPauses(replies) ==> p == RetryDelay || p == 2.0 * RetryDelay)
  {
    if hashes != [] {
      AccountPausesDouble(replies[0]);
      var first := FirstLoad(replies[0]);
      if first.Some? {
        var next := cache[hashes[0] := replies[0][first.value].value];
        LoadStopsAtFirstFailure(next, hashes[1..], replies[1..]);
        var n := LoadedCount(replies);
        assert hashes[..n] == [hashes[0]] + hashes[1..][..n - 1];
      }
    }
  }

  // ---------------------------------------------------------------------------
  // One pass of the trading loop

  /** What one rule's turn of the loop hands to `buy_stock`/`sell_stock`: the
    * quote (`None` when `get_last_price` raised or returned `None`), the day's
    * traded money, `get_cash`, the ETF quotes and the ETF sell result, the
    * cash after that sale and the order result. */
  datatype RuleInputs = RuleInputs(price: Option<real>, todayTradingMoney: int, cash: real,
                                   etfQuote: string -> Option<real>, etfPlaced: bool, cashAfterSale: real,
                                   orderSucceeded: bool)

  /** One rule's turn: the outcome of the trade it triggers (`None` when it
    * triggers none) and the cache after it. */
  function RuleTurn(rule: Rule, cache: PositionCache, inp: RuleInputs): (Option<TradeOutcome>, PositionCache)
  {
    if inp.price.None? then (None, cache)
    else
      var p := inp.price.value;
      match TriggerAction(rule, p)
      case BuyAction =>
        var o := BuyStockSpec(rule, cache, p, inp.todayTradingMoney, inp.cash, inp.etfQuote, inp.etfPlaced,
                              inp.cashAfterSale, inp.orderSucceeded);
        (Some(o), if o.OrderFilled? then Adjusted(cache, rule.hashValue, rule.symbol, o.shares as real) else cache)
      case SellAction =>
        var o := SellStockSpec(rule, AccountHolding(cache, rule.hashValue, rule.symbol), p, inp.todayTradingMoney,
                               inp.orderSucceeded);
        (Some(o), if o.OrderFilled? then Adjusted(cache, rule.hashValue, rule.symbol, -(o.shares as real)) else cache)
      case NoAction => (None, cache)
  }

  predicate RaisesIn(o: Option<TradeOutcome>)
  {
    o.Some? && Raises(o.value)
  }

  /** One pass over the active rules: a turn per rule, until a trade raises. */
  function TradingPass(rules: seq<Rule>, inputs: seq<RuleInputs>, cache: PositionCache)
    : (seq<Option<TradeOutcome>>, PositionCache)
    requires |inputs| == |rules|
    decreases |rules|
  {
    if rules == [] then ([], cache)
    else
      var turn := RuleTurn(rules[0], cache, inputs[0]);
      if RaisesIn(turn.0) then ([turn.0], turn.1)
      else
        var rest := TradingPass(rules[1..], inputs[1..], turn.1);
        ([turn.0] + rest.0, rest.1)
  }

  /** A pass trades exactly for the rules whose price was read and whose
    * trigger fires, and it ends early exactly at the first trade that raises:
    * no earlier turn raised, and a pass cut short ends with a raise. */
  lemma {:induction false} PassStopsAtFirstRaise(rules: seq<Rule>, inputs: seq<RuleInputs>, cache: PositionCache)
    requires |inputs| == |rules|
    ensures var out := TradingPass(rules, inputs, cache).0;
            |out| <= |rules|
            && (forall i :: 0 <= i < |out| ==>
                  (out[i].Some? <==> inputs[i].price.Some? && TriggerAction(rules[i], inputs[i].price.value) != NoAction))
            && (forall i :: 0 <= i < |out| - 1 ==> !RaisesIn(out[i]))
            && (|out| < |rules| ==> |out| > 0 && RaisesIn(out[|out| - 1]))
  {
    if rules != [] {
      var turn := RuleTurn(rules[0], cache, inputs[0]);
      assert turn.0.Some? <==> inputs[0].price.Some? && TriggerAction(rules[0], inputs[0].price.value) != NoAction;
      if !RaisesIn(turn.0) {
        PassStopsAtFirstRaise(rules[1..], inputs[1..], turn.1);
        var rest := TradingPass(rules[1..], inputs[1..], turn.1).0;
        var out := TradingPass(rules, inputs, cache).0;
        assert out == [turn.0] + rest;
        forall i | 1 <= i < |out|
          ensures out[i] == rest[i - 1] && rules[i] == rules[1..][i - 1] && inputs[i] == inputs[1..][i - 1]
        {
        }
      }
    }
  }

  /** What `place_buy_order`/`place_sell_order` did once the broker answered. */
  datatype PlaceResult =
    | Placed         // a fill: the cache follows it and the call returns True
    | NotPlaced      // no fill: returns False
    | AlertKeyError  // a fill, but the alert message indexes the missing account: the KeyError is raised again

  /** The trader's state that outlives one rule: the per-account position cache. */
  class TradingSystem {
    var positionsByAccount: PositionCache

    constructor ()
      ensures positionsByAccount == map[]
    {
      positionsByAccount := map[];
    }

    /** The retry loop of `load_daily_positions` for one account. */
    method LoadAccount(hashValue: string, replies: Replies) returns (loaded: bool, pauses: seq<real>)
      modifies this
      ensures loaded <==> FirstLoad(replies).Some?
      ensures pauses == AccountPauses(replies)
      ensures positionsByAccount == if loaded then old(positionsByAccount)[hashValue := replies[FirstLoad(replies).value].value]
                                    else old(positionsByAccount)
    {
      loaded, pauses := false, [];
      var retryCount := 0;
      while retryCount < MaxRetries
        invariant 0 <= retryCount <= MaxRetries
        invariant FirstLoad(replies) == FirstLoadFrom(replies, retryCount)
        invariant pauses == Backoffs(Min(retryCount, MaxRetries - 1))
        invariant positionsByAccount == old(positionsByAccount) && !loaded
        decreases MaxRetries - retryCount
      {
        var reply := if retryCount < |replies| then replies[retryCount] else None;
        if reply.Some? {
          positionsByAccount := positionsByAccount[hashValue := reply.value];
          loaded := true;
          return;
        }
        retryCount := retryCount + 1;
        if retryCount < MaxRetries {
          pauses := pauses + [Backoff(retryCount)];
        }
      }
    }

    /** The `i`-th account's turn of the account loop, stated as one step of the load functions. */
    method LoadNext(hashes: seq<string>, replies: seq<Replies>, i: nat) returns (loaded: bool, pauses: seq<real>)
      requires |replies| == |hashes| && i < |hashes|
      modifies this
      ensures loaded <==> LoadedCount(replies[i..]) > 0
      ensures loaded ==> LoadedCache(old(positionsByAccount), hashes[i..], replies[i..])
                         == LoadedCache(positionsByAccount, hashes[i + 1..], replies[i + 1..])
                         && LoadPauses(replies[i..]) == pauses + LoadPauses(replies[i + 1..])
                         && LoadedCount(replies[i..]) == 1 + LoadedCount(replies[i + 1..])
      ensures !loaded ==> positionsByAccount == old(positionsByAccount)
                          && LoadedCache(old(positionsByAccount), hashes[i..], replies[i..]) == positionsByAccount
                          && LoadPauses(replies[i..]) == pauses
    {
      LoadStep(positionsByAccount, hashes, replies, i);
      loaded, pauses := LoadAccount(hashes[i], replies[i]);
    }

    /** The account loop of `load_daily_positions`: `replies[i]` are the
      * answers to the tries of the i-th account. An account that fails every
      * try ends the loop (`aborted`). */
    method LoadAccounts(hashes: seq<string>, replies: seq<Replies>) returns (pauses: seq<real>, aborted: bool)
      requires |replies| == |hashes|
      modifies this
      ensures positionsByAccount == LoadedCache(old(positionsByAccount), hashes, replies)
      ensures pauses == LoadPauses(replies)
      ensures aborted <==> LoadedCount(replies) < |replies|
    {
      pauses, aborted := [], false;
      assert hashes[0..] == hashes && replies[0..] == replies;
      var i := 0;
      while i < |hashes|
        invariant 0 <= i <= |hashes|
        invariant LoadedCache(old(positionsByAccount), hashes, replies) == LoadedCache(positionsByAccount, hashes[i..], replies[i..])
        invariant LoadPauses(replies) == pauses + LoadPauses(replies[i..])
        invariant LoadedCount(replies) == i + LoadedCount(replies[i..])
      {
        var loaded, accountPauses := LoadNext(hashes, replies, i);
        if !loaded {
          pauses := pauses + accountPauses;
          aborted := true;
          return;
        }
        assert (pauses + accountPauses) + LoadPauses(replies[i + 1..]) == pauses + (accountPauses + LoadPauses(replies[i + 1..]));
        pauses := pauses + accountPauses;
        i := i + 1;
      }
      assert hashes[i..] == [] && replies[i..] == [];
      assert pauses + [] == pauses;
    }

    /** `load_daily_positions` for one user: `hashes` is `get_hashs`, `None`
      * when it raised, which the method's `except` catches before any load. */
    method LoadDailyPositions(hashes: Option<seq<string>>, replies: seq<Replies>) returns (pauses: seq<real>, aborted: bool)
      requires hashes.Some? ==> |replies| == |hashes.value|
      modifies this
      ensures hashes.None? ==> positionsByAccount == old(positionsByAccount) && pauses == [] && aborted
      ensures hashes.Some? ==> positionsByAccount == LoadedCache(old(positionsByAccount), hashes.value, replies)
                               && pauses == LoadPauses(replies)
                               && (aborted <==> LoadedCount(replies) < |replies|)
    {
      if hashes.None? {
        return [], true;
      }
      pauses, aborted := LoadAccounts(hashes.value, replies);
    }

    /** `place_buy_order`: the dry-run validation (its verdict is only logged),
      * then the order; a fill is added to the cache after the alert message
      * has read the account's cached holding. */
    method PlaceBuyOrder(rule: Rule, quantity: int, price: real, currentCash: real, market: string,
                         orderSucceeded: bool) returns (result: PlaceResult, guard: SafetyGuard.Verdict)
      modifies this
      ensures guard == SafetyGuard.ValidateBuy(market, price, quantity, currentCash)
      ensures result == if !orderSucceeded then NotPlaced
                        else if rule.hashValue in old(positionsByAccount) then Placed
                        else AlertKeyError
      ensures positionsByAccount == if result == Placed then Adjusted(old(positionsByAccount), rule.hashValue, rule.symbol, quantity as real)
                                    else old(positionsByAccount)
    {
      guard := SafetyGuard.ValidateBuy(market, price, quantity, currentCash);
      if !orderSucceeded {
        return NotPlaced, guard;
      }
      if rule.hashValue !in positionsByAccount {
        return AlertKeyError, guard;
      }
      var account := positionsByAccount[rule.hashValue];
      var held := if rule.symbol in account then account[rule.symbol] else 0.0;
      positionsByAccount := positionsByAccount[rule.hashValue := account[rule.symbol := held + quantity as real]];
      result := Placed;
    }

    /** `place_sell_order`: without a holding from the caller the validator
      * reads the cache (0 when absent); a fill is taken off the cache after
      * the alert message has read the account's cached holding. */
    method PlaceSellOrder(rule: Rule, quantity: int, price: real, currentHolding: Option<real>, market: string,
                          orderSucceeded: bool) returns (result: PlaceResult, guard: SafetyGuard.Verdict)
      modifies this
      ensures guard == SafetyGuard.ValidateSell(market, price, quantity,
                         Some(if currentHolding.Some? then currentHolding.value
                              else HoldingOf(old(positionsByAccount), rule.hashValue, rule.symbol)))
      ensures result == if !orderSucceeded then NotPlaced
                        else if rule.hashValue in old(positionsByAccount) then Placed
                        else AlertKeyError
      ensures positionsByAccount == if result == Placed then Adjusted(old(positionsByAccount), rule.hashValue, rule.symbol, -(quantity as real))
                                    else old(positionsByAccount)
    {
      var holding := currentHolding;
      if holding.None? {
        var account := if rule.hashValue in positionsByAccount then positionsByAccount[rule.hashValue] else map[];
        holding := Some(if rule.symbol in account then account[rule.symbol] else 0.0);
      }
      guard := SafetyGuard.ValidateSell(market, price, quantity, holding);
      if !orderSucceeded {
        return NotPlaced, guard;
      }
      if rule.hashValue !in positionsByAccount {
        return AlertKeyError, guard;
      }
      var account := positionsByAccount[rule.hashValue];
      var held := if rule.symbol in account then account[rule.symbol] else 0.0;
      positionsByAccount := positionsByAccount[rule.hashValue := account[rule.symbol := held - quantity as real]];
      result := Placed;
    }

    /** `sell_stock`. `guard` is the dry-run verdict on the order sent, if one was. */
    method SellStock(rule: Rule, lastPrice: real, todayTradingMoney: int, market: string, orderSucceeded: bool)
      returns (outcome: TradeOutcome, guard: Option<SafetyGuard.Verdict>)
      modifies this
      ensures outcome == SellStockSpec(rule, AccountHolding(old(positionsByAccount), rule.hashValue, rule.symbol),
                                       lastPrice, todayTradingMoney, orderSucceeded)
      ensures guard == if OrderSent(outcome)
                       then Some(SafetyGuard.ValidateSell(market, lastPrice, outcome.shares,
                                   AccountHolding(old(positionsByAccount), rule.hashValue, rule.symbol)))
                       else None
      ensures positionsByAccount == if outcome.OrderFilled?
                                    then Adjusted(old(positionsByAccount), rule.hashValue, rule.symbol, -(outcome.shares as real))
                                    else old(positionsByAccount)
    {
      guard := None;
      if rule.hashValue !in positionsByAccount {
        return NoAccountPositions, None;
      }
      var account := positionsByAccount[rule.hashValue];
      var currentHolding := if rule.symbol in account then account[rule.symbol] else 0.0;
      if lastPrice == 0.0 {
        return ZeroPrice, None;
      }
      var maxShares := Min(Floor((Trunc(rule.dailyMoney) - todayTradingMoney) as real / lastPrice),
                           Trunc(currentHolding) - rule.targetAmount);
      if maxShares <= 0 {
        return NothingToTrade(maxShares), None;
      }
      var placed, verdict := PlaceSellOrder(rule, maxShares, lastPrice, Some(currentHolding), market, orderSucceeded);
      guard := Some(verdict);
      if placed == NotPlaced {
        return OrderRejected(maxShares), guard;
      }
      var newStatus := None;
      if currentHolding - maxShares as real <= rule.targetAmount as real {
        newStatus := Some(Completed);
      }
      outcome := OrderFilled(maxShares, newStatus);
    }

    /** The ETF top-up of `buy_stock` for a plan costing `requiredCash`: a rule
      * that may sell ETFs and lacks cash calls `sell_etf_for_cash` for the
      * difference, and a successful sale makes `get_cash` read `cashAfterSale`. */
    method TopUpCash(rule: Rule, requiredCash: real, cash: real, etfQuote: string -> Option<real>, etfPlaced: bool,
                     cashAfterSale: real) returns (sale: Option<EtfCash.EtfSale>, currentCash: real)
      requires rule.hashValue in positionsByAccount
      ensures sale == EtfSaleFor(rule, positionsByAccount, requiredCash, cash, etfQuote, etfPlaced)
      ensures currentCash == CashForBuy(cash, sale, cashAfterSale)
    {
      sale, currentCash := None, cash;
      if !rule.cashOnly && requiredCash > currentCash {
        var order := EtfCash.SellEtfForCash(requiredCash - currentCash, positionsByAccount[rule.hashValue],
                                            etfQuote, etfPlaced);
        sale := Some(order);
        if order.EtfSold? && order.placed {
          currentCash := cashAfterSale;
        }
      }
    }

    /** `buy_stock`. `cash` is `get_cash`; a requested ETF sale goes through
      * `sell_etf_for_cash` on the account's cached positions with the quotes
      * `etfQuote` and the sell result `etfPlaced`, after which `get_cash`
      * reads `cashAfterSale`. `etfRequest` is the amount the sale was asked
      * for and `guard` the dry-run verdict on the order sent, if one was. */
    method BuyStock(rule: Rule, lastPrice: real, todayTradingMoney: int, market: string, cash: real,
                    etfQuote: string -> Option<real>, etfPlaced: bool, cashAfterSale: real, orderSucceeded: bool)
      returns (outcome: TradeOutcome, etfRequest: Option<real>, guard: Option<SafetyGuard.Verdict>)
      modifies this
      ensures outcome == BuyStockSpec(rule, old(positionsByAccount), lastPrice, todayTradingMoney, cash,
                                      etfQuote, etfPlaced, cashAfterSale, orderSucceeded)
      ensures etfRequest == if rule.hashValue !in old(positionsByAccount) || lastPrice == 0.0 then None
                            else
                              var planned := PlannedBuyShares(rule, HoldingOf(old(positionsByAccount), rule.hashValue, rule.symbol),
                                                              lastPrice, todayTradingMoney);
                              if planned <= 0 then None else EtfRequest(rule, RequiredCash(planned, lastPrice), cash)
      ensures guard == if OrderSent(outcome)
                       then Some(SafetyGuard.ValidateBuy(market, lastPrice, outcome.shares,
                                   BuyCash(rule, old(positionsByAccount), lastPrice, todayTradingMoney, cash,
                                           etfQuote, etfPlaced, cashAfterSale)))
                       else None
      ensures positionsByAccount == if outcome.OrderFilled?
                                    then Adjusted(old(positionsByAccount), rule.hashValue, rule.symbol, outcome.shares as real)
                                    else old(positionsByAccount)
    {
      etfRequest, guard := None, None;
      if rule.hashValue !in positionsByAccount {
        return NoAccountPositions, None, None;
      }
      var account := positionsByAccount[rule.hashValue];
      var currentHolding := if rule.symbol in account then account[rule.symbol] else 0.0;
      if lastPrice == 0.0 {
        return ZeroPrice, None, None;
      }
      var maxShares := Min(Floor((Trunc(rule.dailyMoney) - todayTradingMoney) as real / lastPrice),
                           rule.targetAmount - Trunc(currentHolding));
      assert maxShares == PlannedBuyShares(rule, currentHolding, lastPrice, todayTradingMoney);
      if maxShares <= 0 {
        return NothingToTrade(maxShares), None, None;
      }
      var requiredCash := RequiredCash(maxShares, lastPrice);
      etfRequest := EtfRequest(rule, requiredCash, cash);
      var sale, currentCash := TopUpCash(rule, requiredCash, cash, etfQuote, etfPlaced, cashAfterSale);
      assert sale == BuyEtfSale(rule, positionsByAccount, lastPrice, todayTradingMoney, cash, etfQuote, etfPlaced);
      if sale.Some? && sale.value.QuoteFailed? {
        return EtfQuoteFailed(sale.value.etf), etfRequest, None;
      }
      maxShares := Min(maxShares, Trunc(currentCash / lastPrice));
      if maxShares <= 0 {
        return NoFunds(maxShares), etfRequest, None;
      }
      var placed, verdict := PlaceBuyOrder(rule, maxShares, lastPrice, currentCash, market, orderSucceeded);
      guard := Some(verdict);
      if placed == NotPlaced {
        return OrderRejected(maxShares), etfRequest, guard;
      }
      var newStatus := None;
      if rule.limitType == Weekly || rule.limitType == Monthly {
        newStatus := Some(Processed);
      } else if currentHolding + maxShares as real >= rule.targetAmount as real {
        newStatus := Some(Completed);
      }
      assert newStatus == BuyStatus(rule, currentHolding, maxShares);
      outcome := OrderFilled(maxShares, newStatus);
    }

    /** One rule's turn of the trading loop: `buy_stock` or `sell_stock` when
      * the price was read and the rule's trigger fires. */
    method TakeTurn(rule: Rule, inp: RuleInputs, market: string) returns (outcome: Option<TradeOutcome>)
      modifies this
      ensures (outcome, positionsByAccount) == RuleTurn(rule, old(positionsByAccount), inp)
    {
      outcome := None;
      if inp.price.Some? {
        var p := inp.price.value;
        var action := TriggerAction(rule, p);
        if action == BuyAction {
          var o, request, verdict := BuyStock(rule, p, inp.todayTradingMoney, market, inp.cash, inp.etfQuote,
                                              inp.etfPlaced, inp.cashAfterSale, inp.orderSucceeded);
          outcome := Some(o);
        } else if action == SellAction {
          var o, verdict := SellStock(rule, p, inp.todayTradingMoney, market, inp.orderSucceeded);
          outcome := Some(o);
        }
      }
    }

    /** One pass of the `process_trading_rules` loop over the active rules: a
      * rule whose price was read and whose trigger fires trades, and a trade
      * that raises ends the pass. */
    method RunTradingPass(rules: seq<Rule>, inputs: seq<RuleInputs>, market: string)
      returns (outcomes: seq<Option<TradeOutcome>>)
      requires |inputs| == |rules|
      modifies this
      ensures (outcomes, positionsByAccount) == TradingPass(rules, inputs, old(positionsByAccount))
    {
      outcomes := [];
      ghost var whole := TradingPass(rules, inputs, positionsByAccount);
      assert rules[0..] == rules && inputs[0..] == inputs;
      assert [] + whole.0 == whole.0;
      var i := 0;
      while i < |rules|
        invariant 0 <= i <= |rules|
        invariant whole == (outcomes + TradingPass(rules[i..], inputs[i..], positionsByAccount).0,
                            TradingPass(rules[i..], inputs[i..], positionsByAccount).1)
      {
        assert rules[i..][0] == rules[i] && rules[i..][1..] == rules[i + 1..];
        assert inputs[i..][0] == inputs[i] && inputs[i..][1..] == inputs[i + 1..];
        ghost var before := positionsByAccount;
        ghost var rest := TradingPass(rules[i..], inputs[i..], before);
        var outcome := TakeTurn(rules[i], inputs[i], market);
        if RaisesIn(outcome) {
          assert rest == ([outcome], positionsByAccount);
          outcomes := outcomes + [outcome];
          return;
        }
        ghost var next := TradingPass(rules[i + 1..], inputs[i + 1..], positionsByAccount);
        assert rest == ([outcome] + next.0, next.1);
        assert (outcomes + [outcome]) + next.0 == outcomes + ([outcome] + next.0);
        outcomes := outcomes + [outcome];
        i := i + 1;
      }
      assert rules[i..] == [] && inputs[i..] == [];
      assert outcomes + [] == outcomes;
    }
  }

  // ---------------------------------------------------------------------------
  // sync_split_adjustments

  /** One entry of `get_positions_result`. */
  datatype BrokerDetail = BrokerDetail(quantity: real, lastPrice: real, averagePrice: real)

  type PositionsResult = map<string, map<string, BrokerDetail>>

  function BrokerLookup(positions: PositionsResult, hashValue: string, symbol: string): Option<BrokerDetail>
  {
    if hashValue in positions && symbol in positions[hashValue] then Some(positions[hashValue][symbol]) else None
  }

  /** The arguments of one `update_split_adjustment` call. */
  datatype SplitUpdate = SplitUpdate(ruleId: int, newAvgPrice: real, newHighPrice: real,
                                     newTargetAmount: int, newCurrentQuantity: real)

  datatype SplitStep =
    | NoSplit                    // no broker data, or no split signature
    | SplitWithZeroAverage       // split signature but the broker average is 0: skipped
    | NullAveragePrice           // `float(None)`: the TypeError stops the check
    | Split(update: SplitUpdate)

  /** The verdict on one rule of the user. */
  function SplitStepOf(rule: Rule, positions: PositionsResult): SplitStep
  {
    var broker := BrokerLookup(positions, rule.hashValue, rule.symbol);
    if broker.None? then NoSplit
    else if rule.averagePrice.None? then NullAveragePrice
    else
      var dbAvg := rule.averagePrice.value;
      var b := broker.value;
      if !(dbAvg > 0.0 && Abs(b.quantity - rule.currentHolding) > 0.001) then NoSplit
      else if b.averagePrice == 0.0 then SplitWithZeroAverage
      else
        var ratio := b.averagePrice / dbAvg;
        Split(SplitUpdate(rule.id, b.averagePrice, rule.highPrice * ratio,
                          Trunc(rule.targetAmount as real / ratio), b.quantity))
  }

  /** The adjustment keeps the high price in the same proportion to the average
    * price, and rescales the target so that, for a positive ratio, it is the
    * largest whole count whose value at the new price does not exceed the old
    * target's value at the old one. */
  lemma SplitRescales(rule: Rule, positions: PositionsResult)
    requires SplitStepOf(rule, positions).Split?
    ensures var u := SplitStepOf(rule, positions).update;
            var dbAvg := rule.averagePrice.value;
            var ratio := u.newAvgPrice / dbAvg;
            dbAvg > 0.0 && u.newAvgPrice != 0.0
            && u.newHighPrice / u.newAvgPrice == rule.highPrice / dbAvg
            && (ratio > 0.0 && rule.targetAmount >= 0 ==>
                  u.newTargetAmount as real * ratio <= rule.targetAmount as real
                  < (u.newTargetAmount + 1) as real * ratio)
            && u.newCurrentQuantity == BrokerLookup(positions, rule.hashValue, rule.symbol).value.quantity
  {
    var u := SplitStepOf(rule, positions).update;
    var dbAvg := rule.averagePrice.value;
    var ratio := u.newAvgPrice / dbAvg;
    assert u.newHighPrice == rule.highPrice * ratio;
    assert u.newAvgPrice == dbAvg * ratio;
    CancelFactor(rule.highPrice, dbAvg, ratio);
    if ratio > 0.0 && rule.targetAmount >= 0 {
      TruncRescales(rule.targetAmount as real, ratio);
    }
  }

  /** `int(t / ratio)` is the largest whole count worth at most `t` at `ratio`. */
  lemma TruncRescales(t: real, ratio: real)
    requires t >= 0.0 && ratio > 0.0
    ensures Trunc(t / ratio) as real * ratio <= t < (Trunc(t / ratio) + 1) as real * ratio
  {
    var q := t / ratio;
    DivNonNegative(t, ratio);
    var lo := Trunc(q) as real;
    var hi := (Trunc(q) + 1) as real;
    assert lo <= q < hi;
    ScaleBetween(lo, q, hi, ratio, t);
  }

  lemma ScaleBetween(lo: real, q: real, hi: real, c: real, t: real)
    requires lo <= q < hi && c > 0.0 && q == t / c
    ensures lo * c <= t < hi * c
  {
    MulBothSides(lo, q, c);
    MulBothSidesStrict(q, hi, c);
    DivTimes(t, c);
  }

  lemma DivTimes(a: real, b: real)
    requires b != 0.0
    ensures (a / b) * b == a
  {
  }

  lemma CancelFactor(a: real, b: real, c: real)
    requires b != 0.0 && c != 0.0
    ensures (a * c) / (b * c) == a / b
  {
    assert (a / b) * (b * c) == a * c;
  }

  lemma DivNonNegative(a: real, b: real)
    requires a >= 0.0 && b > 0.0
    ensures a / b >= 0.0
  {
  }

  lemma MulBothSides(a: real, b: real, c: real)
    requires a <= b && c > 0.0
    ensures a * c <= b * c
  {
  }

  lemma MulBothSidesStrict(a: real, b: real, c: real)
    requires a < b && c > 0.0
    ensures a * c < b * c
  {
  }

  /** The split pass for one user: the updates written, and whether a NULL
    * average price stopped it. */
  function SplitUpdates(rules: seq<Rule>, userId: string, positions: PositionsResult): (seq<SplitUpdate>, bool)
  {
    if rules == [] then ([], false)
    else
      var step := SplitStepOf(rules[0], positions);
      if rules[0].userId != userId then SplitUpdates(rules[1..], userId, positions)
      else if step.NullAveragePrice? then ([], true)
      else
        var (rest, stopped) := SplitUpdates(rules[1..], userId, positions);
        (if step.Split? then [step.update] + rest else rest, stopped)
  }

  method SyncSplitAdjustments(rules: seq<Rule>, userId: string, positions: PositionsResult)
    returns (updates: seq<SplitUpdate>, stopped: bool)
    ensures (updates, stopped) == SplitUpdates(rules, userId, positions)
  {
    updates, stopped := [], false;
    var i := 0;
    assert rules[0..] == rules;
    while i < |rules|
      invariant 0 <= i <= |rules|
      invariant SplitUpdates(rules, userId, positions).0 == updates + SplitUpdates(rules[i..], userId, positions).0
      invariant SplitUpdates(rules, userId, positions).1 == SplitUpdates(rules[i..], userId, positions).1
      invariant !stopped
    {
      var rule := rules[i];
      assert rules[i..][0] == rule && rules[i..][1..] == rules[i + 1..];
      if rule.userId != userId {
        i := i + 1;
        continue;
      }
      var step := SplitStepOf(rule, positions);
      if step.NullAveragePrice? {
        assert SplitUpdates(rules[i..], userId, positions) == ([], true);
        assert updates + [] == updates;
        var whole := SplitUpdates(rules, userId, positions);
        assert whole == (whole.0, whole.1);
        stopped := true;
        return;
      }
      if step.Split? {
        assert SplitUpdates(rules[i..], userId, positions).0 == [step.update] + SplitUpdates(rules[i + 1..], userId, positions).0;
        updates := updates + [step.update];
      }
      i := i + 1;
    }
    assert rules[i..] == [];
    assert updates + [] == updates;
    var whole := SplitUpdates(rules, userId, positions);
    assert whole == (whole.0, whole.1);
  }

  /** Updates are only ever written for the user's own rules with a split signature. */
  lemma {:induction false} SplitUpdatesFromOwnRules(rules: seq<Rule>, userId: string, positions: PositionsResult)
    ensures forall u :: u in SplitUpdates(rules, userId, positions).0 ==>
              exists r :: r in rules && r.userId == userId && SplitStepOf(r, positions) == Split(u)
  {
    if rules != [] {
      SplitUpdatesFromOwnRules(rules[1..], userId, positions);
      assert forall r :: r in rules[1..] ==> r in rules;
    }
  }

  // ---------------------------------------------------------------------------
  // update_result, after the market closes

  /** The arguments of one `update_current_price_quantity` call. */
  datatype PriceUpdate = PriceUpdate(ruleId: int, lastPrice: real, currentHolding: real, averagePrice: real,
                                     highPrice: Option<real>)

  /** The key `update_result` looks positions up by: the stock name when the rule has one. */
  function PositionKey(rule: Rule): string
  {
    if rule.stockName.Some? then rule.stockName.value else rule.symbol
  }

  /** One rule at the close: skipped when the account has no positions; a rule
    * whose position is gone gets the quoted price (`fallbackPrice`, 0 when the
    * quote failed) with holding and average 0; otherwise the broker's values,
    * and the high price is raised to the close only when the average is positive. */
  function CloseUpdate(rule: Rule, positions: PositionsResult, fallbackPrice: real): Option<PriceUpdate>
  {
    var key := PositionKey(rule);
    if rule.hashValue !in positions then None
    else if key !in positions[rule.hashValue] then Some(PriceUpdate(rule.id, fallbackPrice, 0.0, 0.0, None))
    else
      var p := positions[rule.hashValue][key];
      Some(PriceUpdate(rule.id, p.lastPrice, p.quantity, p.averagePrice,
                       if p.averagePrice > 0.0 then Some(MaxR(p.lastPrice, rule.highPrice)) else None))
  }

  /** The high price is only ever raised, to at least the close, and only for a
    * position with a positive average price. */
  lemma HighPriceOnlyRises(rule: Rule, positions: PositionsResult, fallbackPrice: real)
    ensures var u := CloseUpdate(rule, positions, fallbackPrice);
            u.Some? && u.value.highPrice.Some? ==>
              u.value.highPrice.value >= rule.highPrice
              && u.value.highPrice.value >= u.value.lastPrice
              && u.value.averagePrice > 0.0
              && (u.value.highPrice.value == rule.highPrice || u.value.highPrice.value == u.value.lastPrice)
    ensures var u := CloseUpdate(rule, positions, fallbackPrice);
            u.Some? && u.value.highPrice.None? ==> u.value.averagePrice <= 0.0
  {
  }

  /** The ETFs whose value `update_result` adds to an account's cash. */
  const CashEtfs: seq<string> := ["BIL", "SGOV"]

  /** The value of one position at its last price, 0 when the account does not hold it. */
  function PositionValue(account: map<string, BrokerDetail>, symbol: string): real
  {
    if symbol in account then account[symbol].quantity * account[symbol].lastPrice else 0.0
  }

  /** The value of the positions named in `symbols`. */
  function ValueOf(account: map<string, BrokerDetail>, symbols: seq<string>): real
  {
    if symbols == [] then 0.0
    else ValueOf(account, symbols[..|symbols| - 1]) + PositionValue(account, symbols[|symbols| - 1])
  }

  /** The cash `update_result` writes for one account: the broker cash plus the
    * BIL and SGOV values. An account without positions data writes nothing
    * (`None`): reading it for `add_daily_result` raises the `KeyError` that
    * the account's `except` catches. */
  method TotalCashBalance(cash: real, positions: PositionsResult, hashValue: string) returns (total: Option<real>)
    ensures hashValue !in positions ==> total.None?
    ensures hashValue in positions ==>
              total == Some(cash + PositionValue(positions[hashValue], "BIL") + PositionValue(positions[hashValue], "SGOV"))
  {
    if hashValue !in positions {
      return None;
    }
    var account := positions[hashValue];
    var sum := cash;
    for i := 0 to |CashEtfs|
      invariant sum == cash + ValueOf(account, CashEtfs[..i])
    {
      assert CashEtfs[..i + 1][..i] == CashEtfs[..i];
      var etf := CashEtfs[i];
      if etf in account {
        sum := sum + account[etf].quantity * account[etf].lastPrice;
      }
    }
    assert CashEtfs[..|CashEtfs|] == CashEtfs;
    total := Some(sum);
  }

  /** Cash parked in the two ETFs is counted, nothing else is, and
    * non-negative ETF values never lower the cash. */
  lemma CashWithEtfsCountsOnlyEtfs(cash: real, a: map<string, BrokerDetail>, other: string, d: BrokerDetail)
    requires other != "BIL" && other != "SGOV"
    ensures ValueOf(a[other := d], CashEtfs) == ValueOf(a, CashEtfs)
    ensures ValueOf(a, CashEtfs) == PositionValue(a, "BIL") + PositionValue(a, "SGOV")
    ensures (forall s :: s in a ==> a[s].quantity >= 0.0 && a[s].lastPrice >= 0.0) ==> cash + ValueOf(a, CashEtfs) >= cash
  {
    assert CashEtfs[..1] == ["BIL"] && CashEtfs[..1][..0] == [];
    assert ValueOf(a, CashEtfs) == ValueOf(a, ["BIL"]) + PositionValue(a, "SGOV");
    assert ValueOf(a[other := d], CashEtfs) == ValueOf(a[other := d], ["BIL"]) + PositionValue(a[other := d], "SGOV");
    if forall s :: s in a ==> a[s].quantity >= 0.0 && a[s].lastPrice >= 0.0 {
      if "BIL" in a { assert a["BIL"].quantity * a["BIL"].lastPrice >= 0.0; }
      if "SGOV" in a { assert a["SGOV"].quantity * a["SGOV"].lastPrice >= 0.0; }
    }
  }
}
