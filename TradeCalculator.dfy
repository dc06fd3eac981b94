/** The pure share-count calculator of `library/trade_calculator.py`: how many
  * shares a rule may buy or sell given its target holding, the day's money
  * limit, what was already traded today, the price and the cash on hand. */
module TradeCalculator {
  import opened Common

  /** The `limit_reason` labels; `BuyReasonText`/`SellReasonText` give the exact strings. */
  datatype BuyReason = InvalidPrice | TargetReached | DailyLimitReached | InsufficientCash | NeedCash | BuyOk
  datatype SellReason = SellInvalidPrice | NoSurplus | SellDailyLimitReached | SellOk

  datatype BuyDecision = BuyDecision(quantity: int, requiredCash: real, limitReason: BuyReason, shortfall: real)
  datatype SellDecision = SellDecision(quantity: int, estimatedRevenue: real, limitReason: SellReason)

  function BuyReasonText(r: BuyReason): string
  {
    match r
    case InvalidPrice => "Invalid Price"
    case TargetReached => "Target Reached"
    case DailyLimitReached => "Daily Limit Reached"
    case InsufficientCash => "Insufficient Cash"
    case NeedCash => "Need Cash"
    case BuyOk => "OK"
  }

  function SellReasonText(r: SellReason): string
  {
    match r
    case SellInvalidPrice => "Invalid Price"
    case NoSurplus => "Target Reached (No Surplus)"
    case SellDailyLimitReached => "Daily Limit Reached"
    case SellOk => "OK"
  }

  /** Shares still missing to reach the target (a negative holding is covered in full). */
  function QuantityGap(targetAmount: int, currentHolding: int): int
  {
    if currentHolding < 0 then targetAmount - currentHolding else Max(0, targetAmount - currentHolding)
  }

  /** Money that may still be moved today, never negative. */
  function BudgetRemaining(dailyMoneyLimit: real, todayTradedMoney: real): real
  {
    MaxR(0.0, dailyMoneyLimit - todayTradedMoney)
  }

  /** `int(budget_remaining // current_price)`. */
  function QuantityByBudget(budget: real, price: real): int
    requires price > 0.0
  {
    Floor(budget / price)
  }

  /** `policy_qty`: the stricter of the target gap and the budget quantity. */
  function PolicyQuantity(targetAmount: int, currentHolding: int, dailyMoneyLimit: real,
                          todayTradedMoney: real, currentPrice: real): int
    requires currentPrice > 0.0
  {
    Min(QuantityGap(targetAmount, currentHolding),
        QuantityByBudget(BudgetRemaining(dailyMoneyLimit, todayTradedMoney), currentPrice))
  }

  function CalculateBuyQuantity(targetAmount: int, currentHolding: int, dailyMoneyLimit: real,
                                todayTradedMoney: real, currentPrice: real, availableCash: real,
                                cashOnly: bool): (d: BuyDecision)
    ensures d.shortfall >= 0.0
    ensures d.quantity != 0 ==> currentPrice > 0.0 && d.requiredCash == d.quantity as real * currentPrice
  {
    if currentPrice <= 0.0 then BuyDecision(0, 0.0, InvalidPrice, 0.0)
    else
      var qtyGap := QuantityGap(targetAmount, currentHolding);
      var policyQty := PolicyQuantity(targetAmount, currentHolding, dailyMoneyLimit, todayTradedMoney, currentPrice);
      if policyQty <= 0 then
        BuyDecision(0, 0.0, if qtyGap <= 0 then TargetReached else DailyLimitReached, 0.0)
      else
        var policyCost := policyQty as real * currentPrice;
        if cashOnly then
          var finalQty := Min(policyQty, Floor(availableCash / currentPrice));
          BuyDecision(finalQty, finalQty as real * currentPrice,
                      if finalQty < policyQty then InsufficientCash else BuyOk, 0.0)
        else if policyCost > availableCash then
          BuyDecision(policyQty, policyCost, NeedCash, policyCost - availableCash)
        else
          BuyDecision(policyQty, policyCost, BuyOk, 0.0)
  }

  function CalculateSellQuantity(targetAmount: int, currentHolding: int, dailyMoneyLimit: real,
                                 todayTradedMoney: real, currentPrice: real): (d: SellDecision)
    ensures d.quantity >= 0
    ensures d.quantity > 0 ==> currentPrice > 0.0 && d.estimatedRevenue == d.quantity as real * currentPrice
    ensures d.quantity == 0 ==> d.estimatedRevenue == 0.0
  {
    if currentPrice <= 0.0 then SellDecision(0, 0.0, SellInvalidPrice)
    else
      var sellable := Max(0, currentHolding - targetAmount);
      var budget := BudgetRemaining(dailyMoneyLimit, todayTradedMoney);
      var finalQty := Min(sellable, QuantityByBudget(budget, currentPrice));
      if finalQty <= 0 then
        SellDecision(0, 0.0, if sellable <= 0 then NoSurplus else SellDailyLimitReached)
      else
        SellDecision(finalQty, finalQty as real * currentPrice, SellOk)
  }

  /** A buy never spends more than what is left of the day's money limit, and
    * never overshoots the target holding. */
  lemma BuyWithinPolicy(targetAmount: int, currentHolding: int, dailyMoneyLimit: real,
                        todayTradedMoney: real, currentPrice: real, availableCash: real, cashOnly: bool)
    ensures var d := CalculateBuyQuantity(targetAmount, currentHolding, dailyMoneyLimit, todayTradedMoney,
                                          currentPrice, availableCash, cashOnly);
            d.requiredCash <= BudgetRemaining(dailyMoneyLimit, todayTradedMoney)
            && (d.quantity > 0 ==> currentHolding + d.quantity <= targetAmount)
            && currentHolding + d.quantity <= Max(currentHolding, targetAmount)
  {
    var d := CalculateBuyQuantity(targetAmount, currentHolding, dailyMoneyLimit, todayTradedMoney,
                                  currentPrice, availableCash, cashOnly);
    if currentPrice > 0.0 {
      var budget := BudgetRemaining(dailyMoneyLimit, todayTradedMoney);
      var byBudget := QuantityByBudget(budget, currentPrice);
      var policyQty := Min(QuantityGap(targetAmount, currentHolding), byBudget);
      if policyQty > 0 && d.quantity != 0 {
        if d.quantity > 0 {
          FloorQuotientCost(d.quantity, budget, currentPrice);
        } else {
          assert d.quantity as real * currentPrice <= 0.0;
        }
      }
    }
  }

  /** With cash-only buying and non-negative cash, the buy is affordable and never negative. */
  lemma CashOnlyBuyAffordable(targetAmount: int, currentHolding: int, dailyMoneyLimit: real,
                              todayTradedMoney: real, currentPrice: real, availableCash: real)
    requires availableCash >= 0.0
    ensures var d := CalculateBuyQuantity(targetAmount, currentHolding, dailyMoneyLimit, todayTradedMoney,
                                          currentPrice, availableCash, true);
            0 <= d.quantity && d.requiredCash <= availableCash && d.shortfall == 0.0
  {
    var d := CalculateBuyQuantity(targetAmount, currentHolding, dailyMoneyLimit, todayTradedMoney,
                                  currentPrice, availableCash, true);
    if currentPrice > 0.0 {
      var policyQty := PolicyQuantity(targetAmount, currentHolding, dailyMoneyLimit, todayTradedMoney, currentPrice);
      if policyQty > 0 {
        var affordable := Floor(availableCash / currentPrice);
        assert availableCash / currentPrice >= 0.0;
        assert affordable >= 0;
        var q := Min(policyQty, affordable);
        assert d.quantity == q && d.requiredCash == q as real * currentPrice && d.shortfall == 0.0;
        FloorQuotientCost(q, availableCash, currentPrice);
        assert d.requiredCash <= availableCash;
      }
    }
  }

  /** As written, cash-only buying with a negative cash balance (and a policy
    * quantity above zero) yields a negative quantity labelled "Insufficient Cash". */
  lemma CashOnlyNegativeCash(targetAmount: int, currentHolding: int, dailyMoneyLimit: real,
                             todayTradedMoney: real, currentPrice: real, availableCash: real)
    requires currentPrice > 0.0 && availableCash < 0.0
    requires Min(QuantityGap(targetAmount, currentHolding),
                 QuantityByBudget(BudgetRemaining(dailyMoneyLimit, todayTradedMoney), currentPrice)) > 0
    ensures var d := CalculateBuyQuantity(targetAmount, currentHolding, dailyMoneyLimit, todayTradedMoney,
                                          currentPrice, availableCash, true);
            d.quantity < 0 && d.limitReason == InsufficientCash
  {
    assert availableCash / currentPrice < 0.0;
  }

  /** The flexible mode buys the whole policy quantity whatever the cash, and
    * reports exactly the cash it lacks; "Need Cash" is reported exactly when
    * the policy quantity costs more than the cash. */
  lemma FlexibleBuyShortfall(targetAmount: int, currentHolding: int, dailyMoneyLimit: real,
                             todayTradedMoney: real, currentPrice: real, availableCash: real)
    ensures var d := CalculateBuyQuantity(targetAmount, currentHolding, dailyMoneyLimit, todayTradedMoney,
                                          currentPrice, availableCash, false);
            d.quantity >= 0
            && (currentPrice > 0.0 ==>
                  d.quantity == Max(0, PolicyQuantity(targetAmount, currentHolding, dailyMoneyLimit,
                                                      todayTradedMoney, currentPrice))
                  && (d.limitReason == NeedCash <==> d.quantity > 0 && d.quantity as real * currentPrice > availableCash))
            && (d.limitReason == NeedCash <==> d.shortfall > 0.0)
            && (d.limitReason == NeedCash ==> d.requiredCash == availableCash + d.shortfall)
            && (d.limitReason == BuyOk ==> d.quantity > 0 && d.requiredCash <= availableCash)
  {
  }

  /** Why the buy stopped before looking at cash: each label holds exactly in its situation. */
  lemma BuyStopReasons(targetAmount: int, currentHolding: int, dailyMoneyLimit: real,
                       todayTradedMoney: real, currentPrice: real, availableCash: real, cashOnly: bool)
    ensures var d := CalculateBuyQuantity(targetAmount, currentHolding, dailyMoneyLimit, todayTradedMoney,
                                          currentPrice, availableCash, cashOnly);
            var gap := QuantityGap(targetAmount, currentHolding);
            (d.limitReason == InvalidPrice <==> currentPrice <= 0.0)
            && (d.limitReason == TargetReached <==> currentPrice > 0.0 && gap <= 0)
            && (d.limitReason == DailyLimitReached <==>
                  currentPrice > 0.0 && gap > 0
                  && QuantityByBudget(BudgetRemaining(dailyMoneyLimit, todayTradedMoney), currentPrice) <= 0)
            && (d.limitReason in {InvalidPrice, TargetReached, DailyLimitReached} ==> d == BuyDecision(0, 0.0, d.limitReason, 0.0))
  {
  }

  /** "Insufficient Cash" is reported exactly in cash-only mode when the cash
    * cannot pay for the whole policy quantity, and then the cash could not have
    * paid for one more share than was bought. */
  lemma InsufficientCashReason(targetAmount: int, currentHolding: int, dailyMoneyLimit: real,
                               todayTradedMoney: real, currentPrice: real, availableCash: real, cashOnly: bool)
    ensures var d := CalculateBuyQuantity(targetAmount, currentHolding, dailyMoneyLimit, todayTradedMoney,
                                          currentPrice, availableCash, cashOnly);
            (d.limitReason == InsufficientCash <==>
               cashOnly && currentPrice > 0.0
               && PolicyQuantity(targetAmount, currentHolding, dailyMoneyLimit, todayTradedMoney, currentPrice) > 0
               && availableCash < PolicyQuantity(targetAmount, currentHolding, dailyMoneyLimit, todayTradedMoney,
                                                  currentPrice) as real * currentPrice)
            && (d.limitReason == InsufficientCash ==> availableCash < d.requiredCash + currentPrice)
  {
    var d := CalculateBuyQuantity(targetAmount, currentHolding, dailyMoneyLimit, todayTradedMoney,
                                  currentPrice, availableCash, cashOnly);
    if cashOnly && currentPrice > 0.0 {
      var p := PolicyQuantity(targetAmount, currentHolding, dailyMoneyLimit, todayTradedMoney, currentPrice);
      if p > 0 {
        FloorBelowIff(availableCash, currentPrice, p);
        if d.limitReason == InsufficientCash {
          FloorOneMore(availableCash, currentPrice);
        }
      }
    }
  }

  /** `cash // price < n` exactly when `n` shares cost more than the cash. */
  lemma FloorBelowIff(cash: real, price: real, n: int)
    requires price > 0.0
    ensures Floor(cash / price) < n <==> cash < n as real * price
  {
    var q := cash / price;
    var f := Floor(q);
    assert q * price == cash;
    if f < n {
      assert q < (f + 1) as real <= n as real;
      MulStrict(q, n as real, price);
    } else {
      assert n as real <= f as real <= q;
      MulLe(n as real, q, price);
    }
  }

  lemma MulLe(a: real, b: real, c: real)
    requires a <= b && c > 0.0
    ensures a * c <= b * c
  {
  }

  /** The value of the buy quantity: nothing at an invalid price or when the
    * policy says stop; otherwise the policy quantity, cut in cash-only mode to
    * what `cash // price` affords. */
  lemma BuyQuantityValue(targetAmount: int, currentHolding: int, dailyMoneyLimit: real,
                         todayTradedMoney: real, currentPrice: real, availableCash: real, cashOnly: bool)
    ensures var d := CalculateBuyQuantity(targetAmount, currentHolding, dailyMoneyLimit, todayTradedMoney,
                                          currentPrice, availableCash, cashOnly);
            (currentPrice <= 0.0 ==> d.quantity == 0)
            && (currentPrice > 0.0 ==>
                  var p := PolicyQuantity(targetAmount, currentHolding, dailyMoneyLimit, todayTradedMoney, currentPrice);
                  (p <= 0 ==> d.quantity == 0)
                  && (p > 0 && cashOnly ==> d.quantity == Min(p, Floor(availableCash / currentPrice)))
                  && (p > 0 && !cashOnly ==> d.quantity == p)
                  && (cashOnly && d.limitReason == BuyOk ==> d.quantity == p))
  {
  }

  /** The buy quantity is the largest one within the limits: one share more
    * would overshoot the target gap, exceed the day's remaining money, or, in
    * cash-only mode, cost more than the cash. */
  lemma BuyQuantityIsMaximal(targetAmount: int, currentHolding: int, dailyMoneyLimit: real,
                             todayTradedMoney: real, currentPrice: real, availableCash: real, cashOnly: bool)
    requires currentPrice > 0.0
    ensures var d := CalculateBuyQuantity(targetAmount, currentHolding, dailyMoneyLimit, todayTradedMoney,
                                          currentPrice, availableCash, cashOnly);
            var more := (d.quantity + 1) as real * currentPrice;
            d.quantity + 1 > QuantityGap(targetAmount, currentHolding)
            || more > BudgetRemaining(dailyMoneyLimit, todayTradedMoney)
            || (cashOnly && more > availableCash)
  {
    var d := CalculateBuyQuantity(targetAmount, currentHolding, dailyMoneyLimit, todayTradedMoney,
                                  currentPrice, availableCash, cashOnly);
    var gap := QuantityGap(targetAmount, currentHolding);
    var budget := BudgetRemaining(dailyMoneyLimit, todayTradedMoney);
    var byBudget := QuantityByBudget(budget, currentPrice);
    var q := d.quantity;
    if q + 1 <= gap {
      FloorBelowIff(budget, currentPrice, q + 1);
      if cashOnly && byBudget >= q + 1 {
        FloorBelowIff(availableCash, currentPrice, q + 1);
      }
    }
  }

  /** One share more than `cash // price` costs more than the cash. */
  lemma FloorOneMore(cash: real, price: real)
    requires price > 0.0
    ensures cash < Floor(cash / price) as real * price + price
  {
    var q := cash / price;
    var f := Floor(q) as real;
    calc {
      cash;
    ==
      q * price;
    <  { MulStrict(q, f + 1.0, price); }
      (f + 1.0) * price;
    ==
      f * price + price;
    }
  }

  lemma MulStrict(a: real, b: real, c: real)
    requires a < b && c > 0.0
    ensures a * c < b * c
  {
  }


  /** A sell never leaves less than the target holding and never moves more
    * than what is left of the day's money limit. */
  lemma SellWithinPolicy(targetAmount: int, currentHolding: int, dailyMoneyLimit: real,
                         todayTradedMoney: real, currentPrice: real)
    ensures var d := CalculateSellQuantity(targetAmount, currentHolding, dailyMoneyLimit,
                                           todayTradedMoney, currentPrice);
            (d.quantity > 0 ==> currentHolding - d.quantity >= targetAmount)
            && d.estimatedRevenue <= BudgetRemaining(dailyMoneyLimit, todayTradedMoney)
  {
    var d := CalculateSellQuantity(targetAmount, currentHolding, dailyMoneyLimit, todayTradedMoney, currentPrice);
    if d.quantity > 0 {
      FloorQuotientCost(d.quantity, BudgetRemaining(dailyMoneyLimit, todayTradedMoney), currentPrice);
    }
  }

  /** The value of the sell quantity: the surplus over the target, cut to
    * what the day's remaining money allows, and nothing when either is used up. */
  lemma SellQuantityValue(targetAmount: int, currentHolding: int, dailyMoneyLimit: real,
                          todayTradedMoney: real, currentPrice: real)
    ensures var d := CalculateSellQuantity(targetAmount, currentHolding, dailyMoneyLimit,
                                           todayTradedMoney, currentPrice);
            (currentPrice <= 0.0 ==> d.quantity == 0)
            && (currentPrice > 0.0 ==>
                  d.quantity == Max(0, Min(Max(0, currentHolding - targetAmount),
                                           QuantityByBudget(BudgetRemaining(dailyMoneyLimit, todayTradedMoney),
                                                            currentPrice))))
  {
  }

  /** The sell quantity is the largest one within the limits: one share more
    * would take the holding below the target or exceed the day's remaining money. */
  lemma SellQuantityIsMaximal(targetAmount: int, currentHolding: int, dailyMoneyLimit: real,
                              todayTradedMoney: real, currentPrice: real)
    requires currentPrice > 0.0
    ensures var d := CalculateSellQuantity(targetAmount, currentHolding, dailyMoneyLimit,
                                           todayTradedMoney, currentPrice);
            currentHolding - (d.quantity + 1) < targetAmount
            || (d.quantity + 1) as real * currentPrice > BudgetRemaining(dailyMoneyLimit, todayTradedMoney)
  {
    var d := CalculateSellQuantity(targetAmount, currentHolding, dailyMoneyLimit, todayTradedMoney, currentPrice);
    FloorBelowIff(BudgetRemaining(dailyMoneyLimit, todayTradedMoney), currentPrice, d.quantity + 1);
  }

  /** Why the sell came out as it did. */
  lemma SellReasons(targetAmount: int, currentHolding: int, dailyMoneyLimit: real,
                    todayTradedMoney: real, currentPrice: real)
    ensures var d := CalculateSellQuantity(targetAmount, currentHolding, dailyMoneyLimit,
                                           todayTradedMoney, currentPrice);
            (d.limitReason == SellInvalidPrice <==> currentPrice <= 0.0)
            && (d.limitReason == NoSurplus <==> currentPrice > 0.0 && currentHolding <= targetAmount)
            && (d.limitReason == SellOk <==> d.quantity > 0)
            && (d.limitReason == SellDailyLimitReached <==>
                  currentPrice > 0.0 && currentHolding > targetAmount
                  && QuantityByBudget(BudgetRemaining(dailyMoneyLimit, todayTradedMoney), currentPrice) <= 0)
  {
  }

  /** The calculator's test scenarios, with the tests' own inputs. */
  lemma CalculatorScenarios()
    ensures CalculateBuyQuantity(10, 0, 1000.0, 0.0, 100.0, 2000.0, true) == BuyDecision(10, 1000.0, BuyOk, 0.0)
    ensures var d := CalculateBuyQuantity(10, 0, 500.0, 150.0, 100.0, 2000.0, true);
            d.quantity == 3 && d.limitReason == BuyOk
    ensures var d := CalculateBuyQuantity(10, 0, 500.0, 500.0, 100.0, 2000.0, true);
            d.quantity == 0 && d.limitReason == DailyLimitReached
    ensures var d := CalculateBuyQuantity(10, 0, 2000.0, 0.0, 100.0, 250.0, true);
            d.quantity == 2 && d.limitReason == InsufficientCash
    ensures CalculateBuyQuantity(10, 0, 2000.0, 0.0, 100.0, 250.0, false) == BuyDecision(10, 1000.0, NeedCash, 750.0)
    ensures var d := CalculateBuyQuantity(10, 10, 1000.0, 0.0, 100.0, 2000.0, true);
            d.quantity == 0 && d.limitReason == TargetReached
    ensures var d := CalculateBuyQuantity(10, 0, 1000.0, 0.0, 0.0, 1000.0, true);
            d.quantity == 0 && d.limitReason == InvalidPrice
    ensures var d := CalculateBuyQuantity(10, 0, 1000.0, 0.0, -50.0, 1000.0, true);
            d.quantity == 0 && d.limitReason == InvalidPrice
    ensures CalculateBuyQuantity(100, 0, 100.0, 0.0, 33.33, 1000.0, true).quantity == 3
    ensures CalculateBuyQuantity(10, 0, 100.0, 0.0, 100.0, 1000.0, true).quantity == 1
    ensures var d := CalculateBuyQuantity(10, 0, 100.0, 99.99, 0.02, 1000.0, true);
            d.quantity == 0 && d.limitReason == DailyLimitReached
    ensures CalculateBuyQuantity(1000000000, 0, 10000000000.0, 0.0, 10.0, 100000000000.0, true).quantity == 1000000000
    ensures CalculateSellQuantity(5, 10, 1000.0, 0.0, 100.0) == SellDecision(5, 500.0, SellOk)
    ensures var d := CalculateSellQuantity(0, 10, 200.0, 0.0, 100.0);
            d.quantity == 2 && d.limitReason == SellOk
    ensures var d := CalculateSellQuantity(10, 10, 1000.0, 0.0, 100.0);
            d.quantity == 0 && d.limitReason == NoSurplus
    ensures var d := CalculateSellQuantity(15, 10, 1000.0, 0.0, 100.0);
            d.quantity == 0 && d.limitReason == NoSurplus
    ensures var d := CalculateSellQuantity(0, 10, 1000.0, 0.0, 0.0);
            d.quantity == 0 && d.limitReason == SellInvalidPrice
  {
    assert Floor(350.0 / 100.0) == 3;
    assert Floor(250.0 / 100.0) == 2;
    assert Floor(100.0 / 33.33) == 3;
    assert Floor((100.0 - 99.99) / 0.02) == 0;
    assert Floor(200.0 / 100.0) == 2;
  }
}
