/** The pre-trade safety checks (`OrderValidator`) and the start-up state
  * integrity check (`StateIntegrityGuard`) of `library/safety_guard.py`. */
module SafetyGuard {
  import opened Common

  const MaxOrderAmountKrw: real := 100000000.0
  const MaxOrderAmountUsd: real := 100000.0
  const MinPriceKrw: real := 50.0
  const MinPriceUsd: real := 0.5

  /** Why a `SafetyException` was raised by an order validator. */
  datatype Rejection = InvalidQuantity | InvalidPrice | ExceedsHardLimit | BelowMinimumPrice | ExceedsCash | ExceedsHolding

  /** `True` returned, or the exception raised. */
  datatype Verdict = Accepted | Rejected(reason: Rejection)

  /** The hard order-amount ceiling and the minimum price of a market: the US
    * limits for "US", the Korean limits for every other market string. */
  function GetLimits(market: string): (limits: (real, real))
    ensures market == "US" ==> limits == (MaxOrderAmountUsd, MinPriceUsd)
    ensures market != "US" ==> limits == (MaxOrderAmountKrw, MinPriceKrw)
    ensures limits.1 > 0.0 && limits.0 > limits.1
  {
    if market == "US" then (MaxOrderAmountUsd, MinPriceUsd) else (MaxOrderAmountKrw, MinPriceKrw)
  }

  /** The checks shared by both sides, in the order the validators run them. */
  function CommonChecks(market: string, price: real, quantity: int): Verdict
  {
    var (maxLimit, minPrice) := GetLimits(market);
    if quantity <= 0 then Rejected(InvalidQuantity)
    else if price <= 0.0 then Rejected(InvalidPrice)
    else if price * quantity as real > maxLimit then Rejected(ExceedsHardLimit)
    else if price < minPrice then Rejected(BelowMinimumPrice)
    else Accepted
  }

  /** An order passes every check: positive size, a price at or above the
    * market minimum and a total at or below the hard limit. */
  predicate WithinLimits(market: string, price: real, quantity: int)
  {
    quantity > 0 && price >= GetLimits(market).1 && price * quantity as real <= GetLimits(market).0
  }

  function ValidateBuy(market: string, price: real, quantity: int, currentCash: real): (v: Verdict)
    ensures v == Accepted <==>
              WithinLimits(market, price, quantity) && (currentCash > 0.0 ==> price * quantity as real <= currentCash)
    ensures v == Rejected(ExceedsCash) ==> currentCash > 0.0 && WithinLimits(market, price, quantity)
  {
    var c := CommonChecks(market, price, quantity);
    if c != Accepted then c
    else if currentCash > 0.0 && price * quantity as real > currentCash then Rejected(ExceedsCash)
    else Accepted
  }

  function ValidateSell(market: string, price: real, quantity: int, currentHolding: Option<real>): (v: Verdict)
    ensures v == Accepted <==>
              WithinLimits(market, price, quantity) && (currentHolding.Some? ==> quantity as real <= currentHolding.value)
    ensures v == Rejected(ExceedsHolding) ==> currentHolding.Some? && WithinLimits(market, price, quantity)
  {
    var c := CommonChecks(market, price, quantity);
    if c != Accepted then c
    else if currentHolding.Some? && quantity as real > currentHolding.value then Rejected(ExceedsHolding)
    else Accepted
  }

  /** The first failing check decides the rejection: a bad quantity is reported
    * before a bad price, and a bad price before any amount check. */
  lemma RejectionOrder(market: string, price: real, quantity: int, currentCash: real, currentHolding: Option<real>)
    ensures quantity <= 0 ==>
              ValidateBuy(market, price, quantity, currentCash) == Rejected(InvalidQuantity)
              && ValidateSell(market, price, quantity, currentHolding) == Rejected(InvalidQuantity)
    ensures quantity > 0 && price <= 0.0 ==>
              ValidateBuy(market, price, quantity, currentCash) == Rejected(InvalidPrice)
              && ValidateSell(market, price, quantity, currentHolding) == Rejected(InvalidPrice)
    ensures quantity > 0 && price > 0.0 && price * quantity as real > GetLimits(market).0 ==>
              ValidateBuy(market, price, quantity, currentCash) == Rejected(ExceedsHardLimit)
              && ValidateSell(market, price, quantity, currentHolding) == Rejected(ExceedsHardLimit)
  {
  }

  /** The validators' test scenarios, with the tests' own inputs. */
  lemma ValidatorScenarios()
    ensures ValidateBuy("US", 150.0, 10, 10000.0) == Accepted
    ensures ValidateSell("US", 150.0, 10, Some(100.0)) == Accepted
    ensures ValidateBuy("US", 100.0, 10, 1000.0) == Accepted
    ensures ValidateSell("US", 100.0, 50, Some(50.0)) == Accepted
    ensures ValidateBuy("US", 200.0, 1000, 500000.0) == Rejected(ExceedsHardLimit)
    ensures ValidateSell("US", 200.0, 1000, Some(1000.0)) == Rejected(ExceedsHardLimit)
    ensures ValidateBuy("US", 100.0, 101, 10000.0) == Rejected(ExceedsCash)
    ensures ValidateSell("US", 100.0, 11, Some(10.0)) == Rejected(ExceedsHolding)
    ensures ValidateBuy("US", 0.49, 100, 1000.0) == Rejected(BelowMinimumPrice)
    ensures ValidateBuy("KR", 49.0, 100, 10000.0) == Rejected(BelowMinimumPrice)
    ensures ValidateSell("US", 1000.0, 10, Some(10.0)) == Accepted
    ensures ValidateSell("US", 100.0, 100, Some(100.0)) == Accepted
    ensures ValidateBuy("US", 100.0000001, 100, 10000.0) == Rejected(ExceedsCash)
  {
  }

  // ---------------------------------------------------------------------------
  // StateIntegrityGuard.check_integrity

  /** The fields of an active trading rule the guard reads. */
  datatype TradingRule = TradingRule(userId: string, symbol: string, stockName: string, hashValue: string,
                                     currentHolding: real, averagePrice: real)

  /** One broker position as reported per account hash and symbol. */
  datatype BrokerPosition = BrokerPosition(quantity: real, lastPrice: real)

  type BrokerPositions = map<string, map<string, BrokerPosition>>

  datatype IssueKind = PhantomPosition | InvalidBrokerPrice | ManualTrade | ZeroDbAveragePrice

  /** One line of the "STATE INTEGRITY ERROR" message. */
  datatype Issue = Issue(kind: IssueKind, symbol: string, stockName: string, dbQuantity: real, brokerQuantity: real)

  /** Broker quantity and price for a rule; a missing account or symbol reads as 0 and 0. */
  function BrokerView(positions: BrokerPositions, hashValue: string, symbol: string): (view: (real, real))
    ensures hashValue !in positions || symbol !in positions[hashValue] ==> view == (0.0, 0.0)
  {
    if hashValue in positions && symbol in positions[hashValue] then
      (positions[hashValue][symbol].quantity, positions[hashValue][symbol].lastPrice)
    else (0.0, 0.0)
  }

  /** A price ratio outside 0.7 .. 1.3 is taken as the signature of a split. */
  predicate LikelySplit(ratio: real)
  {
    ratio < 0.7 || ratio > 1.3
  }

  /** The verdict on one rule: no issue, or the issue it raises. */
  function RuleIssue(rule: TradingRule, positions: BrokerPositions): Option<Issue>
  {
    var dbQty := rule.currentHolding;
    var dbAvg := rule.averagePrice;
    var (brokerQty, brokerPrice) := BrokerView(positions, rule.hashValue, rule.symbol);
    var issue := (k: IssueKind) => Some(Issue(k, rule.symbol, rule.stockName, dbQty, brokerQty));
    if Abs(brokerQty - dbQty) < 0.001 then None
    else if dbQty > 0.001 && brokerQty == 0.0 then issue(PhantomPosition)
    else if dbQty == 0.0 && brokerQty > 0.0 then None
    else if dbAvg > 0.0 then
      if brokerPrice == 0.0 then issue(InvalidBrokerPrice)
      else if !LikelySplit(brokerPrice / dbAvg) then issue(ManualTrade)
      else None
    else issue(ZeroDbAveragePrice)
  }

  /** `[r for r in rules if r['user_id'] == user_id]`. */
  function UserRules(rules: seq<TradingRule>, userId: string): (rs: seq<TradingRule>)
    ensures forall r :: r in rs <==> r in rules && r.userId == userId
  {
    if rules == [] then []
    else UserRules(rules[..|rules| - 1], userId)
         + (if rules[|rules| - 1].userId == userId then [rules[|rules| - 1]] else [])
  }

  /** The issues of a rule list in order. */
  function IssuesOf(rules: seq<TradingRule>, positions: BrokerPositions): seq<Issue>
  {
    if rules == [] then []
    else
      var last := RuleIssue(rules[|rules| - 1], positions);
      IssuesOf(rules[..|rules| - 1], positions) + (if last.Some? then [last.value] else [])
  }

  /** Runs the guard over the user's active rules; `halt` is the raised
    * `SafetyException` that stops the trader. */
  method CheckIntegrity(rules: seq<TradingRule>, userId: string, positions: BrokerPositions)
    returns (issues: seq<Issue>, halt: bool)
    ensures issues == IssuesOf(UserRules(rules, userId), positions)
    ensures halt <==> |issues| > 0
  {
    var userRules := UserRules(rules, userId);
    issues := [];
    var i := 0;
    while i < |userRules|
      invariant 0 <= i <= |userRules|
      invariant issues == IssuesOf(userRules[..i], positions)
    {
      var found := RuleIssue(userRules[i], positions);
      assert userRules[..i + 1][..i] == userRules[..i];
      if found.Some? {
        issues := issues + [found.value];
      }
      i := i + 1;
    }
    assert userRules[..i] == userRules;
    halt := |issues| > 0;
  }

  /** A rule whose broker quantity matches the DB quantity within 0.001 raises
    * nothing; every issue comes from a genuine quantity mismatch. */
  lemma MatchedRuleRaisesNothing(rule: TradingRule, positions: BrokerPositions)
    ensures var (bq, _) := BrokerView(positions, rule.hashValue, rule.symbol);
            RuleIssue(rule, positions).Some? ==> Abs(bq - rule.currentHolding) >= 0.001
  {
  }

  /** How each kind of issue arises: given a quantity mismatch that is
    * neither a phantom nor a new position, a zero DB average price, an
    * invalid broker price and a manual trade (broker price within 0.7 to 1.3
    * times the DB average) each raise their issue exactly in their situation,
    * and nothing is raised exactly when the quantities match, the position is
    * new, or the price ratio has a split signature. */
  lemma IssueCauses(rule: TradingRule, positions: BrokerPositions)
    ensures var (bq, bp) := BrokerView(positions, rule.hashValue, rule.symbol);
            var dq, da := rule.currentHolding, rule.averagePrice;
            var found := RuleIssue(rule, positions);
            var mismatch := Abs(bq - dq) >= 0.001;
            var phantom := mismatch && dq > 0.001 && bq == 0.0;
            var newPosition := dq == 0.0 && bq > 0.0;
            var other := mismatch && !phantom && !newPosition;
            (found.Some? && found.value.kind == PhantomPosition <==> phantom)
            && (found.Some? && found.value.kind == ZeroDbAveragePrice <==> other && da <= 0.0)
            && (found.Some? && found.value.kind == InvalidBrokerPrice <==> other && da > 0.0 && bp == 0.0)
            && (found.Some? && found.value.kind == ManualTrade <==>
                  other && da > 0.0 && bp != 0.0 && 0.7 * da <= bp <= 1.3 * da)
            && (found.None? <==>
                  !mismatch || newPosition || (other && da > 0.0 && bp != 0.0 && (bp < 0.7 * da || bp > 1.3 * da)))
            && (found.Some? ==> found.value == Issue(found.value.kind, rule.symbol, rule.stockName, dq, bq))
  {
    var (bq, bp) := BrokerView(positions, rule.hashValue, rule.symbol);
    var da := rule.averagePrice;
    if da > 0.0 {
      RatioIff(bp, da);
    }
  }

  /** The split signature in terms of the prices themselves. */
  lemma RatioIff(price: real, avg: real)
    requires avg > 0.0
    ensures !LikelySplit(price / avg) <==> 0.7 * avg <= price <= 1.3 * avg
  {
    var q := price / avg;
    assert q * avg == price;
    assert 0.7 <= q <==> 0.7 * avg <= price by {
      if 0.7 <= q {
        MulLeBoth(0.7, q, avg);
      } else {
        MulLtBoth(q, 0.7, avg);
      }
    }
    assert q <= 1.3 <==> price <= 1.3 * avg by {
      if q <= 1.3 {
        MulLeBoth(q, 1.3, avg);
      } else {
        MulLtBoth(1.3, q, avg);
      }
    }
  }

  lemma MulLeBoth(a: real, b: real, c: real)
    requires a <= b && c > 0.0
    ensures a * c <= b * c
  {
  }

  lemma MulLtBoth(a: real, b: real, c: real)
    requires a < b && c > 0.0
    ensures a * c < b * c
  {
  }

  /** The split-signature boundaries: a ratio of exactly 0.7 or 1.3 is still a
    * manual trade, one just outside is taken as a split. */
  lemma SplitSignatureBoundaries()
    ensures !LikelySplit(0.70) && !LikelySplit(1.30)
    ensures LikelySplit(0.69) && LikelySplit(1.31)
  {
  }

  /** The AAPL rule of the integrity tests, holding `dbQty` at DB average `dbAvg`. */
  function AaplRule(dbQty: real, dbAvg: real): TradingRule
  {
    TradingRule("test_user", "AAPL", "Apple", "hash123", dbQty, dbAvg)
  }

  function AaplAt(quantity: real, lastPrice: real): BrokerPositions
  {
    map["hash123" := map["AAPL" := BrokerPosition(quantity, lastPrice)]]
  }

  function KindOf(found: Option<Issue>): Option<IssueKind>
  {
    if found.Some? then Some(found.value.kind) else None
  }

  /** The integrity tests that pass: a perfect match, a split, a reverse
    * split, a new position and a difference below 0.001. */
  lemma IntegrityPassScenarios()
    ensures KindOf(RuleIssue(AaplRule(100.0, 150.0), AaplAt(100.0, 155.0))) == None
    ensures KindOf(RuleIssue(AaplRule(100.0, 150.0), AaplAt(200.0, 75.0))) == None
    ensures KindOf(RuleIssue(AaplRule(100.0, 150.0), AaplAt(50.0, 300.0))) == None
    ensures KindOf(RuleIssue(AaplRule(0.0, 150.0), AaplAt(10.0, 150.0))) == None
    ensures KindOf(RuleIssue(AaplRule(100.0, 150.0), AaplAt(100.0009, 150.0))) == None
  {
  }

  /** The integrity tests that halt, each with its kind of issue. */
  lemma IntegrityHaltScenarios()
    ensures KindOf(RuleIssue(AaplRule(100.0, 150.0), map["hash123" := map[]])) == Some(PhantomPosition)
    ensures KindOf(RuleIssue(AaplRule(100.0, 150.0), AaplAt(50.0, 150.0))) == Some(ManualTrade)
    ensures KindOf(RuleIssue(AaplRule(100.0, 150.0), AaplAt(101.0, 0.0))) == Some(InvalidBrokerPrice)
    ensures KindOf(RuleIssue(AaplRule(100.0, 0.0), AaplAt(101.0, 150.0))) == Some(ZeroDbAveragePrice)
    ensures KindOf(RuleIssue(AaplRule(100.0, 150.0), AaplAt(100.0011, 150.0))) == Some(ManualTrade)
  {
  }

  /** The ratio boundary test: 0.69 and 1.31 pass as splits, 0.70 and 1.30 halt. */
  lemma RatioBoundaryScenarios()
    ensures KindOf(RuleIssue(AaplRule(100.0, 100.0), AaplAt(200.0, 69.0))) == None
    ensures KindOf(RuleIssue(AaplRule(100.0, 100.0), AaplAt(200.0, 70.0))) == Some(ManualTrade)
    ensures KindOf(RuleIssue(AaplRule(100.0, 100.0), AaplAt(200.0, 130.0))) == Some(ManualTrade)
    ensures KindOf(RuleIssue(AaplRule(100.0, 100.0), AaplAt(200.0, 131.0))) == None
  {
  }

  /** The guard halts exactly when some rule of that user raises an issue;
    * rules of other users never matter. */
  lemma {:induction false} HaltExactlyOnSomeIssue(rules: seq<TradingRule>, positions: BrokerPositions)
    ensures |IssuesOf(rules, positions)| > 0 <==> exists r :: r in rules && RuleIssue(r, positions).Some?
  {
    if rules != [] {
      var init := rules[..|rules| - 1];
      HaltExactlyOnSomeIssue(init, positions);
      assert forall r :: r in rules <==> r in init || r == rules[|rules| - 1];
    }
  }

  /** Every issue names a symbol of one of the listed rules. */
  lemma {:induction false} IssuesComeFromRules(rules: seq<TradingRule>, positions: BrokerPositions)
    ensures forall k :: 0 <= k < |IssuesOf(rules, positions)| ==>
              exists r :: r in rules && RuleIssue(r, positions) == Some(IssuesOf(rules, positions)[k])
  {
    if rules != [] {
      var init := rules[..|rules| - 1];
      IssuesComeFromRules(init, positions);
      var all := IssuesOf(rules, positions);
      var before := IssuesOf(init, positions);
      forall k | 0 <= k < |all|
        ensures exists r :: r in rules && RuleIssue(r, positions) == Some(all[k])
      {
        if k < |before| {
          assert all[k] == before[k];
          var r :| r in init && RuleIssue(r, positions) == Some(before[k]);
          assert r in rules;
        } else {
          var last := rules[|rules| - 1];
          assert last in rules;
          assert RuleIssue(last, positions) == Some(all[k]);
        }
      }
      assert forall k :: 0 <= k < |all| ==> exists r :: r in rules && RuleIssue(r, positions) == Some(all[k]);
    } else {
      assert IssuesOf(rules, positions) == [];
    }
  }
}
