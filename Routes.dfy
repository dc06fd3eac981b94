/** The request logic of the dashboard's routes (`routes.py`): the totals and
  * rule partition of `index`, the date map of `/api/daily-assets`, the plan of
  * `/api/daily-assets/update`, the field whitelist of `update_rule_field` and
  * the required-field check of `add_trading_rule`.
  *
  * Database reads arrive as inputs; a database write is returned as a value
  * describing it. Python's "truthiness" of a form or JSON value is spelled
  * out: a missing value or the empty string is false. */
module Routes {
  import opened Common

  // ---------------------------------------------------------------------------
  // index: total contribution and profit

  /** An account's `contribution` column: absent or NULL, a value `float()`
    * accepts, or one it rejects. */
  datatype Contribution = NoContribution | Numeric(amount: real) | NotNumeric

  /** The sum of the contributions `float()` accepts. */
  function ContributionSum(accounts: seq<Contribution>): real
  {
    if accounts == [] then 0.0
    else
      var last := accounts[|accounts| - 1];
      ContributionSum(accounts[..|accounts| - 1]) + (if last.Numeric? then last.amount else 0.0)
  }

  /** The `total_contribution` loop of `index`. */
  method TotalContribution(accounts: seq<Contribution>) returns (total: real)
    ensures total == ContributionSum(accounts)
  {
    total := 0.0;
    for i := 0 to |accounts|
      invariant total == ContributionSum(accounts[..i])
    {
      assert accounts[..i + 1][..i] == accounts[..i];
      match accounts[i]
      case Numeric(amount) => total := total + amount;
      case _ =>
    }
    assert accounts[..|accounts|] == accounts;
  }

  lemma {:induction false} ContributionSumAppend(a: seq<Contribution>, b: seq<Contribution>)
    ensures ContributionSum(a + b) == ContributionSum(a) + ContributionSum(b)
  {
    if b == [] {
      assert a + b == a;
    } else {
      ContributionSumAppend(a, b[..|b| - 1]);
      assert (a + b)[..|a + b| - 1] == a + b[..|b| - 1];
    }
  }

  /** An account without a numeric contribution never changes the total,
    * wherever it stands; a numeric one adds exactly its amount. */
  lemma ContributionsSkipTheRest(before: seq<Contribution>, c: Contribution, after: seq<Contribution>)
    ensures !c.Numeric? ==> ContributionSum(before + [c] + after) == ContributionSum(before + after)
    ensures c.Numeric? ==> ContributionSum(before + [c] + after) == ContributionSum(before + after) + c.amount
  {
    ContributionSumAppend(before + [c], after);
    ContributionSumAppend(before, [c]);
    ContributionSumAppend(before, after);
    assert [c][..0] == [];
  }

  /** `total_profit` and `profit_percent`; `total_value` is `None` when the
    * allocation query found nothing, and `float(None)` raises. */
  datatype Profit = Profit(totalProfit: real, profitPercent: real)

  function ProfitOf(totalValue: Option<real>, totalContribution: real): (r: Option<Profit>)
    ensures r.None? <==> totalValue.None?
    ensures r.Some? ==> r.value.totalProfit + totalContribution == totalValue.value
    ensures r.Some? && totalContribution > 0.0 ==>
              r.value.profitPercent * totalContribution == r.value.totalProfit * 100.0
    ensures r.Some? && totalContribution <= 0.0 ==> r.value.profitPercent == 0.0
  {
    if totalValue.None? then None
    else
      var profit := totalValue.value - totalContribution;
      var percent := if totalContribution > 0.0 then profit / totalContribution * 100.0 else 0.0;
      Some(Profit(profit, percent))
  }

  // ---------------------------------------------------------------------------
  // index: active and inactive rules

  datatype RuleRow = RuleRow(id: int, status: Option<string>)

  predicate IsShownActive(rule: RuleRow)
  {
    rule.status == Some("ACTIVE") || rule.status == Some("PROCESSED")
  }

  function ActiveRules(rules: seq<RuleRow>): seq<RuleRow>
  {
    if rules == [] then []
    else ActiveRules(rules[..|rules| - 1]) + (if IsShownActive(rules[|rules| - 1]) then [rules[|rules| - 1]] else [])
  }

  function InactiveRules(rules: seq<RuleRow>): seq<RuleRow>
  {
    if rules == [] then []
    else InactiveRules(rules[..|rules| - 1]) + (if IsShownActive(rules[|rules| - 1]) then [] else [rules[|rules| - 1]])
  }

  /** The partition loop of `index`. */
  method PartitionRules(rules: seq<RuleRow>) returns (active: seq<RuleRow>, inactive: seq<RuleRow>)
    ensures active == ActiveRules(rules) && inactive == InactiveRules(rules)
  {
    active, inactive := [], [];
    for i := 0 to |rules|
      invariant active == ActiveRules(rules[..i]) && inactive == InactiveRules(rules[..i])
    {
      assert rules[..i + 1][..i] == rules[..i];
      if rules[i].status == Some("ACTIVE") || rules[i].status == Some("PROCESSED") {
        active := active + [rules[i]];
      } else {
        inactive := inactive + [rules[i]];
      }
    }
    assert rules[..|rules|] == rules;
  }

  /** Every rule lands in exactly one list, the active list holds exactly the
    * ACTIVE and PROCESSED rules, and both lists keep the rules' order. */
  lemma {:induction false} PartitionIsExact(rules: seq<RuleRow>)
    ensures multiset(ActiveRules(rules)) + multiset(InactiveRules(rules)) == multiset(rules)
    ensures forall r :: r in ActiveRules(rules) ==> IsShownActive(r) && r in rules
    ensures forall r :: r in InactiveRules(rules) ==> !IsShownActive(r) && r in rules
    ensures forall r :: r in rules ==> (r in ActiveRules(rules) <==> IsShownActive(r))
  {
    if rules != [] {
      var init := rules[..|rules| - 1];
      PartitionIsExact(init);
      assert rules == init + [rules[|rules| - 1]];
    }
  }

  // ---------------------------------------------------------------------------
  // /api/daily-assets

  /** The `assets_map` loop: date to total value, a later row for a date
    * overwriting an earlier one. */
  method AssetsMap(items: seq<(string, real)>) returns (assets: map<string, real>)
    ensures assets == BuildMap(items)
    ensures forall d :: d in assets <==> exists k :: 0 <= k < |items| && items[k].0 == d
    ensures forall k :: 0 <= k < |items| && (forall j :: k < j < |items| ==> items[j].0 != items[k].0)
                        ==> assets[items[k].0] == items[k].1
  {
    assets := map[];
    for i := 0 to |items|
      invariant assets == BuildMap(items[..i])
    {
      assert items[..i + 1][..i] == items[..i];
      assets := assets[items[i].0 := items[i].1];
    }
    assert items[..|items|] == items;
    forall d
      ensures d in assets <==> exists k :: 0 <= k < |items| && items[k].0 == d
    {
      BuildMapLastWins(items, d);
    }
    forall k | 0 <= k < |items| && (forall j :: k < j < |items| ==> items[j].0 != items[k].0)
      ensures assets[items[k].0] == items[k].1
    {
      BuildMapLastWins(items, items[k].0);
    }
  }

  // ---------------------------------------------------------------------------
  // /api/daily-assets/update

  /** The JSON `amount`: missing or null, a value `float()` accepts, or one it rejects. */
  datatype Amount = NoAmount | AmountValue(value: real) | BadAmount

  /** One row of the day's breakdown; ids are compared as strings. */
  datatype BreakdownRow = BreakdownRow(id: string, accountId: string, amount: real)

  datatype Response =
    | BadRequest(message: string)                                     // 400
    | RecordNotFound                                                  // 404
    | InvalidAmount                                                   // 500 from float()
    | UpdatePlan(targetId: string, targetAccount: string, currentValue: real,
                 newValue: real, diff: real, dryRun: bool, executed: bool)
    | InsertPlan(targetAccount: string, newValue: real, dryRun: bool, executed: bool)

  /** The database write a request performs. */
  datatype Write = NoWrite | UpdateRecord(recordId: string, amount: real)
                 | UpsertRecord(date: string, accountId: string, amount: real)

  predicate Truthy(s: Option<string>)
  {
    s.Some? && s.value != ""
  }

  /** The first breakdown row whose id is `id`. */
  function FindRecord(records: seq<BreakdownRow>, id: string): (r: Option<BreakdownRow>)
    ensures r.Some? ==> r.value in records && r.value.id == id
    ensures r.None? <==> forall k :: 0 <= k < |records| ==> records[k].id != id
  {
    if records == [] then None
    else if records[0].id == id then Some(records[0])
    else FindRecord(records[1..], id)
  }

  /** `update_daily_asset`; `records` is the breakdown of `date`, read only
    * when a `record_id` is given. */
  function UpdateDailyAsset(date: Option<string>, amount: Amount, recordId: Option<string>,
                            accountId: Option<string>, dryRun: bool, records: seq<BreakdownRow>)
    : (Response, Write)
  {
    if !Truthy(date) || amount.NoAmount? then (BadRequest("Missing date or amount"), NoWrite)
    else if amount.BadAmount? then (InvalidAmount, NoWrite)
    else
      var current := amount.value;
      if Truthy(recordId) then
        var target := FindRecord(records, recordId.value);
        if target.None? then (RecordNotFound, NoWrite)
        else
          var original := target.value.amount;
          (UpdatePlan(recordId.value, target.value.accountId, original, current, current - original, dryRun, !dryRun),
           if dryRun then NoWrite else UpdateRecord(recordId.value, current))
      else if Truthy(accountId) then
        (InsertPlan(accountId.value, current, dryRun, !dryRun),
         if dryRun then NoWrite else UpsertRecord(date.value, accountId.value, current))
      else (BadRequest("Missing record_id or account_id"), NoWrite)
  }

  /** A dry run never writes, and a plan that is not a dry run writes exactly
    * what it reports; an update plan's diff is new minus original. */
  lemma DryRunNeverWrites(date: Option<string>, amount: Amount, recordId: Option<string>,
                          accountId: Option<string>, dryRun: bool, records: seq<BreakdownRow>)
    ensures var (resp, write) := UpdateDailyAsset(date, amount, recordId, accountId, dryRun, records);
            (write != NoWrite <==> (resp.UpdatePlan? || resp.InsertPlan?) && !dryRun)
            && (resp.UpdatePlan? ==>
                  resp.diff == resp.newValue - resp.currentValue
                  && resp.newValue == amount.value
                  && resp.executed == !dryRun
                  && (write.UpdateRecord? ==> write == UpdateRecord(resp.targetId, resp.newValue)))
            && (resp.InsertPlan? ==>
                  resp.newValue == amount.value && resp.executed == !dryRun
                  && (write.UpsertRecord? ==> write == UpsertRecord(date.value, resp.targetAccount, resp.newValue)))
  {
  }

  /** Which answer each request gets: 400 without a date or amount, 404 for
    * an unknown record id, an update plan for a known one, an insert plan for
    * an account id alone, and 400 with neither id. */
  lemma UpdateDailyAssetDispatch(date: Option<string>, amount: Amount, recordId: Option<string>,
                                 accountId: Option<string>, dryRun: bool, records: seq<BreakdownRow>)
    ensures var resp := UpdateDailyAsset(date, amount, recordId, accountId, dryRun, records).0;
            (resp == BadRequest("Missing date or amount") <==> !Truthy(date) || amount.NoAmount?)
            && (resp.RecordNotFound? <==>
                  Truthy(date) && amount.AmountValue? && Truthy(recordId)
                  && forall k :: 0 <= k < |records| ==> records[k].id != recordId.value)
            && (resp.UpdatePlan? ==>
                  Truthy(recordId)
                  && exists k :: 0 <= k < |records| && records[k].id == recordId.value
                                 && records[k].accountId == resp.targetAccount
                                 && records[k].amount == resp.currentValue)
            && (resp.InsertPlan? <==> Truthy(date) && amount.AmountValue? && !Truthy(recordId) && Truthy(accountId))
            && (resp == BadRequest("Missing record_id or account_id") <==>
                  Truthy(date) && amount.AmountValue? && !Truthy(recordId) && !Truthy(accountId))
  {
    if Truthy(date) && amount.AmountValue? && Truthy(recordId) {
      var target := FindRecord(records, recordId.value);
      if target.Some? {
        var k :| 0 <= k < |records| && records[k] == target.value;
      }
    }
  }

  // ---------------------------------------------------------------------------
  // update_rule_field

  const EditableFields: seq<string> := ["limit_value", "limit_type", "target_amount", "daily_money", "cash_only"]

  datatype FieldValue = FloatValue(f: real) | IntValue(i: int) | TextValue(s: Option<string>)

  /** `Invalid field`, a `ValueError`, another error (a missing value given to
    * `float` or `int`), or the update passed to the database. */
  datatype FieldUpdate = InvalidField | InvalidValue | UpdateError | FieldUpdated(field: string, value: FieldValue)

  /** `update_rule_field`, with `float()` and `int()` on strings as inputs. */
  function UpdateRuleField(field: string, value: Option<string>,
                           parseFloat: string -> Option<real>, parseInt: string -> Option<int>): FieldUpdate
  {
    if field !in EditableFields then InvalidField
    else if field == "limit_value" || field == "daily_money" then
      if value.None? then UpdateError
      else if parseFloat(value.value).None? then InvalidValue
      else FieldUpdated(field, FloatValue(parseFloat(value.value).value))
    else if field == "target_amount" then
      if value.None? then UpdateError
      else if parseInt(value.value).None? then InvalidValue
      else FieldUpdated(field, IntValue(parseInt(value.value).value))
    else if field == "cash_only" then FieldUpdated(field, IntValue(if value == Some("1") then 1 else 0))
    else FieldUpdated(field, TextValue(value))
  }

  /** Only the five editable fields are ever written, each with its own
    * conversion; `cash_only` is 1 exactly for the value "1". */
  lemma RuleFieldWhitelist(field: string, value: Option<string>,
                           parseFloat: string -> Option<real>, parseInt: string -> Option<int>)
    ensures var u := UpdateRuleField(field, value, parseFloat, parseInt);
            (u.InvalidField? <==> field !in EditableFields)
            && (u.FieldUpdated? ==> u.field == field && field in EditableFields)
            && (u.FieldUpdated? && (field == "limit_value" || field == "daily_money") ==>
                  u.value == FloatValue(parseFloat(value.value).value))
            && (u.FieldUpdated? && field == "target_amount" ==> u.value == IntValue(parseInt(value.value).value))
            && (field == "cash_only" ==> u == FieldUpdated(field, IntValue(if value == Some("1") then 1 else 0)))
            && (field == "limit_type" ==> u == FieldUpdated(field, TextValue(value)))
  {
  }

  // ---------------------------------------------------------------------------
  // add_trading_rule

  const RequiredRuleFields: seq<string> :=
    ["account_id", "symbol", "limit_value", "limit_type", "target_amount", "daily_money", "trade_action"]

  function FormValue(form: map<string, string>, field: string): Option<string>
  {
    if field in form then Some(form[field]) else None
  }

  /** The required fields the form lacks or leaves empty, in the list's order. */
  function MissingOf(fields: seq<string>, form: map<string, string>): (missing: seq<string>)
    ensures forall f :: f in missing <==> f in fields && !Truthy(FormValue(form, f))
    ensures missing == [] <==> forall f :: f in fields ==> Truthy(FormValue(form, f))
  {
    if fields == [] then []
    else MissingOf(fields[..|fields| - 1], form)
         + (if Truthy(FormValue(form, fields[|fields| - 1])) then [] else [fields[|fields| - 1]])
  }

  /** The rule `add_trading_rule` passes to the database layer. */
  datatype NewRule = NewRule(accountId: string, symbol: string, stockName: Option<string>, limitValue: FieldValue,
                             limitType: string, targetAmount: int, dailyMoney: FieldValue, tradeAction: string,
                             cashOnly: int)

  /** What one POST to `/rule/add` does: reject the missing fields, fail in
    * a conversion or in the database call (both caught and flashed as an
    * error), or add the rule. */
  datatype RuleRequest = MissingFields(fields: seq<string>) | ConversionFailed | WriteFailed | RuleAdded(rule: NewRule)

  /** `request.form.get('market', 'us')`. */
  function MarketOf(form: map<string, string>): string
  {
    if "market" in form then form["market"] else "us"
  }

  /** A money field: `int(...)` for the Korean market, `float(...)` otherwise;
    * `None` when the conversion raises `ValueError`. */
  function MoneyField(form: map<string, string>, field: string,
                      parseFloat: string -> Option<real>, parseInt: string -> Option<int>): Option<FieldValue>
    requires field in form
  {
    if MarketOf(form) == "kr" then
      (if parseInt(form[field]).Some? then Some(IntValue(parseInt(form[field]).value)) else None)
    else
      (if parseFloat(form[field]).Some? then Some(FloatValue(parseFloat(form[field]).value)) else None)
  }

  /** Every conversion in the `try` block succeeds. */
  predicate Converts(form: map<string, string>, parseFloat: string -> Option<real>, parseInt: string -> Option<int>)
    requires "limit_value" in form && "target_amount" in form && "daily_money" in form
  {
    MoneyField(form, "limit_value", parseFloat, parseInt).Some?
    && parseInt(form["target_amount"]).Some?
    && MoneyField(form, "daily_money", parseFloat, parseInt).Some?
  }

  function AddTradingRule(form: map<string, string>, parseFloat: string -> Option<real>,
                          parseInt: string -> Option<int>, writeFails: bool): RuleRequest
  {
    var missing := MissingOf(RequiredRuleFields, form);
    if missing != [] then MissingFields(missing)
    else
      assert forall f :: f in RequiredRuleFields ==> f in form by {
        forall f | f in RequiredRuleFields ensures f in form {
          assert f !in missing;
        }
      }
      if !Converts(form, parseFloat, parseInt) then ConversionFailed
      else if writeFails then WriteFailed
      else
        RuleAdded(NewRule(form["account_id"], form["symbol"],
                          if MarketOf(form) == "kr" then FormValue(form, "stock_name") else None,
                          MoneyField(form, "limit_value", parseFloat, parseInt).value, form["limit_type"],
                          parseInt(form["target_amount"]).value,
                          MoneyField(form, "daily_money", parseFloat, parseInt).value, form["trade_action"],
                          if "cash_only" in form then 1 else 0))
  }

  /** The required-field check passes only when every required field is
    * present and non-empty; otherwise nothing is written and the rejection
    * names exactly the missing ones. */
  lemma NoWriteWithMissingField(form: map<string, string>, parseFloat: string -> Option<real>,
                                parseInt: string -> Option<int>, writeFails: bool)
    ensures var r := AddTradingRule(form, parseFloat, parseInt, writeFails);
            (!r.MissingFields? <==> forall f :: f in RequiredRuleFields ==> Truthy(FormValue(form, f)))
            && (r.MissingFields? ==>
                  forall f :: f in r.fields <==> f in RequiredRuleFields && !Truthy(FormValue(form, f)))
  {
    var missing := MissingOf(RequiredRuleFields, form);
    if missing != [] {
      assert missing[0] in missing;
    }
  }

  /** Past the required-field check, the rule is added exactly when every
    * conversion succeeds and the database call does not raise, and it holds
    * the converted values: integers for the Korean market, floats otherwise. */
  lemma AddedRuleIsConverted(form: map<string, string>, parseFloat: string -> Option<real>,
                             parseInt: string -> Option<int>, writeFails: bool)
    requires forall f :: f in RequiredRuleFields ==> Truthy(FormValue(form, f))
    ensures "limit_value" in form && "target_amount" in form && "daily_money" in form
    ensures var r := AddTradingRule(form, parseFloat, parseInt, writeFails);
            (r.ConversionFailed? <==> !Converts(form, parseFloat, parseInt))
            && (r.WriteFailed? <==> Converts(form, parseFloat, parseInt) && writeFails)
            && (r.RuleAdded? <==> Converts(form, parseFloat, parseInt) && !writeFails)
            && (r.RuleAdded? ==>
                  r.rule.targetAmount == parseInt(form["target_amount"]).value
                  && (MarketOf(form) == "kr" ==>
                        r.rule.limitValue == IntValue(parseInt(form["limit_value"]).value)
                        && r.rule.dailyMoney == IntValue(parseInt(form["daily_money"]).value))
                  && (MarketOf(form) != "kr" ==>
                        r.rule.limitValue == FloatValue(parseFloat(form["limit_value"]).value)
                        && r.rule.dailyMoney == FloatValue(parseFloat(form["daily_money"]).value)
                        && r.rule.stockName.None?)
                  && (r.rule.cashOnly == 1 <==> "cash_only" in form))
  {
    assert "limit_value" in RequiredRuleFields && "target_amount" in RequiredRuleFields;
    assert "daily_money" in RequiredRuleFields;
  }
}
