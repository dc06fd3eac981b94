# Auto-trading helper, modelled in Dafny

This project models the decision logic of an automated trading helper. The
helper trades US stocks through the Schwab API and Korean stocks through the
Korea Investment API. It runs rules that buy or sell a symbol toward a target
holding under a daily money limit, and it records daily portfolio values and
contributions.

Around that core sit three pieces:

- a Flask dashboard;
- two React widgets: an asset calendar and a crontab console;
- two Node scripts that obtain and refresh the Schwab OAuth tokens.

There is one Dafny module per source file of the core. `Common` holds the
shared helpers:

- `Option`;
- Python's `//`, `int()` and `math.ceil`, and JavaScript's `Math.round` and `toFixed(2)` on reals;
- substring search;
- whitespace;
- decimal rendering;
- dictionaries filled entry by entry.

The modules are:

- `TradeCalculator`: `calculate_buy_quantity` and `calculate_sell_quantity`.
- `SafetyGuard`: the order validators and the state integrity guard.
- `Trader`: the rules engine. It covers:
  - the periodic-buy date and the PROCESSED to ACTIVE flip;
  - the trigger dispatch and `buy_stock`/`sell_stock`;
  - the per-account position cache, as a class;
  - the split adjustment and high-price update;
  - the cash counted with BIL and SGOV.
- `ContributionManager`: the same-day sweep-pair filter, the per-account keep filter, the transaction types, and the 360-day fetch windows.
- `EtfCash`: `sell_etf_for_cash`. The Korean and the Schwab managers share it, because their code is identical.
- `KoreaManager`: the holiday scan, the market-hours cache (a class), and the paginated position loop.
- `SchwabManager`: the market-hours cache with its session times (a class), and the position mappings.
- `HistoryMixin`: the used-money sum, the daily rows, the allocation merge and sort, and the sampling rule.
- `Routes`: the contribution and profit arithmetic, the rule partition, the asset map, the daily-asset update plan, the field whitelist and the required-field check.
- `CrontabService`: the per-block parse, and the mock run and kill answers.
- `MockClockModel`: the mock clock, as a class.
- `AssetCalendar`: the gap fill, the colour bands, the view range, the cell change, the won abbreviation, the saved input, the range statistics and the monthly history.
- `CrontabManager`: the console state as a class (jobs, logs, timers, edit form), the badges and the success rate.
- `AuthScript`: the token file, the module-level token state (a class), the result of one user's run given the code left by the users before it, and `main`.
- `RefreshToken`: reading the stored token, and the refresh with its failure handling.

Modelling conventions:

- **Money, prices and quotes** are `real`.
- **Rounding:** Python `a // b` on floats is `Floor(a / b)`, `int(x)` truncates toward zero, and JavaScript `Math.round` rounds halves up.
- **Calendar days** are integer day numbers, with day 0 a Thursday.
- **Instants** are integer seconds.
- **Clock readings** are parameters, as weekday, hour and minute for the market-hours checks.
- **External answers** are parameters or plain input sequences and maps: broker, database, HTTP, file system and token endpoint.
- **Exceptions that end an operation** are explicit outcomes. Examples: a `ZeroDivisionError` on a zero price, a `KeyError` on a missing account, a `TypeError` from comparing with `None`.

A few of the source's behaviours are modelled as written, and lemmas state them:

- `calculate_buy_quantity` in cash-only mode with a negative cash balance returns a negative quantity labelled "Insufficient Cash".
- When the Korean holiday check gets an error answer, it returns the error's `msg_cd`. Only "N" means closed, so the market is then cached as open.
- The manual auth script never clears its module-level `authorizationCode`. Its 300 s timeout resolves only while no code is stored. So once one user has received a code, a later user whose callback never comes leaves `main` waiting for ever, before the summary and the email.
- When the manual auth script's `main` has processed its users, it exits through `process.exit()` with code 0, even when some users failed. The model's `RunScript` reports failures only through the summary and the notification flag. It assigns no exit code.

## Model

| member | source | states |
|---|---|---|
| TradeCalculator.CalculateBuyQuantity | library/trade_calculator.py:19-93 | The shortfall is never negative; a non-zero quantity has a positive price and costs exactly quantity times price (the quantity itself is stated by BuyQuantityValue and BuyQuantityIsMaximal) |
| TradeCalculator.BuyQuantityValue | library/trade_calculator.py:31-93 | Nothing is bought without a positive price or a positive policy quantity; otherwise cash-only mode buys min(policy quantity, floor(cash / price)) and flexible mode the policy quantity; a cash-only "OK" buys the whole policy quantity |
| TradeCalculator.BuyQuantityIsMaximal | library/trade_calculator.py:37-83 | One share more would pass the target, the remaining daily money, or, in cash-only mode, the cash |
| TradeCalculator.BuyWithinPolicy | library/trade_calculator.py:37-62 | A buy never costs more than what remains of the daily limit, and a positive buy never takes the holding above the target |
| TradeCalculator.CashOnlyBuyAffordable | library/trade_calculator.py:66-83 | In cash-only mode with non-negative cash the quantity is non-negative, costs at most the cash, and the shortfall is 0 |
| TradeCalculator.CashOnlyNegativeCash | library/trade_calculator.py:77-81 | In cash-only mode, negative cash and a positive policy quantity give a negative quantity with reason "Insufficient Cash" |
| TradeCalculator.FlexibleBuyShortfall | library/trade_calculator.py:85-93 | With a positive price, flexible mode buys the policy quantity (0 when that is not positive), and "Need Cash" holds exactly when that positive quantity costs more than the cash; "Need Cash" holds exactly when the shortfall is positive, and the cost is then cash plus shortfall; "OK" is a positive, affordable quantity |
| TradeCalculator.BuyStopReasons | library/trade_calculator.py:32-62 | "Invalid Price", "Target Reached" and "Daily Limit Reached" each hold exactly in their situation, and then nothing is bought |
| TradeCalculator.InsufficientCashReason | library/trade_calculator.py:77-81 | "Insufficient Cash" holds exactly in cash-only mode with a positive price and policy quantity whose cost exceeds the cash; the cash then could not pay for one more share |
| TradeCalculator.CalculateSellQuantity | library/trade_calculator.py:96-129 | The sell quantity is never negative; a positive one comes with revenue quantity times price, a zero one with revenue 0 (the quantity itself is stated by SellQuantityValue and SellQuantityIsMaximal) |
| TradeCalculator.SellQuantityValue | library/trade_calculator.py:106-129 | Nothing is sold without a positive price; otherwise the quantity is min(surplus over the target, floor(remaining daily money / price)), and 0 when that is not positive |
| TradeCalculator.SellQuantityIsMaximal | library/trade_calculator.py:112-120 | One share more would take the holding below the target or pass the remaining daily money |
| TradeCalculator.SellWithinPolicy | library/trade_calculator.py:112-129 | A sale never leaves less than the target and never moves more than the remaining daily money |
| TradeCalculator.SellReasons | library/trade_calculator.py:106-129 | Each sell reason ("Invalid Price", "Target Reached (No Surplus)", "Daily Limit Reached", "OK") holds exactly in its situation |
| TradeCalculator.CalculatorScenarios | tests/test_trade_calculator.py:11-221 | The calculator tests with their own inputs: unconstrained buy, partial and exhausted daily limit, cash cut in both modes, target reached, zero and negative price, float precision, penny limit, large numbers, and the five sell tests |
| SafetyGuard.GetLimits | library/safety_guard.py:9-21 | "US" gets 100,000 and 0.5; every other market string gets 100,000,000 and 50 |
| SafetyGuard.ValidateBuy | library/safety_guard.py:23-53 | A buy is accepted exactly when its size and price are positive, the price is at least the minimum, the total is within the hard limit, and, with positive cash, the total is within the cash |
| SafetyGuard.ValidateSell | library/safety_guard.py:55-80 | A sell is accepted exactly when it is within the limits and, with a known holding, the quantity is at most that holding |
| SafetyGuard.RejectionOrder | library/safety_guard.py:28-42 | A bad quantity is reported before a bad price, and a bad price before the hard limit, on both sides |
| SafetyGuard.ValidatorScenarios | tests/test_safety_guard.py:6-68 | The validator tests with their own inputs: positive buys and sells, all-in buy, full liquidation, fat finger both ways, insolvent buy, naked short, penny-stock floors in both markets, split-adjusted sale and the rounding edge case |
| SafetyGuard.BrokerView | library/safety_guard.py:115-124 | A missing account or symbol reads as quantity 0 and price 0 |
| SafetyGuard.UserRules | library/safety_guard.py:100 | Exactly the rules of the user are kept |
| SafetyGuard.CheckIntegrity | library/safety_guard.py:89-175 | The issues are those of the user's rules in order, and the guard halts exactly when there is at least one |
| SafetyGuard.MatchedRuleRaisesNothing | library/safety_guard.py:126-129 | A rule whose broker quantity matches within 0.001 raises nothing |
| SafetyGuard.IssueCauses | library/safety_guard.py:126-171 | Each issue kind holds exactly under its cause: phantom position when the broker shows 0 and the DB holds more; otherwise, for a mismatch that is not a new position, zero DB average price, invalid broker price, or manual trade for a ratio within 0.7..1.3; no issue exactly for a match, a new position or a split ratio; an issue carries the rule and both quantities |
| SafetyGuard.RatioIff | library/safety_guard.py:162 | With a positive average price, the ratio is no split exactly when the price lies within 0.7 and 1.3 times the average |
| SafetyGuard.IntegrityPassScenarios | tests/test_state_integrity_guard.py:24-130 | The passing integrity tests: perfect match, forward and reverse split, new position, and a difference below 0.001 (test lines 188-207) raise nothing |
| SafetyGuard.IntegrityHaltScenarios | tests/test_state_integrity_guard.py:41-186 | The halting integrity tests: phantom position, manual sell, zero broker price, zero DB average price, and a difference above 0.001 each raise their issue kind |
| SafetyGuard.RatioBoundaryScenarios | tests/test_state_integrity_guard.py:209-244 | Ratios 0.69 and 1.31 pass as splits; 0.70 and 1.30 halt as manual trades |
| SafetyGuard.SplitSignatureBoundaries | library/safety_guard.py:162 | A ratio of exactly 0.7 or 1.3 is not a split; 0.69 and 1.31 are |
| SafetyGuard.HaltExactlyOnSomeIssue | library/safety_guard.py:173-175 | There are issues exactly when some listed rule raises one |
| SafetyGuard.IssuesComeFromRules | library/safety_guard.py:103-171 | Every issue is the issue of one of the listed rules |
| Trader.CheckPeriodicBuyDate | trader.py:39-51 | Weekly rules are due on their weekday, monthly rules on their day of month, and no other rule is ever due |
| Trader.UpdatePeriodicRuleStatus | trader.py:53-61 | The ids written back as ACTIVE are those of the PROCESSED periodic rules due today, in order |
| Trader.ReactivatedExactlyWhenDue | trader.py:53-61 | An id is reactivated exactly when some PROCESSED rule with that id is due today |
| Trader.TriggerSides | trader.py:448-490 | A rule acts only on its own side; periodic and high-percent rules never sell; a percent rule without an average price only ever buys; a periodic buy rule always triggers |
| Trader.TriggerMonotone | trader.py:448-490 | A buy trigger also fires at every lower price, and a sell trigger at every higher price |
| Trader.DecideTradingPass | trader.py:430-490 | One decision per rule, the trigger at its price, and no action for a rule whose price could not be read |
| Trader.AccountHolding | trader.py:587 | The holding is known exactly when the account is in the cache |
| Trader.AdjustedChangesOneHolding | trader.py:145-149 | A fill changes exactly one holding, by exactly its size, and no account appears or disappears |
| Trader.BuyThenSellRestoresHoldings | trader.py:145-149 | Selling what was just bought restores every holding |
| Trader.SellFillWithinLimits | trader.py:585-610 | A filled sale is positive, keeps the holding at or above the target, stays within the day's remaining money, and completes the rule exactly when the target is reached |
| Trader.BuyFillWithinLimits | trader.py:612-666 | A filled buy is positive, never exceeds the target, and costs no more than the remaining daily money or the cash it was sized by |
| Trader.BuyStockIsCappedPlan | trader.py:612-666 | Every filled buy comes from a positive plan, never passes the target and costs no more than the cash it was sized by, which is the cash re-read after a successful ETF sale; without such a sale, it costs no more than the cash first read |
| Trader.BuyStatusRule | trader.py:652-663 | Periodic rules go to PROCESSED after a fill; other rules go to COMPLETED exactly when the fill reaches the target |
| Trader.EtfQuoteFailureStopsBuy | trader.py:636-650 | The buy raises on the ETF quote exactly when a rule that is not cash-only plans a positive buy costing more than the cash and the ETF sale's quote fails; a cash-only rule never does |
| Trader.AccountPausesDouble | trader.py:73-95 | Fewer than three pauses per account, each of 2 s or 4 s |
| Trader.LoadStopsAtFirstFailure | trader.py:63-97 | The accounts load in order up to the first whose three tries all fail; the cache then holds exactly its old accounts and the accounts before that one, and every pause is 2 s or 4 s |
| Trader.PassStopsAtFirstRaise | trader.py:430-499 | One turn per rule in order; a turn acts exactly when its price was read and the trigger fires; no turn before the last raises; a pass shorter than the rules ends with a raising turn |
| Trader.TradingSystem.constructor | trader.py:17-21 | The cache starts empty |
| Trader.TradingSystem.LoadAccount | trader.py:73-95 | An account is loaded exactly when one of its three tries answers, with the first answer; the pauses double from 2 s; otherwise the cache is unchanged |
| Trader.TradingSystem.LoadAccounts | trader.py:70-95 | The cache, the pauses and the abort are those of loading the accounts in order up to the first one that fails |
| Trader.TradingSystem.LoadDailyPositions | trader.py:63-97 | A failing account list changes nothing; otherwise the accounts load in order, and the load stops, logged, at the first account whose tries all fail |
| Trader.TradingSystem.PlaceBuyOrder | trader.py:115-162 | The dry-run verdict is the buy validator's; no fill returns False with the cache unchanged; a fill adds the quantity to the cached account, or raises the alert's KeyError (trader.py:214) when the account is not cached |
| Trader.TradingSystem.PlaceSellOrder | trader.py:164-211 | The validator sees the caller's holding, or the cached one (0 when absent); no fill returns False; a fill takes the quantity off the cached account, or raises the alert's KeyError (trader.py:258) when the account is not cached |
| Trader.TradingSystem.SellStock | trader.py:585-610 | The outcome is the sell specification on the cached holding; the guard is consulted only for an order sent; only a fill changes the cache |
| Trader.TradingSystem.BuyStock | trader.py:612-666 | The outcome is the buy specification, which raises when the ETF sale's quote fails; an ETF sale is requested exactly for the positive difference when a rule that is not cash-only plans a positive buy costing more than the cash; the guard runs only when an order is sent, and its verdict is the buy validator's on the cash the buy was sized by; only a fill changes the cache |
| Trader.TradingSystem.TopUpCash | trader.py:636-650 | The ETF sale is that of the ETF cash specification for the shortfall; the cash is re-read only after a sale that was placed |
| Trader.TradingSystem.TakeTurn | trader.py:435-490 | One rule's turn: its outcome and the new cache are those of the turn specification |
| Trader.TradingSystem.RunTradingPass | trader.py:430-499 | The outcomes and the final cache are those of the pass, which stops at the first raising turn |
| Trader.SplitRescales | trader.py:340-382 | A split keeps the high price in proportion to the average price, and rescales the target to the largest whole count worth no more than the old target; the quantity is the broker's |
| Trader.SyncSplitAdjustments | trader.py:300-382 | The updates written, and the stop on a NULL average price, are those of the split pass |
| Trader.SplitUpdatesFromOwnRules | trader.py:300-382 | Updates are only written for the user's own rules that show a split signature |
| Trader.HighPriceOnlyRises | trader.py:552-583 | The high price is only ever raised, to the close or kept, and only for a position with a positive average price |
| Trader.TotalCashBalance | trader.py:519-550 | An account missing from the positions is skipped, as the KeyError at trader.py:525 is caught; otherwise the total is the cash plus the BIL and SGOV quantities times their last prices |
| Trader.CashWithEtfsCountsOnlyEtfs | trader.py:531-541 | The ETF value is the BIL value plus the SGOV value; positions other than BIL and SGOV never change it, and non-negative ETF values never lower the cash |
| ContributionManager.GroupDatesListsEachDateOnce | library/contribution_manager.py:121-128 | The dates are listed once each, and they are exactly the dates that occur |
| ContributionManager.DayOfIsOneDate | library/contribution_manager.py:124-128 | Every transaction in a date group carries that date |
| ContributionManager.PositiveCandidates | library/contribution_manager.py:137-142 | Increasing indices of exactly the positive sweeps |
| ContributionManager.NegativeCandidates | library/contribution_manager.py:137-144 | Increasing indices of exactly the negative sweeps |
| ContributionManager.FirstMatch | library/contribution_manager.py:151-158 | A match is an unmatched negative candidate whose amount offsets the positive one |
| ContributionManager.FirstMatchIsFirst | library/contribution_manager.py:151-158 | The match is the first eligible candidate, and there is none only when no candidate is eligible |
| ContributionManager.Pairs | library/contribution_manager.py:146-158 | Every pair joins a positive and a negative candidate whose amounts offset |
| ContributionManager.PairsAreOffsettingSweeps | library/contribution_manager.py:141-158 | Pairs join a positive and a negative sweep that offset; positives come in order, no negative is used twice, and the pairs use twice their number of indices |
| ContributionManager.PairsDistinct | library/contribution_manager.py:146-158 | No index is used twice, and the positive sides come in candidate order |
| ContributionManager.UnmatchedKeepsTheRest | library/contribution_manager.py:161-163 | A transaction is dropped exactly when its index is matched |
| ContributionManager.DayResultLength | library/contribution_manager.py:161-163 | A day shrinks by exactly two transactions per pair |
| ContributionManager.SweepFilterRemovesOnlyPairs | library/contribution_manager.py:116-165 | The output is shorter than the input by exactly two per matched pair |
| ContributionManager.SweepCandidates | library/contribution_manager.py:133-144 | The candidate loop computes both candidate lists |
| ContributionManager.FindPartner | library/contribution_manager.py:151-158 | The inner loop finds the first free negative that offsets the positive one |
| ContributionManager.MatchSweepPairs | library/contribution_manager.py:146-158 | The matched indices are those the pairing uses |
| ContributionManager.KeepUnmatched | library/contribution_manager.py:161-163 | The keeping loop keeps the unmatched transactions in order |
| ContributionManager.GroupByDate | library/contribution_manager.py:121-128 | The grouping loop yields the dates in first-appearance order, each mapped to exactly its transactions in input order |
| ContributionManager.FilterDay | library/contribution_manager.py:132-163 | One date's candidates, matching and keeping give that date's unmatched transactions |
| ContributionManager.FilterSweepPairs | library/contribution_manager.py:116-165 | The filter returns, date by date in first-appearance order, the unmatched transactions of that date |
| ContributionManager.KeepGoogAccount | library/contribution_manager.py:174-195 | Exactly the cash movements and the GOOG trades are kept |
| ContributionManager.AccountFilter | library/contribution_manager.py:172-199 | Account 96839515 keeps the cash movements and its GOOG trades; every other account keeps everything |
| ContributionManager.HasGoogItem | library/contribution_manager.py:189-192 | The transfer-item loop finds GOOG exactly when some item names it |
| ContributionManager.FilterTransactions | library/contribution_manager.py:167-199 | The sweep filter, then the account filter |
| ContributionManager.TypesForAccount | library/contribution_manager.py:95-114 | Account 96839515 fetches the cash movements and TRADE; every other account fetches the six deposit types |
| ContributionManager.WindowsShape | library/contribution_manager.py:63-85 | No window when the start is not before today; otherwise the windows start at the cursor, span at most 360 days, follow each other one second apart, and the last ends at today or one second before it |
| ContributionManager.WindowsCoverOnce | library/contribution_manager.py:63-85 | Every instant from the start up to today lies in exactly one window |
| ContributionManager.WindowsIncrease | library/contribution_manager.py:63-85 | Later windows start after earlier ones end |
| ContributionManager.FetchAccount | library/contribution_manager.py:63-85 | The fetch loop gathers the answered windows' transactions, in window order, and gives up at the first window that raises |
| ContributionManager.FetchedFailsIffRaised | library/contribution_manager.py:59-93 | An account's fetch fails exactly when one of its windows raises |
| ContributionManager.SavingAccounts | library/contribution_manager.py:42-93 | Exactly the accounts other than 37522548, not already processed, and whose fetch did not raise, save |
| ContributionManager.ContributionsPerAccount | library/contribution_manager.py:42-93 | One saved entry per saving account, in order, with that account's filtered transactions |
| ContributionManager.RaisingAccountIsPassedOver | library/contribution_manager.py:59-93 | An account whose try block raises saves nothing, and the accounts around it save exactly what they would without it |
| ContributionManager.ProcessAccount | library/contribution_manager.py:57-93 | One account's result: its fetched transactions, filtered, or nothing when the fetch raised |
| ContributionManager.UpdateDailyContributions | library/contribution_manager.py:13-93 | Nothing is saved when get_hashs raises or finds no account; otherwise exactly the entries of the saving accounts, fetched from days_back days before today |
| ContributionManager.SaveAccounts | library/contribution_manager.py:42-93 | The account loop gives one entry per account not skipped whose fetch did not raise |
| EtfCash.BilThenSgov | library/korea_manager.py:404-419 | BIL is tried first, then SGOV |
| EtfCash.SellEtfForCash | library/schwab_manager.py:223-238 | The loop computes the sale of the specification |
| EtfCash.SaleCoversRequirement | library/korea_manager.py:404-419 | A sale is of BIL or SGOV, held, positive, never more than held, and covers the required cash or sells every share; SGOV is sold only when BIL is not held or needs no sale |
| EtfCash.NoSaleWhenNothingHeld | library/schwab_manager.py:223-238 | Nothing is sold when neither ETF is held, and something is sold when one is held, cash is needed and quotes are positive |
| EtfCash.CeilQuotientCovers | library/korea_manager.py:410-413 | The ceiling of the required cash over the price, in shares, covers the requirement |
| KoreaManager.OpenFlag | library/korea_manager.py:74-80 | "Y" unless some entry is dated today |
| KoreaManager.OpenFlagIsFirstMatch | library/korea_manager.py:74-80 | The flag is "Y" when no entry is dated today, and otherwise that of the first entry dated today |
| KoreaManager.IsTodayOpenCheck | library/korea_manager.py:52-83 | The scanned flag for a day list, the error's msg_cd otherwise |
| KoreaManager.MarketCalendar.constructor | library/korea_manager.py:52-83 | The open flag starts unknown |
| KoreaManager.MarketCalendar.GetMarketHours | library/korea_manager.py:84-112 | Outside the trading window the answer is closed and nothing is asked; inside it the holiday check runs once a day, anything but "N" is open, and the cached flag is the answer |
| KoreaManager.TradingWindowBounds | library/korea_manager.py:91-99 | The window is 09:00 to 15:30 on weekdays, both ends included |
| KoreaManager.Paginate | library/korea_manager.py:147-191 | The loop never reads more responses than there are |
| KoreaManager.GetPositions | library/korea_manager.py:137-191 | The positions and the responses read are those of the pagination loop |
| KoreaManager.AddPageStocks | library/korea_manager.py:177-179 | The output1 loop adds the page's holdings |
| KoreaManager.AddStocksLastWins | library/korea_manager.py:177-179 | A stock is present exactly when it was before or the page holds it, with the page's last positive quantity for it |
| KoreaManager.PositionsArePositive | library/korea_manager.py:178 | Every returned position is a positive holding |
| KoreaManager.ErrorsAreBounded | library/korea_manager.py:180-191 | The loop meets at most twelve errors in all before it stops |
| KoreaManager.StopsOnRepeatedKey | library/korea_manager.py:182-184 | The loop stops at the first page whose next key is empty or repeats, with that page's holdings added |
| SchwabManager.CachedAnswer | library/schwab_manager.py:104-107 | Open exactly when the day is open and now lies in the session; a TypeError exactly when an open day's session bound is missing where it is compared; closed otherwise |
| SchwabManager.MarketHours.constructor | library/schwab_manager.py:62-107 | The cache starts unknown |
| SchwabManager.MarketHours.GetMarketHours | library/schwab_manager.py:62-107 | Outside 06:30-13:00 on weekdays the answer is closed with no query; otherwise the API is asked once a day, the first regular session is cached, and the answer is the cached test |
| SchwabManager.DefaultHoursBounds | library/schwab_manager.py:65-75 | The default window is weekdays from 06:30 up to but excluding 13:00 |
| SchwabManager.OpenDayFollowsSession | library/schwab_manager.py:104-106 | An open day with a known session is open exactly from its start up to its end |
| SchwabManager.LastPrice | library/schwab_manager.py:138 | Market value over quantity, or 0 for no quantity |
| SchwabManager.QuantityEntries | library/schwab_manager.py:118-121 | One symbol and long quantity per position |
| SchwabManager.ResultEntries | library/schwab_manager.py:132-144 | One symbol, quantity, average price and last price per position |
| SchwabManager.GetPositions | library/schwab_manager.py:110-123 | Every position's symbol is a key, mapped to its last entry's quantity |
| SchwabManager.GetPositionsResult | library/schwab_manager.py:124-146 | Every position's symbol is a key, mapped to its last entry's quantity, average price and last price |
| SchwabManager.ResultAgreesWithPositions | library/schwab_manager.py:110-146 | Both mappings have the same symbols and agree on every quantity |
| HistoryMixin.RecordTrade | library/db_modules/history_mixin.py:19-38 | The row carries the trade's fields and used money quantity times price |
| HistoryMixin.TradeTodayIsMoneySpent | library/db_modules/history_mixin.py:11-17 | No trade today gives 0; otherwise, for non-negative amounts, the money spent with its fraction dropped |
| HistoryMixin.AddDailyResult | library/db_modules/history_mixin.py:62-99 | A cash row, a total row, then one row per position passed, valued at quantity times last price |
| HistoryMixin.UpsertLookup | library/db_modules/history_mixin.py:160-167 | After setting a symbol it reads back the new row, and other symbols read as before |
| HistoryMixin.RowsToDictLastWins | library/db_modules/history_mixin.py:160-167 | One entry per symbol, and the entry of a symbol is its last row |
| HistoryMixin.AllocationDiffs | library/db_modules/history_mixin.py:198-223 | Percentage of the total; changes from the previous date for a held symbol; a new symbol's changes are its own values; no previous date gives zero changes |
| HistoryMixin.Allocations | library/db_modules/history_mixin.py:195-225 | One allocation per current symbol, built against that symbol's previous row |
| HistoryMixin.SortByPercentageFacts | library/db_modules/history_mixin.py:228 | The sort orders by percentage, descending, and only rearranges |
| HistoryMixin.ConsolidationShape | library/db_modules/history_mixin.py:101-230 | (None, None) exactly without a latest date or with a NULL or zero total; otherwise one allocation per latest symbol, sorted by percentage |
| HistoryMixin.KeptNumbersFacts | library/db_modules/history_mixin.py:260-273 | The kept row numbers increase, and a row is kept exactly when it is the first, the last or a multiple of the interval |
| HistoryMixin.SamplingKeepsEnds | library/db_modules/history_mixin.py:232-291 | Up to max_points every day is kept; beyond that the first and last days always survive, and so does every sampled row |
| Routes.TotalContribution | routes.py:24-30 | The loop sums the contributions float() accepts |
| Routes.ContributionsSkipTheRest | routes.py:24-30 | A missing or non-numeric contribution never changes the total; a numeric one adds exactly its amount |
| Routes.ProfitOf | routes.py:31-32 | Profit plus contribution is the total value; the percent is profit over contribution times 100 for a positive contribution, else 0; no total value raises |
| Routes.PartitionRules | routes.py:36-43 | The loop computes the active and inactive lists |
| Routes.PartitionIsExact | routes.py:36-43 | Every rule lands in exactly one list, the active list is exactly the ACTIVE and PROCESSED rules, and order is kept |
| Routes.AssetsMap | routes.py:245-248 | Every date is a key, mapped to its last row's total value |
| Routes.FindRecord | routes.py:315-319 | The first breakdown row with the id, or none exactly when no row has it |
| Routes.DryRunNeverWrites | routes.py:292-370 | A dry run never writes; a plan that is not a dry run writes exactly what it reports; an update's diff is new minus original |
| Routes.UpdateDailyAssetDispatch | routes.py:292-370 | 400 without date or amount, 404 for an unknown record, an update plan for a known one, an insert plan for an account id alone, 400 with neither id |
| Routes.RuleFieldWhitelist | routes.py:372-395 | Only the five editable fields are written, each with its conversion; cash_only is 1 exactly for "1" |
| Routes.MissingOf | routes.py:105-106 | Exactly the required fields that are absent or empty, and none exactly when every one is present and non-empty |
| Routes.NoWriteWithMissingField | routes.py:88-109 | The required-field check passes exactly when every required field is present and non-empty; otherwise nothing is written and the rejection names exactly the missing ones |
| Routes.AddedRuleIsConverted | routes.py:111-138 | Past the check, a conversion that raises or a database call that raises is caught and writes nothing; the rule is added exactly when neither happens, with integer money fields for the Korean market and float ones otherwise, and cash_only 1 exactly when the box was sent |
| CrontabService.WordPrefix | library/crontab_service.py:43 | The longest prefix without a separator |
| CrontabService.SplitWords | library/crontab_service.py:43 | Every token is a non-empty run without separators |
| CrontabService.SplitJoin | library/crontab_service.py:43-48 | Splitting tokens joined by single spaces gives the tokens back |
| CrontabService.ParseCrontab | library/crontab_service.py:9-72 | No file gives no jobs; otherwise the jobs of the blocks |
| CrontabService.JobsFollowBlocks | library/crontab_service.py:38-72 | Each job is the job of its block, which has at least six tokens; ids increase; every such block gives a job with its 1-based number |
| CrontabService.ScheduleAndCommand | library/crontab_service.py:47-70 | The schedule splits back into the first five tokens and the command into the rest; a job starts enabled, idle, with no pid and exit code 0 |
| CrontabService.MockRunJob | library/crontab_service.py:74-80 | Running, with pid 1234 plus the job id |
| CrontabService.MockKillJob | library/crontab_service.py:82-86 | Killed, with no pid |
| CrontabService.RunPidsAreDistinct | library/crontab_service.py:74-80 | Different jobs get different pids |
| MockClockModel.AsTimezone | library/clock.py:21 | The same instant, read in the new zone |
| MockClockModel.Plus | library/clock.py:28 | Wall clock and instant move by the seconds, and the zone is kept |
| MockClockModel.MockClock.constructor | library/clock.py:11-12 | The clock holds the fixed time |
| MockClockModel.MockClock.Now | library/clock.py:14-22 | Without a zone the stored time; a naive time is tagged with the zone; an aware time is the same instant in the zone |
| MockClockModel.MockClock.SetTime | library/clock.py:24-25 | The clock holds the new time |
| MockClockModel.MockClock.AdvanceSeconds | library/clock.py:27-28 | The clock moves by the seconds |
| MockClockModel.AdvanceComposes | library/clock.py:27-28 | Advancing twice is advancing by the sum, and by zero is nothing |
| MockClockModel.AsTimezoneRoundTrip | library/clock.py:21 | Reading an aware time in another zone and back gives it back |
| MockClockModel.NoonUtcInNewYork | tests/test_clock.py:33-42 | Noon UTC read at UTC-5 is 07:00 |
| AssetCalendar.EarliestDay | frontend/AssetCalendarApp.jsx:35-57 | The day with the earliest value |
| AssetCalendar.FillGaps | frontend/AssetCalendarApp.jsx:35-57 | Existing values are kept; a day is filled exactly when it has no value, is not after today and follows some day with a value; it takes the latest earlier value |
| AssetCalendar.ColorBand | frontend/AssetCalendarApp.jsx:219-231 | Neutral exactly for 0, a green band exactly for gains, a red band exactly for losses |
| AssetCalendar.ColorBandMonotone | frontend/AssetCalendarApp.jsx:219-231 | A larger change never gets a weaker band, and each band has the thresholds 20, 10, 3, 0, -3, -10, -20 |
| AssetCalendar.ChartColorMonotone | frontend/AssetCalendarApp.jsx:234-242 | The chart bands are ordered like the changes, and each band holds exactly on its range: at least 10, 5 up to 10, above 0 below 5, exactly 0, above -5 below 0, above -10 up to -5, and -10 or less |
| AssetCalendar.ViewRangeShape | frontend/AssetCalendarApp.jsx:156-179 | The view runs from a Sunday to the Saturday of the current week, 35 days; the week buttons move it by exactly seven days |
| AssetCalendar.CellChange | frontend/AssetCalendarApp.jsx:255-266 | A change is shown exactly when both days have values and the earlier is not 0; the diff is exact and the percent within rounding |
| AssetCalendar.KrwAbbreviation | frontend/AssetCalendarApp.jsx:101-124 | The sign follows the dollar amount |
| AssetCalendar.KrwAbbreviationIsClose | frontend/AssetCalendarApp.jsx:101-124 | 억 and 만 parts come within 5000 won of the amount, with 만 below 10000; the 만 form rounds to the nearest 만; smaller amounts are in won |
| AssetCalendar.RemoveCommas | frontend/AssetCalendarApp.jsx:199 | The result has no commas |
| AssetCalendar.ParseRendered | frontend/AssetCalendarApp.jsx:199 | parseInt reads a rendered natural number back |
| AssetCalendar.ShownValue | frontend/AssetCalendarApp.jsx:184-187 | Dollars as stored; in won, the whole number Math.round gives for the dollar value at 1450: the one in (x - 0.5, x + 0.5] |
| AssetCalendar.SaveInput | frontend/AssetCalendarApp.jsx:194-215 | No selection changes nothing; other days keep their values; the day keeps a value exactly when the input starts with a number, stored as read in dollars, or from won as the whole number of dollars Math.round gives for it over 1450 |
| AssetCalendar.SaveShownValueKeepsIt | frontend/AssetCalendarApp.jsx:181-215 | Saving the shown whole-dollar value keeps the stored value, in either currency |
| AssetCalendar.RateOf | frontend/AssetCalendarApp.jsx:343 | 0 from a zero start; otherwise the percent change to two decimals |
| AssetCalendar.RangeStats | frontend/AssetCalendarApp.jsx:324-346 | None exactly when the view has no value; otherwise from the first to the last day in view with a value |
| AssetCalendar.MonthRate | frontend/AssetCalendarApp.jsx:382-413 | None with fewer than two days of values in the month; otherwise the change from its first such day to its last |
| AssetCalendar.MonthlyHistory | frontend/AssetCalendarApp.jsx:382-413 | Twelve months, oldest first, ending with the month of the view's last value (or of today), each with its month rate |
| CrontabManager.AppendLog | frontend/CrontabManager.jsx:251-253 | The last 100 entries (or all when fewer) followed by the new one |
| CrontabManager.AppendLogsBounded | frontend/CrontabManager.jsx:251-253 | The log never grows past 101 entries, or its old length |
| CrontabManager.AppendLogsKeepsNewest | frontend/CrontabManager.jsx:251-253 | The log ends with the newest entries, up to 101 of them |
| CrontabManager.VisibleLogs | frontend/CrontabManager.jsx:406-408 | An entry is visible exactly when no job is selected, it is general, or it is the selected job's |
| CrontabManager.VisibleLogsKeepsOrder | frontend/CrontabManager.jsx:406-408 | The filter keeps the log's order: filtering a log made of two parts gives the first part filtered, then the second part filtered |
| CrontabManager.NoSelectionShowsAll | frontend/CrontabManager.jsx:406-408 | With no job selected every entry is visible, in order |
| CrontabManager.MapMatching | frontend/CrontabManager.jsx:255-354 | The jobs with the id are updated and every other job is unchanged |
| CrontabManager.UpdatesKeepIds | frontend/CrontabManager.jsx:345-354 | Id-preserving updates keep every id, and toggling twice restores the list |
| CrontabManager.EveryUpdateKeepsIds | frontend/CrontabManager.jsx:255-354 | Run, completion, kill, toggle and save all keep the job's id |
| CrontabManager.FindJob | frontend/CrontabManager.jsx:256 | The first job with the id, or none exactly when no job has it |
| CrontabManager.StatusBadge | frontend/CrontabManager.jsx:29-45 | RUNNING exactly for a running job, then EXIT 0, SIGKILL for 137, PENDING for a missing code, otherwise the code |
| CrontabManager.BadgesAfterUpdates | frontend/CrontabManager.jsx:29-45 | A job started by the mock runner shows RUNNING with its pid; a completion shows EXIT 0 or EXIT 1; a kill shows SIGKILL |
| CrontabManager.SuccessRate | frontend/CrontabManager.jsx:116-117 | 0 for no runs; otherwise within 0 and 100 and within a half of the exact percentage of zero exit codes |
| CrontabManager.SuccessRateExtremes | frontend/CrontabManager.jsx:116-117 | All runs succeeding gives 100, none gives 0 |
| CrontabManager.Console.constructor | frontend/CrontabManager.jsx:220-233 | No jobs, timers or edit; the log holds only the connecting message |
| CrontabManager.Console.AddLog | frontend/CrontabManager.jsx:251-253 | The log gets the entry, and nothing else changes |
| CrontabManager.Console.Load | frontend/CrontabManager.jsx:235-245 | A successful fetch sets the jobs and logs the load; a failure logs the error |
| CrontabManager.Console.Run | frontend/CrontabManager.jsx:255-310 | A failed request logs the error; a started job is marked, its completion timer armed and its command logged; a job missing from the list gives the browser's error |
| CrontabManager.Console.Complete | frontend/CrontabManager.jsx:283-307 | The job ends idle with exit code 0 or 1, the outcome is logged and the timer removed |
| CrontabManager.Console.Kill | frontend/CrontabManager.jsx:312-331 | The timer is cancelled at once; on the server's answer the job is marked killed (137) and SIGKILL logged |
| CrontabManager.Console.Edit | frontend/CrontabManager.jsx:333-336 | The form holds the job and the id is being edited |
| CrontabManager.Console.EditSchedule | frontend/CrontabManager.jsx:500 | The schedule input changes the form's schedule and nothing else |
| CrontabManager.Console.EditComment | frontend/CrontabManager.jsx:512 | The comment input changes the form's comment and nothing else |
| CrontabManager.Console.EditCommand | frontend/CrontabManager.jsx:523 | The command text area changes the form's command and nothing else |
| CrontabManager.Console.Save | frontend/CrontabManager.jsx:338-343 | The edited job becomes the form with its id, the edit ends and the update is logged |
| CrontabManager.Console.ToggleEnabled | frontend/CrontabManager.jsx:345-354 | The matching jobs flip their enabled flag and each new state is logged |
| AuthScript.OrDefault | script.js:202-205 | The value when non-empty, else the fallback |
| AuthScript.SavedTokens | script.js:188-211 | The file keeps the tokens, defaults scope to "api" and the id token to "", and stamps creation and expiry in seconds from the two clock readings |
| AuthScript.ExpiryFollowsCreation | script.js:198-206 | The expiry is never before creation plus the lifetime, and exactly that when both readings fall in the same second |
| AuthScript.AuthSession.constructor | script.js:20-22 | No code or tokens yet |
| AuthScript.AuthSession.ReceiveCallback | script.js:118-124 | The code is stored, and the exchange goes ahead exactly for a non-empty code |
| AuthScript.AuthSession.ExchangeBody | script.js:152-167 | The exchange sends the stored code and the redirect URI |
| AuthScript.AuthSession.TokensReceived | script.js:169-180 | The tokens are kept and written to the user's file |
| AuthScript.AuthSession.RefreshBody | script.js:343-372 | The refresh sends the last refresh token |
| AuthScript.ProcessUser | script.js:107-147 | A user's run waits for ever exactly when its callback never comes while a code is stored; it succeeds exactly when its callback brought a code, the exchange answered and nothing after it threw; it leaves the callback's code stored, or the stored one when no callback came |
| AuthScript.HangIsFinal | script.js:485-487 | Once the loop hangs at a user, the whole run hangs |
| AuthScript.CodeFromCallback | script.js:118-124 | A stored code always came from some processed user's callback, since nothing else sets it |
| AuthScript.HangNeedsEarlierCode | script.js:118-147 | The run hangs only at a user whose callback never came, after an earlier user received a code |
| AuthScript.RunUsersKeys | script.js:484-487 | Without a hang, exactly the processed users have a result |
| AuthScript.StaleCodeHangs | script.js:118-147 | A user who received a code, followed by one whose callback never comes, makes the run hang |
| AuthScript.Requested | script.js:471-476 | Exactly the configured ids that were asked for, in order |
| AuthScript.RequestedDistinct | script.js:471-476 | Distinct configured ids stay distinct |
| AuthScript.RunScript | script.js:457-505 | No users and no matching users are reported apart; the run hangs, before any summary or notification, exactly when the users' loop hangs; otherwise the results are the loop's, counted, and the notification goes out exactly when the count falls short |
| AuthScript.ProcessUsers | script.js:484-487 | The loop over the users with one module-level session hangs exactly when the users' run does, and otherwise gives its results |
| AuthScript.EmailIffFailure | script.js:490-503 | With distinct ids and no hang, every processed user has a result, and the notification goes out exactly when one of them failed |
| RefreshToken.RefreshTokenFromFile | refreshToken.js:111-129 | A missing file, a parse error and a missing token each throw their message; a non-empty stored token is returned |
| RefreshToken.SavedTokenReadsBack | refreshToken.js:80-129 | A file written from an answer with a refresh token reads it back; without one it is rejected |
| RefreshToken.RefreshAuthToken | refreshToken.js:135-180 | An unreadable token rethrows before any request; the request sends the stored token; a failed refresh saves nothing and rethrows the original error with its own message, and warns only when the logged description (the response body, or else the message) mentions invalid_grant; a success saves the answer's tokens without a warning and returns the answer, or throws reading a missing access token |
| RefreshToken.RefreshedFileReadsBack | refreshToken.js:111-180 | After a successful refresh with a refresh token, the saved file reads back that token |
| RefreshToken.RefreshFailureIsRethrown | refreshToken.js:152-179 | A failed refresh rethrows the error's own message, warning exactly when the logged description mentions invalid_grant; a success sent the stored token and has an access token |
| RefreshToken.HttpErrorRethrowsAxiosMessage | refreshToken.js:171-179 | An HTTP error whose body reports invalid_grant logs the warning from the body but rethrows axios's "Request failed with status code 400" |
| RefreshToken.RefreshSendsSavedToken | refreshToken.js:80-180 | Refreshing from a file the script wrote sends the refresh token of the previous answer |

## Left out

- Network, file and database I/O are left out: the HTTP calls, the Puppeteer login, nodemailer, the SQL text and the log files. Their answers are parameters instead. `library/recorder.py` is not part of this model.
- Time zones are fixed offsets. The `zoneinfo` rules and daylight saving are not modelled, so the market-hours checks take the local weekday and time as inputs.
- The crontab console's randomness is left out. The exit code and duration of a simulated run are parameters.
- `toLocaleString` grouping, CSS class strings and the React rendering are left out. The colour bands are a datatype.
- KoreaManager: the Korean `get_positions_result` and the per-account exception handling around the broker calls are not modelled.
- Trader: `process_trading_rules` at trader.py:403 uses an undefined `manager`, and trader.py:377 calls `update_split_adjustment`, a name the database layer does not define. The model keeps each operation's intended logic and does not model the resulting `NameError` or `AttributeError`.
- refreshToken.js `main` (refreshToken.js:186-222) is not modelled. It uses `usersToProcess` and `sendEmailNotification`, which that file never defines.
- The calendar's yearly statistics and the dollar money formatting are not modelled.
- AssetCalendar.KrwText: has no contract of its own. It shows whole-won amounts without the browser's digit grouping.
- AssetCalendar.MonthRate: the month of a day is given by a `monthOf` parameter. JavaScript `Date` parsing and its local time zone are not modelled.
- Error texts such as "Cannot read properties of undefined" are engine-specific. The model uses V8's wording.
- CrontabService.ParseCrontab: reading `CRONTAB.md` and the regular-expression extraction of the `bash` code blocks are left to the caller. The model starts from whether the file exists and the blocks' text.
- CrontabService.SplitWords: separators are the ASCII white-space characters. Python's full Unicode white-space set is not modelled.
- HistoryMixin.SampledTotals: requires `max_points > 0`. A zero `max_points` with more than zero days would be a division by zero in the interval. Callers always pass the positive default.
- AssetCalendar.CellChange: states the rounded percentage only to within 0.005 of the exact one, not the exact `toFixed(2)` digits.
- AssetCalendar.RateOf: states the rounded rate only to within 0.005 of the exact one, not the exact `toFixed(2)` digits.
- CrontabManager.SuccessRate: states the rounded percentage only to within a half of the exact one.
- CrontabManager.AppendLogsKeepsNewest: covers at most 101 new entries, because older ones are dropped by then.
- Trader: the database writes (`update_account_hash`, `record_trade`) and the `SendMessage` alerts are not modelled. Only the position cache is, together with the alert's `KeyError` on a missing account.
- Trader: `time.sleep` is not modelled. The retry waits appear as the list of pauses that the load returns, and the one-second wait between rules is left out.
- Trader: the broker's answers for one rule are a `RuleInputs` value: its price, the cash, the ETF quotes and whether each order fills.
- Trader: the `while is_market_open` loop is modelled as one pass over the rules. The clock and the repetition are left out.
- ContributionManager: only a raising fetch window makes an account save nothing. A `get_client()` failure before any window, and exceptions inside `_filter_transactions` or `_save_transactions`, are not modelled separately.
- CrontabManager.VisibleLogs: its own contract states membership only. The order is stated by VisibleLogsKeepsOrder.
- TradeCalculator.CalculateBuyQuantity: its own ensures state only the cost and the shortfall. The quantity's value is stated by BuyQuantityValue and BuyQuantityIsMaximal, and the reasons by BuyStopReasons, InsufficientCashReason and FlexibleBuyShortfall.
- TradeCalculator.CalculateSellQuantity: its own ensures state only the revenue. The quantity's value is stated by SellQuantityValue and SellQuantityIsMaximal, and the reasons by SellReasons.
- AuthScript.ProcessUsers: the loop follows only the session's `authorizationCode`. The tokens each exchange and refresh store are modelled on their own, by TokensReceived and RefreshBody.
- AuthScript.ProcessUser: an earlier user's 300 s timer that fires during a later user's run, and a callback that arrives after the browser step threw, are not modelled.
- Routes.AddedRuleIsConverted: Python's `int()` and `float()` on the form strings are parameters, `None` where they raise. Whether the database call raises is a flag.
