# quanta-demo, modelled in Dafny

quanta-demo backtests a stock-picking strategy built on an "ESR" ranking.
The ranking scores stocks by EPS growth, sales growth and price performance.
The pipeline:

1. It reads index membership changes, financial statements, earning
   calendars and daily prices.
2. It cleans that data, merges statements into reports, and finds each
   stock's position in its report history on every rank date.
3. It computes the growth and performance factors and ranks the stocks of
   every period by a weighted composite of their average ranks.
4. It turns the monthly or weekly top-N picks into per-stock holding dates.
5. It simulates the "demo replace" portfolio. Held positions are marked
   to market from open to open. Delisted names are liquidated, names that
   left the selection are sold and new names are bought, with an optional
   monthly equal-weight rebalance. Every trade pays a proportional fee.
6. It reports returns, drawdowns, transaction totals and a buy-and-hold
   benchmark.

This project models those steps.

- Dates are day numbers, with a proleptic Gregorian calendar (`Calendar`).
- Prices and ratios are `real`. A value the source leaves as NaN or None is
  an `Option`.
- An exception the source lets escape is the `Err` of a `Result`.
- Functions whose source code is a loop that mutates state are `method`s.
  Each method is proved equal to a specification function. The properties
  the source promises are lemmas about those functions.
- Objects the source mutates in place are classes: a ticker list cleaned
  by `list.remove`, and a report dictionary merged by `dict.update`.

Modules follow the source files:

| module | source |
|---|---|
| `Strategy` | the demo-replace strategy |
| `Investment`, `DrawdownStats` | portfolio metrics |
| `Benchmark` | the buy-and-hold index benchmark |
| `Returns` | percentage changes and period returns shared by both |
| `Membership`, `BacktestDates`, `FirstDates` | holding dates per stock, backtest dates, first trading days |
| `EsrRank`, `AverageRank` | the ESR ranking loop, and pandas' average-method rank |
| `Scorings`, `Rsi` | growth, performance and RSI formulas |
| `Processors` | report merging, starting positions, factor inputs |
| `Symbols`, `TickerCleaning` | index membership and ticker exclusion |
| `Financials`, `Prices` | input cleaning and weekly close dates |
| `Calendar`, `Seqs`, `Strings`, `MapSums`, `Json`, `Wrappers` | shared support |

## Model

| member | source | states |
|---|---|---|
| Strategy.ComputePtfPerformance | src/backtests/strategies/demo/strategy_plugins/strategy_demo_replace.py:9-238 | The ledger is exactly `Simulate`: the first date's `Start` row, then one `Advance` per later portfolio date. Each exception the source lets escape is an `Err`, and no portfolio dates at all is the `KeyError` on the empty frame. |
| Strategy.Walk | src/backtests/strategies/demo/strategy_plugins/strategy_demo_replace.py:33-235 | Run after the first row, the loop over the remaining portfolio dates yields `Ledger` of all dates. |
| Strategy.Ledger | src/backtests/strategies/demo/strategy_plugins/strategy_demo_replace.py:33-235 | A successful ledger of the first k dates has k rows, dated by the portfolio dates in order, and its last row's holdings satisfy `Holds`. |
| Strategy.Extend | src/backtests/strategies/demo/strategy_plugins/strategy_demo_replace.py:83-235 | Extending a ledger appends exactly one row, dated by the new date, and `Holds` stays true. |
| Strategy.LedgerErr | src/backtests/strategies/demo/strategy_plugins/strategy_demo_replace.py:33-235 | Once a prefix of the ledger fails, every longer ledger fails with the same fault. |
| Strategy.Start | src/backtests/strategies/demo/strategy_plugins/strategy_demo_replace.py:35-76 | The first date fails exactly when no ticker is in the portfolio on that date (the division by `len(tickers)`) or the initial capital is zero (the share division). |
| Strategy.StartFacts | src/backtests/strategies/demo/strategy_plugins/strategy_demo_replace.py:36-76 | The first row holds exactly the target tickers, each at `init/n` less the fee. Invested is the initial capital, which equals the positions plus the replacement costs. Free cash is 0, nav equals invested, and the shares sum to 1 - fee. |
| Strategy.StartRow | src/backtests/strategies/demo/strategy_plugins/strategy_demo_replace.py:36-76 | The whole first row: counts, sorted tickers, bought list, costs `init*fee`, returns 0, and unset rebalance fields. |
| Strategy.StartSums | src/backtests/strategies/demo/strategy_plugins/strategy_demo_replace.py:41-62 | Splitting the capital evenly less the fee: the positions plus the fee add up to the capital, and the shares sum to 1 - fee. |
| Strategy.StartHolds | src/backtests/strategies/demo/strategy_plugins/strategy_demo_replace.py:35-76 | After the first date the carried ticker list is the sorted target of that date, and every held ticker has a capital entry. |
| Strategy.Step | src/backtests/strategies/demo/strategy_plugins/strategy_demo_replace.py:83-235 | One later date computes exactly `Advance`: mark to market, then `Settle`. |
| Strategy.AdvanceHolds | src/backtests/strategies/demo/strategy_plugins/strategy_demo_replace.py:83-200 | `Holds` is preserved: the new ticker list is the sorted target of the new date (`tickers = new_tickers`), and the capitals cover it. |
| Strategy.MarkHeld | src/backtests/strategies/demo/strategy_plugins/strategy_demo_replace.py:95-114 | One held ticker does exactly one iteration of `MarkOne`. Still quoted: it is marked to end/start open. Not quoted: it leaves the book, its capital less the fee goes to free cash, the fee to costs, and the count rises by one. A zero start price fails the step. |
| Strategy.MarkToMarket | src/backtests/strategies/demo/strategy_plugins/strategy_demo_replace.py:94-114 | The loop over held tickers computes `MarkSpec`, whatever the ticker order. A ticker quoted on the new date is scaled by end/start open. One without a quote is liquidated into free cash less the fee, counted, and popped. A zero start price is an `Err`. |
| Strategy.MarkFoldIsSpec | src/backtests/strategies/demo/strategy_plugins/strategy_demo_replace.py:94-114 | The ticker-by-ticker fold over a sorted distinct list equals the order-free specification `MarkSpec`. |
| Strategy.MarkedCaps | src/backtests/strategies/demo/strategy_plugins/strategy_demo_replace.py:111-114 | The marked positions are keyed exactly by the tickers still trading. |
| Strategy.MarkedCapIsRatio | src/backtests/strategies/demo/strategy_plugins/strategy_demo_replace.py:111-113 | `start_cap + start_cap*(end/start - 1)` is `cap * end / start`. |
| Strategy.MarkedNonNegative | src/backtests/strategies/demo/strategy_plugins/strategy_demo_replace.py:111-113 | With non-negative prices and capital, a marked position is non-negative. |
| Strategy.Sell | src/backtests/strategies/demo/strategy_plugins/strategy_demo_replace.py:143-166 | Selling computes `Liquidate` of exactly the names to sell that still have a position (a missing position is the skipped `KeyError`). |
| Strategy.SellFoldIsLiquidate | src/backtests/strategies/demo/strategy_plugins/strategy_demo_replace.py:146-165 | The sell loop over distinct names equals liquidating the set of them that is held. |
| Strategy.LiquidateNone | src/backtests/strategies/demo/strategy_plugins/strategy_demo_replace.py:146 | Liquidating nothing leaves the book unchanged (the `if tickers_to_sell` guard). |
| Strategy.LiquidateAdd | src/backtests/strategies/demo/strategy_plugins/strategy_demo_replace.py:147-165 | Liquidating one more name is one more close, and leaves the other positions untouched. |
| Strategy.Buy | src/backtests/strategies/demo/strategy_plugins/strategy_demo_replace.py:144-176 | Buying computes `Invest`: nothing when no name is new, otherwise the free cash split evenly, less the fee per name, with free cash set to 0. |
| Strategy.BuyEach | src/backtests/strategies/demo/strategy_plugins/strategy_demo_replace.py:169-175 | The buy loop over distinct names gives every name `free_cash/n` less its fee and adds each fee to the costs and count. |
| Strategy.BuyFoldIsPositions | src/backtests/strategies/demo/strategy_plugins/strategy_demo_replace.py:170-174 | The per-name loop adds exactly one position per name and one fee per name. |
| Strategy.BuyFoldIsBuyAll | src/backtests/strategies/demo/strategy_plugins/strategy_demo_replace.py:169-175 | The buy loop followed by `free_cash = 0` is `BuyAll`. |
| Strategy.Positions | src/backtests/strategies/demo/strategy_plugins/strategy_demo_replace.py:172 | The new positions are keyed exactly by the names bought. |
| Strategy.PositionsAdd | src/backtests/strategies/demo/strategy_plugins/strategy_demo_replace.py:172 | `update` of one more name extends the positions by that name. |
| Strategy.Rebalance | src/backtests/strategies/demo/strategy_plugins/strategy_demo_replace.py:182-197 | Rebalancing sets each position to the mean less the fee on its distance from the mean, charges the sum of those fees, and counts every position. |
| Strategy.RebalanceEach | src/backtests/strategies/demo/strategy_plugins/strategy_demo_replace.py:187-195 | The loop over positions computes `MoveFold`, with costs the sum of the per-name fees and a count of all names. |
| Strategy.MoveFoldIsMoved | src/backtests/strategies/demo/strategy_plugins/strategy_demo_replace.py:187-196 | The loop's fold equals the order-free map `Moved`. |
| Strategy.MovedAdd | src/backtests/strategies/demo/strategy_plugins/strategy_demo_replace.py:188-191 | Rebalancing one more name sets exactly that name's entry. |
| Strategy.Deviations | src/backtests/strategies/demo/strategy_plugins/strategy_demo_replace.py:192-194 | The rebalance fees are keyed by the positions. |
| Strategy.Rebalanced | src/backtests/strategies/demo/strategy_plugins/strategy_demo_replace.py:186-196 | The rebalanced positions are keyed by the old positions. |
| Strategy.SettleDay | src/backtests/strategies/demo/strategy_plugins/strategy_demo_replace.py:140-235 | Settling a date computes exactly `Settle`: sell, buy, optional rebalance on a first trading day of a month, then the row. An empty portfolio at a rebalance is an `Err`. |
| Strategy.SettleCases | src/backtests/strategies/demo/strategy_plugins/strategy_demo_replace.py:182-235 | A settled row is the recorded replacement, rebalanced exactly when rebalancing is on and the date is a first trading day of its month. |
| Strategy.LiquidateWorth | src/backtests/strategies/demo/strategy_plugins/strategy_demo_replace.py:103-107 | Closing positions keeps positions + free cash + costs constant: every cent released goes either to cash or to fees. Likewise at strategy_demo_replace.py:149-165. |
| Strategy.InvestWorth | src/backtests/strategies/demo/strategy_plugins/strategy_demo_replace.py:168-175 | Buying new names keeps positions + free cash + costs constant. |
| Strategy.AddedPositions | src/backtests/strategies/demo/strategy_plugins/strategy_demo_replace.py:172 | Adding n new positions of equal size adds n times that size to the capital. |
| Strategy.SpentInParts | src/backtests/strategies/demo/strategy_plugins/strategy_demo_replace.py:169-173 | n buys of `x/n` less the fee, plus n fees, spend exactly x. |
| Strategy.RebalanceWorth | src/backtests/strategies/demo/strategy_plugins/strategy_demo_replace.py:184-196 | After a rebalance the positions plus the fees charged equal the capital before it. |
| Strategy.SettleWorth | src/backtests/strategies/demo/strategy_plugins/strategy_demo_replace.py:143-238 | nav + replacement costs + rebalance costs of the settled row equals the book's worth before selling. |
| Strategy.AdvanceConserves | src/backtests/strategies/demo/strategy_plugins/strategy_demo_replace.py:94-238 | On every later date, nav + all costs equals the marked positions of the trading names plus the untradeable positions plus the carried free cash. Fees are the only leak. |
| Strategy.FeeSplit | src/backtests/strategies/demo/strategy_plugins/strategy_demo_replace.py:103-105 | A fee on a sum is the sum of the fees, so cash and costs can be accumulated one trade at a time. Likewise at strategy_demo_replace.py:150-151. |
| Strategy.ReplaceZeroFee | src/backtests/strategies/demo/strategy_plugins/strategy_demo_replace.py:103-175 | A zero fee generates no replacement cost. |
| Strategy.RebalanceZeroFee | src/backtests/strategies/demo/strategy_plugins/strategy_demo_replace.py:184-196 | A zero fee costs nothing, sets every position to the mean, and keeps the capital. |
| Strategy.SettleZeroFee | src/backtests/strategies/demo/strategy_plugins/strategy_demo_replace.py:143-235 | With a zero fee a settled row has no costs, and after a rebalance every position equals invested / n. |
| Strategy.AdvanceZeroFee | src/backtests/strategies/demo/strategy_plugins/strategy_demo_replace.py:94-235 | With a zero fee a later row has no costs, and after a rebalance every position equals invested / n. |
| Strategy.SharesOf | src/backtests/strategies/demo/strategy_plugins/strategy_demo_replace.py:207-212 | The shares are empty when invested is 0 (the ZeroDivisionError path), and otherwise keyed by the positions with share * invested == capital. |
| Strategy.SharesSum | src/backtests/strategies/demo/strategy_plugins/strategy_demo_replace.py:207-212 | With invested nonzero, the shares sum to total capital / invested. |
| Strategy.RecordShares | src/backtests/strategies/demo/strategy_plugins/strategy_demo_replace.py:197 | A recorded row has invested = the sum of its positions and nav = invested + free cash, and its shares sum to 1 whenever invested is nonzero. Likewise at strategy_demo_replace.py:207-238. |
| Strategy.AdvanceShares | src/backtests/strategies/demo/strategy_plugins/strategy_demo_replace.py:122-238 | Every later row has invested = the sum of its positions and nav = invested + free cash, and its shares sum to 1 whenever invested is nonzero. |
| Strategy.FeeNonNegative | src/backtests/strategies/demo/strategy_plugins/strategy_demo_replace.py:103 | A fee rate in [0, 1] charges between 0 and the amount. Likewise at strategy_demo_replace.py:150, strategy_demo_replace.py:171. |
| Strategy.LiquidateNonNegative | src/backtests/strategies/demo/strategy_plugins/strategy_demo_replace.py:103-107 | Liquidating keeps cash, costs and positions non-negative. Likewise at strategy_demo_replace.py:149-165. |
| Strategy.InvestNonNegative | src/backtests/strategies/demo/strategy_plugins/strategy_demo_replace.py:168-175 | Buying keeps cash, costs and positions non-negative. |
| Strategy.DeviationsNonNegative | src/backtests/strategies/demo/strategy_plugins/strategy_demo_replace.py:192-194 | Rebalance fees are non-negative. |
| Strategy.SettleCostsNonNegative | src/backtests/strategies/demo/strategy_plugins/strategy_demo_replace.py:143-235 | A settled row's replacement and rebalance costs are non-negative. |
| Strategy.AdvanceCostsNonNegative | src/backtests/strategies/demo/strategy_plugins/strategy_demo_replace.py:94-235 | With non-negative quotes, capital and cash, every later row's costs are non-negative. |
| Investment.NavColumnFirstPresent | src/backtests/investment.py:15-20 | The nav column is the first present of `nav` and `<name>_nav`, and it is absent (the `KeyError`) only when the frame has neither. |
| Investment.CumulativeTelescopes | src/backtests/investment.py:28-30 | The compounded product of `1 + pct_change` less one telescopes to last nav / first nav - 1. |
| Investment.ChangeSign | src/backtests/investment.py:185-186 | With a positive base, a change is positive exactly when the value rose, and negative exactly when it fell. |
| Investment.CountsAreRisesAndFalls | src/backtests/investment.py:185-186 | On a positive nav, the positive and negative months are exactly the day-to-day rises and falls. |
| Investment.CountsBounded | src/backtests/investment.py:185-186 | Positive and negative counts together never exceed the number of returns. |
| Investment.FirstReturnUncounted | src/backtests/investment.py:22-26 | The first return is NaN, so positive + negative months is less than the nav length. Likewise at investment.py:185-186. |
| Investment.PreviousPeaks | src/backtests/investment.py:48-52 | `cummax`: the same length, starting at the first nav, at least every nav seen so far, and non-decreasing. |
| Investment.PeakAttained | src/backtests/investment.py:48-52 | Every running peak is a nav value at or before its position. |
| Investment.PeakStep | src/backtests/investment.py:48-52 | Each running peak is the max of the previous peak and the current nav. |
| Investment.PeaksPrefix | src/backtests/investment.py:48-52 | The running peaks of a prefix are the prefix of the running peaks. |
| Investment.Drawdowns | src/backtests/investment.py:54-58 | One drawdown per nav date. |
| Investment.DrawdownSign | src/backtests/investment.py:54-58 | Below a positive peak, a drawdown is defined and non-positive, and zero exactly at the peak. |
| Investment.DrawdownsNonPositive | src/backtests/investment.py:54-58 | Every drawdown against a positive peak is defined and at most 0, and 0 exactly where the nav is at its peak. |
| Investment.MinDefined | src/backtests/investment.py:187 | `Series.min()` with NaN skipped: undefined iff every value is NaN, and otherwise a value of the series no larger than any defined value. |
| Investment.MaxDefined | src/backtests/investment.py:181 | `Series.max()` with NaN skipped: undefined iff all are NaN, and otherwise an attained upper bound of the defined values. |
| Investment.MaxDrawdownFacts | src/backtests/investment.py:187 | On a positive nowhere-empty nav the maximum drawdown is defined and at most 0, and it is 0 exactly when the nav never falls below its running peak. |
| Investment.CountDefined | src/backtests/investment.py:185-186 | The number of defined values is at most the length, and 0 exactly when all are NaN. |
| Investment.SumDefinedAppend | src/backtests/investment.py:103-164 | `sum(skipna=True)` is additive over concatenated columns. |
| Investment.SumDefinedNonNegative | src/backtests/investment.py:103-164 | A column of non-negative defined values sums to a non-negative total. |
| Investment.ColumnTotalAppend | src/backtests/investment.py:103-164 | The total of a column split over two frames is the sum of their totals. |
| Investment.ComputeMetrics | src/backtests/investment.py:177-198 | The metrics exist iff the nav is nonempty. The last value is the final nav, days invested is the nav length, the max value is an attained upper bound, and positive + negative months is less than the nav length. For a positive nav, the cumulative return is last/first − 1, the positive and negative months are the rises and falls, and the max drawdown is defined, ≤ 0, and 0 exactly when the nav never falls below its peak. Each transaction total is the skipna sum of its column, and NaN (None) when the frame has no such column. |
| Investment.ComputePeriodReturns | src/backtests/investment.py:200-204 | Undefined (the `.loc` `KeyError`) iff some selected date is not a nav date. Otherwise there is one return per selected date, the first NaN, and each later one the change of the nav between consecutive selected dates. |
| Investment.MeanDefined | src/backtests/investment.py:246-249 | The mean is NaN exactly when no value is defined. |
| Investment.ShareStatsRow | src/backtests/investment.py:238-249 | Each day gets exactly three statistics. |
| Investment.ShareStats | src/backtests/investment.py:231-251 | One statistics row per day. |
| Investment.SumDefinedBounds | src/backtests/investment.py:246-249 | n defined values between lo and hi sum to between n*lo and n*hi. |
| Investment.MeanBetween | src/backtests/investment.py:246-249 | A sum between n*lo and n*hi gives a mean between lo and hi. |
| Investment.ShareStatsRowFacts | src/backtests/investment.py:238-249 | The three statistics are the max, min and mean of the ticker shares, each computed over the share columns only (not the statistics added before it), and min <= mean <= max when any share is defined. |
| DrawdownStats.ComputeDrawdownsStats | src/backtests/investment.py:64-101 | Fails (None) exactly on an empty nav, where no group exists and the empty frame has no `max drawdown` column to sort by. Otherwise the loops compute `Stats`: the episodes of the running-peak groups, with the non-negative ones dropped, sorted by maximum drawdown. |
| DrawdownStats.StatsFacts | src/backtests/investment.py:89-90 | The stats are sorted by maximum drawdown and all strictly negative. They are a sub-multiset of the episodes and contain every episode with a negative maximum drawdown. |
| DrawdownStats.SortedDeepFacts | src/backtests/investment.py:89-90 | Filtering the episodes to those below zero and sorting them gives a list ordered by depth, all below zero, a sub-multiset of the episodes, and holding every episode below zero. |
| DrawdownStats.PeakGroups | src/backtests/investment.py:66-67 | The `groupby` groups of the running peaks are consecutive ranges that cover every date, hold exactly the dates of one peak value, start where the peak changes, and come in increasing peak order. |
| DrawdownStats.Summarise | src/backtests/investment.py:73-87 | The stats loop yields one `EpisodeOf` per peak group, in order. |
| DrawdownStats.ScanGroup | src/backtests/investment.py:74-86 | One group's scan finds where the group ends, its lowest drawdown and the first date where that lowest value is reached. |
| DrawdownStats.KeepDeep | src/backtests/investment.py:90 | The filter keeps exactly `Deep` of the episodes. |
| DrawdownStats.Deep | src/backtests/investment.py:90 | The kept episodes all have a strictly negative maximum drawdown, come from the input, and include every such episode. |
| DrawdownStats.InsertByDrawdown | src/backtests/investment.py:89 | Inserting adds exactly one episode. |
| DrawdownStats.InsertSorted | src/backtests/investment.py:89 | Insertion keeps a list sorted by maximum drawdown. |
| DrawdownStats.SortByDrawdown | src/backtests/investment.py:89 | `sort_values` returns a permutation sorted by maximum drawdown. |
| DrawdownStats.EpisodeOf | src/backtests/investment.py:75-87 | An episode starts at its group's first date and counts its dates. Its maximum drawdown is the group's lowest. The timing is the first date where that lowest value occurs, and periods-to-max is that date's offset in the group. |
| DrawdownStats.EpisodesOf | src/backtests/investment.py:74-87 | One episode per group, in order. |
| DrawdownStats.LowestInFacts | src/backtests/investment.py:78-80 | The lowest drawdown of a range is attained, bounds the range from below, and its first occurrence precedes no smaller value. |
| DrawdownStats.EpisodeFacts | src/backtests/investment.py:75-87 | An episode's maximum drawdown is at most 0. It starts no later than any of its dates and is below every drawdown in its group. It is attained at its timing, and never reached earlier. |
| DrawdownStats.Depths | src/backtests/investment.py:54-58 | On a positive nav every drawdown is defined. |
| DrawdownStats.RunEnd | src/backtests/investment.py:66-67 | A group extends exactly to the next change of peak. |
| DrawdownStats.Runs | src/backtests/investment.py:66-67 | Every group is a nonempty range of dates. |
| DrawdownStats.RunsConsecutive | src/backtests/investment.py:66-67 | The groups are adjacent and cover every date. |
| DrawdownStats.RunsClasses | src/backtests/investment.py:66-67 | On non-decreasing peaks, each group holds every date of its peak value and no other. |
| DrawdownStats.RunsIncreasing | src/backtests/investment.py:66-67 | Groups come in strictly increasing peak order (`sort=True`). |
| DrawdownStats.RunStartIsPeak | src/backtests/investment.py:48-67 | Where the running peak changes, the nav itself is the new peak. |
| DrawdownStats.DepthAtGroupStart | src/backtests/investment.py:54-67 | Each group's first drawdown is 0. |
| Benchmark.OpenPrices | src/backtests/benchmark.py:13-24 | The open prices of the upper-cased ticker, sorted and restricted to start..end inclusive. An unknown ticker, or one without any quote, gives a frame with no `Open` column (a `KeyError`). A ticker with quotes but none inside start..end gives an empty series. |
| Benchmark.Nav | src/backtests/benchmark.py:34-41 | The nav is undefined exactly when there is no price (`iloc[0]` fails). Otherwise it has one value per price, and the first is the initial capital. |
| Benchmark.Compounded | src/backtests/benchmark.py:37-38 | `(1 + returns).cumprod() * init`, first value overwritten with init: NaN exactly where the return is NaN, and otherwise init times the product of the growths so far. |
| Benchmark.CompoundedStep | src/backtests/benchmark.py:37 | Each compounded value is the previous one grown by that day's return. |
| Benchmark.NavIsBuyAndHold | src/backtests/benchmark.py:26-41 | With nonzero opens, every nav value is `init * open[i] / open[0]`: the benchmark is buy and hold. |
| Benchmark.NavAt | src/backtests/benchmark.py:26-41 | The nav on day i is the buy-and-hold value of that day. |
| Benchmark.NavStep | src/backtests/benchmark.py:26-41 | Each nav value is the previous one grown by that day's percentage change. |
| Benchmark.ComputePeriodReturns | src/backtests/benchmark.py:43-48 | Undefined (the `.loc` `KeyError`) iff some selected date has no price. Otherwise the first is NaN and each later one is the change between consecutive selected dates. |
| Returns.Change | src/backtests/benchmark.py:29 | `pct_change` of one step: undefined exactly when the base is 0, and otherwise `(r + 1) * base == x`. Likewise at investment.py:24, and for `returns_on_invested` at strategies/demo/strategy_plugins/strategy_demo_replace.py:124-130, which is undefined when the still-quoted positions started from a total of zero. |
| Returns.PctChange | src/backtests/benchmark.py:29 | Same length, first NaN, each later value undefined iff the previous value is 0, and otherwise the ratio less one. Likewise at investment.py:24. |
| Returns.PctChangePrefix | src/backtests/investment.py:24 | The changes of a prefix are the prefix of the changes. |
| Returns.GrowthTelescopes | src/backtests/investment.py:28-30 | With nonzero values, the product of `1 + change` over the first k days is `v[k-1] / v[0]`. Likewise at benchmark.py:37. |
| Returns.GrowthProductAppend | src/backtests/investment.py:30 | The growth product of a longer series is multiplied by the new growth. |
| Returns.TelescopeStep | src/backtests/investment.py:30 | One more telescoping factor turns b/a into c/a. |
| Returns.IndexOf | src/backtests/investment.py:202 | `.loc[label]`: the first position holding the label. Likewise at benchmark.py:45. |
| Returns.Select | src/backtests/investment.py:202 | `.loc[selected]` fails iff some label is missing. Otherwise it has the value of each selected label, in the selected order. Likewise at benchmark.py:45. |
| Returns.PeriodReturns | src/backtests/investment.py:200-204 | `.loc[selected].pct_change()`: undefined iff some label is missing, otherwise first NaN and then the change between consecutive selected labels. Likewise at benchmark.py:43-48. |
| FirstDates.FirstTradingDatesOfMonth | src/backtests/dates/period_first_dates.py:5-27 | Fails (`int_dates[0]`) exactly when there is no rank date. Otherwise strictly ascending, holding exactly the earliest backtest date of every month spanned by the `MS` interval range from the first rank date to the last + 4 weeks. Months without a backtest date contribute nothing. |
| FirstDates.FirstTradingDatesOfYear | src/backtests/dates/period_first_dates.py:30-50 | Succeeds exactly when there are rank dates and every spanned year up to the last rank date + 52 weeks has a backtest date. A failure names a spanned year without one (the `trading_dates[0]` `IndexError`). On success, the earliest backtest date of every spanned year, ascending. |
| FirstDates.CollectYears | src/backtests/dates/period_first_dates.py:45-49 | The loop over the years stops at year k: either at a spanned year without a backtest date, or past the last spanned year. The first trading days of all earlier years are collected, in order. |
| FirstDates.CollectYear | src/backtests/dates/period_first_dates.py:46-49 | One year of the loop stops exactly when that year has no backtest date, and then leaves the year and the list unchanged. Otherwise it appends the year's first trading day and moves on to the next year. Either way the collected-list invariant and the every-year-traded invariant hold for the year it ends on. |
| FirstDates.TradingDays | src/backtests/dates/period_first_dates.py:21-48 | The backtest dates in one bucket (both ends of the `date_range`, less its last day), strictly ascending. |
| FirstDates.Bucket | src/backtests/dates/period_first_dates.py:12-17 | Every date lies in exactly one `MS`/`YS` bucket. |
| FirstDates.BucketUnique | src/backtests/dates/period_first_dates.py:12-17 | The bucket of a date is unique. |
| FirstDates.FirstBucketFrom | src/backtests/dates/period_first_dates.py:12-17 | The first anchor on or after the start date. |
| FirstDates.FirstIsEarliest | src/backtests/dates/period_first_dates.py:23-25 | The first element of a bucket's trading days is the bucket's earliest backtest date, and the only one. |
| FirstDates.CollectStep | src/backtests/dates/period_first_dates.py:20-25 | One loop step keeps the collected dates equal to the earliest dates of the buckets passed. |
| FirstDates.CollectFound | src/backtests/dates/period_first_dates.py:24-25 | Appending a bucket's first trading day keeps the loop invariant. |
| FirstDates.CollectedEnd | src/backtests/dates/period_first_dates.py:19-27 | At the end of the intervals, the collected dates are exactly the earliest dates of the spanned buckets. |
| FirstDates.SpannedBelow | src/backtests/dates/period_first_dates.py:12-17 | A bucket is spanned exactly when it starts on or after the start and precedes the stopping bucket. |
| FirstDates.TradedIff | src/backtests/dates/period_first_dates.py:48-49 | A bucket has trading days exactly when some backtest date falls in it. |
| FirstDates.YearMissing | src/backtests/dates/period_first_dates.py:48-49 | A spanned year without a backtest date makes the source fail. |
| FirstDates.TradedToEnd | src/backtests/dates/period_first_dates.py:44-49 | If every year passed had a trading day, every spanned year has one. |
| BacktestDates.GetBacktestDates | src/backtests/dates/backtest_dates.py:6-14 | `sorted(set(...))` of all holding dates: strictly ascending, and d is in it exactly when some stock holds d. Nothing is lost, and no stocks means no dates. |
| Membership.StocksDatesInPtf | src/backtests/dates/dates_in_ptf_plugins/dates_monthly.py:5-68 | Succeeds exactly when every period's selection succeeds and every picked stock has prices. A failure is the first period's error: the missing `is_sma_below` column, or the `stocks_prices[stock]` `KeyError`. On success there is one selection per period, and the table holds exactly the picked stocks. Each list is strictly ascending and holds exactly the stock's trading days inside the window of a rank date that picked it. Likewise at dates_weekly.py:20-54. |
| Membership.StorePeriod | src/backtests/dates/dates_in_ptf_plugins/dates_monthly.py:54-67 | Storing one period's picks succeeds iff every pick has prices. The new table adds each pick's window trading days to its old days, sorted and deduplicated, and leaves the other stocks alone. Likewise at dates_weekly.py:40-53. |
| Membership.PeriodStep | src/backtests/dates/dates_in_ptf_plugins/dates_monthly.py:53-67 | One period stored keeps the table equal to the days covered by the picks so far. |
| Membership.StoredPicksStep | src/backtests/dates/dates_in_ptf_plugins/dates_monthly.py:54-67 | One stock stored keeps the per-period invariant. |
| Membership.CoveredSnoc | src/backtests/dates/dates_in_ptf_plugins/dates_monthly.py:53-67 | A day is covered after another period exactly when it was before, or the stock is picked now and the day is in the new window. |
| Membership.PickedSnoc | src/backtests/dates/dates_in_ptf_plugins/dates_monthly.py:62-64 | A stock is in the table after a period exactly when it was before or is picked now. |
| Membership.TabledAscending | src/backtests/dates/dates_in_ptf_plugins/dates_monthly.py:67 | Every stored list is strictly ascending. Likewise at dates_weekly.py:53. |
| Membership.SelectionFails | src/backtests/dates/dates_in_ptf_plugins/dates_monthly.py:30-32 | A failing selection is the first failure. |
| Membership.StoreFails | src/backtests/dates/dates_in_ptf_plugins/dates_monthly.py:56 | A picked stock without prices is the first failure. Likewise at dates_weekly.py:42. |
| Membership.PeriodPasses | src/backtests/dates/dates_in_ptf_plugins/dates_monthly.py:20-67 | A passing period extends the passing prefix. |
| Membership.PicksSnoc | src/backtests/dates/dates_in_ptf_plugins/dates_monthly.py:34-38 | The selections returned are those of the periods in order. |
| Membership.Selection | src/backtests/dates/dates_in_ptf_plugins/dates_monthly.py:24-38 | Fails exactly when SMA filtering is on and the table has no `is_sma_below` column. Otherwise it returns the names, sorted and distinct, of the top N rows by `rank` among the rows left after the optional `iloc[:rs_limit-1]` RS limit and SMA filter. The weekly plugin's last column is `rank`. Likewise at dates_weekly.py:22-33. |
| Membership.TopByRank | src/backtests/dates/dates_in_ptf_plugins/dates_monthly.py:35-37 | `sort_values(ascending=False).iloc[:n]`: Python slice length, drawn from the rows, and no row left out ranks above a row kept. |
| Membership.SortByRank | src/backtests/dates/dates_in_ptf_plugins/dates_monthly.py:26-36 | A permutation in descending rank. |
| Membership.InsertByRank | src/backtests/dates/dates_in_ptf_plugins/dates_monthly.py:36 | Insertion keeps the descending order and adds exactly one row. |
| Membership.ConsDescending | src/backtests/dates/dates_in_ptf_plugins/dates_monthly.py:36 | A row ranked at least as high as all others can head a descending list. |
| Membership.PrefixOfDescending | src/backtests/dates/dates_in_ptf_plugins/dates_monthly.py:36-37 | A prefix of a descending permutation outranks everything it leaves out. |
| Membership.FilterSma | src/backtests/dates/dates_in_ptf_plugins/dates_monthly.py:31-32 | `query('is_sma_below == 0')` keeps exactly the rows whose value is 0, with their multiplicity. A NaN value is not kept. |
| Membership.MonthlyWindow | src/backtests/dates/dates_in_ptf_plugins/dates_monthly.py:42-52 | The monthly window (`interval_range(periods=1, freq='ME')` without its left end) is exactly the calendar month after the rank date's month. The rank date itself is never in it. |
| Membership.WeeklyWindow | src/backtests/dates/dates_in_ptf_plugins/dates_weekly.py:35-38 | The weekly window (`date_range(periods=8)[3:]`) is rank date +3 .. +7. The rank date is not in it. |
| Membership.WindowDays | src/backtests/dates/dates_in_ptf_plugins/dates_monthly.py:56-60 | A stock's window days are its trading days inside the window, strictly ascending. Likewise at dates_weekly.py:42-46. |
| Membership.Incorporate | src/backtests/dates/dates_in_ptf_plugins/dates_monthly.py:62-67 | A stock's list becomes the sorted union of its old days and the window days, and the other stocks are unchanged. Likewise at dates_weekly.py:48-53. |
| Seqs.Ascending | src/backtests/dates/backtest_dates.py:14 | `sorted(set(xs))`: strictly ascending, with exactly the elements of xs. |
| Seqs.MergeUnion | src/backtests/dates/dates_in_ptf_plugins/dates_monthly.py:65-67 | `sorted(set(a + b))` of two ascending lists: strictly ascending, holding exactly the elements of both. |
| Seqs.DaysIn | src/backtests/dates/dates_in_ptf_plugins/dates_monthly.py:58-60 | The days of a set inside [lo, hi], strictly ascending, and all of them. |
| Strings.Sorted | src/symbols/getters.py:64 | `sorted(set(...))` of strings: strictly ascending, with exactly the set's elements. |
| EsrRank.ComputeRankedData | src/ranks/esr/rank.py:4-60 | The loop ranks every period on its own and keeps the period keys, in order. It fails exactly when some period has no stock (`score['eps_growth']` on an empty frame), naming such a period. |
| EsrRank.RankPeriod | src/ranks/esr/rank.py:15-58 | A period's table fails iff it is empty. Otherwise it has one row per stock, the same ticker, and the factors with NaN filled by 0. |
| EsrRank.Fill | src/ranks/esr/rank.py:17-19 | Every factor column is filled with 0 where NaN, and kept otherwise. The technical columns (beyond the ninth) are left as they are. |
| EsrRank.RanksBounded | src/ranks/esr/rank.py:21-56 | Every sub-rank and the composite rank lie between 1 and the number of stocks. |
| EsrRank.CompositeOfSubRanks | src/ranks/esr/rank.py:48-52 | Since re-ranking a rank changes nothing, the composite score is the weighted sum of the eps, sales and price ranks themselves. |
| EsrRank.CompositeScoresAt | src/ranks/esr/rank.py:48-52 | The composite score is the weighted sum of the re-ranked sub-ranks. |
| EsrRank.SubRanksIdempotent | src/ranks/esr/rank.py:24-51 | Ranking a sub-rank column again returns it unchanged. |
| EsrRank.AllZeroWeightsTie | src/ranks/esr/rank.py:48-52 | With all three composite weights 0, every stock ties at the average rank (n + 1) / 2. |
| EsrRank.ZeroSalesWeightIgnoresSales | src/ranks/esr/rank.py:30-52 | With a zero sales weight, the sales factors do not affect the composite rank. |
| EsrRank.RowsSwap | src/ranks/esr/rank.py:15-56 | Exchanging two stocks exchanges their rows and changes nothing else: a stock's ranks do not depend on its position in the table. |
| EsrRank.CompositeSwap | src/ranks/esr/rank.py:48-52 | The composite scores follow an exchange of stocks. |
| EsrRank.SubRanksSwap | src/ranks/esr/rank.py:21-42 | The sub-ranks follow an exchange of stocks. |
| EsrRank.SubScoresSwap | src/ranks/esr/rank.py:21-42 | The weighted sub-scores follow an exchange of stocks. |
| EsrRank.AssembleSwap | src/ranks/esr/rank.py:26-56 | The merged rows follow an exchange of stocks. |
| EsrRank.RankSwap | src/ranks/esr/rank.py:24 | `rank()` commutes with exchanging two entries. |
| EsrRank.Rows | src/ranks/esr/rank.py:15-56 | One row per stock. |
| AverageRank.Rank | src/ranks/esr/rank.py:22-24 | `Series.rank()` (method 'average'): the rank of each entry is 1 + the number of smaller entries + half the number of other equal entries. |
| AverageRank.RankOrder | src/ranks/esr/rank.py:22-24 | The ranks preserve the order: an entry is smaller exactly when its rank is smaller, and equal exactly when its rank is equal. |
| AverageRank.RankBounds | src/ranks/esr/rank.py:22-24 | Every rank lies between 1 and n. |
| AverageRank.RankSum | src/ranks/esr/rank.py:22-24 | The ranks sum to n(n+1)/2, as with distinct ranks 1..n. |
| AverageRank.RankPermutation | src/ranks/esr/rank.py:15-24 | A rank does not depend on the order of the entries. |
| AverageRank.RankOfMultiset | src/ranks/esr/rank.py:22-24 | The rank of a value depends only on the multiset of entries. |
| AverageRank.RankConstant | src/ranks/esr/rank.py:22-24 | Equal entries all get the average rank (n + 1) / 2. |
| AverageRank.RankIdempotent | src/ranks/esr/rank.py:24-52 | Ranking a rank column again returns it unchanged. |
| AverageRank.RankOfIncreasing | src/ranks/esr/rank.py:22-24 | A strictly larger value has a strictly larger rank. |
| AverageRank.Count | src/ranks/esr/rank.py:22-24 | A count of entries is at most n. |
| AverageRank.CountPartition | src/ranks/esr/rank.py:22-24 | Every entry is below, equal to, or above a value. |
| AverageRank.CountMultiset | src/ranks/esr/rank.py:22-24 | The counts depend only on the multiset of entries. |
| AverageRank.SumRankOf | src/ranks/esr/rank.py:22-24 | Twice a sum of ranks is a count of ordered pairs. |
| AverageRank.TotalSwap | src/ranks/esr/rank.py:22-24 | The pairs below one way are the pairs above the other way. |
| Scorings.YoyGrowth | src/ranks/esr/scorings.py:9-17 | The last k quarters (Python `iloc[-k:]` length) of the year-over-year growth. Each value is defined iff both readings four quarters apart are defined and the earlier is nonzero (a zero base gives inf, taken as undefined). |
| Scorings.QtqGrowth | src/ranks/esr/scorings.py:20-27 | The same with a one-quarter lag. |
| Scorings.YoyDifference | src/ranks/esr/scorings.py:30-37 | The last k quarters of the four-quarter difference, each defined iff both readings are. |
| Scorings.QtqDifference | src/ranks/esr/scorings.py:40-47 | The last k quarters of the one-quarter difference. |
| Scorings.DiffAt | src/ranks/esr/scorings.py:34-44 | `diff(periods=lag)` at one position: defined iff the lagged reading exists and both are defined, and then `earlier + d == later`. |
| Scorings.GrowthAt | src/ranks/esr/scorings.py:14-24 | The growth at one position is defined iff the difference is and the base is nonzero, and then `g * abs(base) == difference`. |
| Scorings.GrowthSign | src/ranks/esr/scorings.py:14-24 | A growth is positive exactly when the reading rose, and negative exactly when it fell. |
| Scorings.GrowthRecovers | src/ranks/esr/scorings.py:14-24 | The later reading is recovered from the earlier one and the growth. |
| Scorings.GrowthIsDifferenceOverBase | src/ranks/esr/scorings.py:14-34 | Where a growth is defined, so is the difference, and the growth is the difference over the absolute base. |
| Scorings.ShortSeriesHasNoGrowth | src/ranks/esr/scorings.py:14-15 | A series no longer than the lag has no defined growth. |
| Scorings.Kept | src/ranks/esr/scorings.py:15 | `iloc[-k:]` keeps k elements when 0 < k <= n, and all of them when k is 0 or larger than n. |
| Scorings.LastGrowth | src/ranks/esr/scorings.py:15-25 | The kept growths are the last ones of the series, in order. |
| Scorings.LastDifferences | src/ranks/esr/scorings.py:35-45 | The kept differences are the last ones of the series, in order. |
| Scorings.EpsGrowth | src/ranks/esr/scorings.py:50-56 | Undefined exactly when either four-quarter sum is NaN or the earlier sum is zero. That includes four or fewer quarters, where the earlier slice is empty (the caught ZeroDivisionError). Otherwise the growth times the absolute earlier sum is the change of the sums. |
| Scorings.EpsWindows | src/ranks/esr/scorings.py:53 | With eight or more quarters, `eps[-4:]` and `eps[-8:-4]` are the last four quarters and the four before them. |
| Scorings.EpsGrowthNeedsFiveQuarters | src/ranks/esr/scorings.py:53-56 | Four or fewer quarters give NaN. |
| Scorings.EpsGrowthSign | src/ranks/esr/scorings.py:53 | The EPS growth is positive exactly when the recent sum exceeds the earlier one, and negative exactly when it is below it. |
| Scorings.MeanSalesGrowth | src/ranks/esr/scorings.py:59-63 | `mean()` with NaN skipped: NaN exactly when no growth is defined. |
| Scorings.MeanSalesGrowthBetween | src/ranks/esr/scorings.py:59-63 | The mean lies between the bounds of the defined growths. |
| Scorings.MonthEndOnOrBefore | src/ranks/esr/scorings.py:100-101 | The last month end on or before a date (the right end of a `ME` interval). |
| Scorings.TradingDays | src/ranks/esr/scorings.py:102-107 | The quoted days between the window ends, both included, strictly ascending. |
| Scorings.PricePerformance | src/ranks/esr/scorings.py:108-113 | NaN exactly when no day is quoted (IndexError), a close is missing (TypeError) or the first close is zero (ZeroDivisionError). Otherwise `(r + 1) * first close == last close`. |
| Scorings.TradingDaysEnds | src/ranks/esr/scorings.py:109-110 | A quoted day in the window lies between the first and the last trading day used. |
| Scorings.QuarterWindows | src/ranks/esr/scorings.py:100-101 | The window of period p ends at the p-th quarter end before the rank date and starts at the next older one, so the windows are nonempty and never go past the rank date. |
| Scorings.MonthEndBefore | src/ranks/esr/scorings.py:100-101 | Month ends are strictly increasing. |
| Rsi.ComputeRsi | src/indicators/rsi.py:16-24 | The index over the last `period` prices is NaN exactly when that window is empty or has neither gains nor losses (0/0). |
| Rsi.ComputeRsiIsGainShare | src/indicators/rsi.py:16-24 | `100 - 100/(1 - rs)` is the gains' share of the total movement in percent: `GainShareOf` states r·(gains − losses) = 100·gains over the last `period` prices. So the index lies in [0, 100]. |
| Rsi.ComputeRsiUsesLastPrices | src/indicators/rsi.py:18 | Only the last `period` prices matter: prepending older prices changes nothing. |
| Rsi.RsiOf | src/indicators/rsi.py:22-23 | From the mean gain and loss: NaN exactly when both are 0. A zero loss gives 100, the IEEE value of `100 - 100/(1 - inf)`. |
| Rsi.RsiIsGainShare | src/indicators/rsi.py:22-23 | The index is `100 * gain / (gain - loss)`, lies in [0, 100], is 100 exactly when there is no loss, and is 0 exactly when there is no gain. |
| Rsi.ShareBounds | src/indicators/rsi.py:22-23 | With a negative mean loss, rs <= 0 and the index is in [0, 100). |
| Rsi.ShareForm | src/indicators/rsi.py:22-23 | `100 - 100/(1 - g/l)` equals `100 * g / (g - l)` for l < 0. |
| Rsi.GainAt | src/indicators/rsi.py:8-20 | A gain is never negative. |
| Rsi.LossAt | src/indicators/rsi.py:9-21 | A loss is never positive. |
| Rsi.GainLossSplit | src/indicators/rsi.py:19-21 | Every delta is its gain plus its loss, and at most one of them is nonzero. The undefined first delta counts as 0 in both. |
| Rsi.MeansCancel | src/indicators/rsi.py:22 | Dividing both sums by the window length does not change the share. |
| Rsi.RsiSeries | src/indicators/rsi.py:5-13 | One value per price. The first period - 1 values (the incomplete rolling windows) are NaN, and each later one is the index of its rolling window. |
| Rsi.RsiSeriesStartsAsComputeRsi | src/indicators/rsi.py:5-24 | The first complete window's value equals `compute_rsi` of the first `period` prices. |
| Rsi.RsiSeriesBounds | src/indicators/rsi.py:5-13 | Every defined value lies in [0, 100]. |
| Symbols.CurrentIndexTickersAppend | src/symbols/getters.py:6-8 | The current tickers are one symbol per constituent in constituent order, additive over concatenation, and a constituent without a symbol gives `Null`. |
| Symbols.ScanChanges | src/symbols/getters.py:41-49 | The record scan of one interval schedules exactly `Restored` for adding and `Dropped` for removal. |
| Symbols.UndatedIgnored | src/symbols/getters.py:42-44 | A record without a date (`NaT`) lies in no interval and schedules nothing. A record whose `addedSecurity` is missing is never removal-only, because `None != ''`. |
| Symbols.RestoredMembers | src/symbols/getters.py:41-49 | A ticker is scheduled back exactly when some record dated inside the interval, not addition-only, removed it. |
| Symbols.DroppedMembers | src/symbols/getters.py:41-49 | A ticker is scheduled out exactly when some record dated inside the interval, not removal-only, added it. |
| Symbols.UniverseStep | src/symbols/getters.py:28-39 | Moving to the next interval, removals are applied before additions. A ticker is a member afterwards exactly when it was scheduled back, or was a member and was not scheduled out. |
| Symbols.UniverseIgnoresLaterIntervals | src/symbols/getters.py:27-52 | An interval's universe depends only on the intervals before it. |
| Symbols.NextInterval | src/symbols/getters.py:28-49 | One interval of the loop. The removals and additions carried from the previous interval are applied first, giving that interval's universe. The changes dated inside it are then collected, so that applying them gives the universe of the next interval. |
| Symbols.IndexTickersForPeriods | src/symbols/getters.py:11-54 | The snapshots are keyed exactly by the intervals' right ends. The snapshot of a right end is the sorted, duplicate-free universe of the last interval with that right end (a later key overwrites an earlier one). |
| Symbols.SnapshotFacts | src/symbols/getters.py:50-52 | The dict built from the per-interval views has the same keys and overwrite behaviour. |
| Symbols.Views | src/symbols/getters.py:50-52 | One view per interval processed. |
| Symbols.ViewsSnoc | src/symbols/getters.py:27-52 | One more interval appends its sorted universe to the views. |
| Symbols.KeyedByKeys | src/symbols/getters.py:50 | Assigning the values in order keys the dict by exactly the given keys. |
| Symbols.KeyedByLast | src/symbols/getters.py:50 | A key's value is the one of its last assignment. |
| Symbols.KeyedBySnoc | src/symbols/getters.py:50 | One more assignment updates exactly that key. |
| Symbols.AllPtfTickers | src/symbols/getters.py:57-64 | Sorted and distinct. A ticker is in the result exactly when it is not empty and appears in some period. |
| TickerCleaning.CleanPeriodTickers | src/symbols/cleaners.py:4-17 | The result is the same periods, in the same order, holding the same list objects. Each list lost the excluded tickers one `list.remove` at a time, in order. |
| TickerCleaning.TickerList.Remove | src/symbols/cleaners.py:10-14 | `list.remove`: reports whether the ticker was present (the ignored `ValueError` otherwise) and takes out its first occurrence. |
| TickerCleaning.TickerList.constructor | src/symbols/cleaners.py:4-17 | A list object holding the given tickers. |
| TickerCleaning.Find | src/symbols/cleaners.py:12 | The first position of the ticker, and the length exactly when it is absent. |
| TickerCleaning.FindIsFirst | src/symbols/cleaners.py:12 | The scan's stopping point is that first position. |
| TickerCleaning.RemoveFirstMultiset | src/symbols/cleaners.py:12 | One removal takes away exactly one copy of the ticker, if there is one. |
| TickerCleaning.RemoveEachMultiset | src/symbols/cleaners.py:9-15 | Each ticker is left as often as before, less the number of times it is excluded. An absent excluded ticker changes nothing (the `ValueError` branch). |
| TickerCleaning.RemoveEachKeepsOthers | src/symbols/cleaners.py:9-15 | The tickers that are not excluded keep their relative order. |
| TickerCleaning.RemoveFirstKeepsOthers | src/symbols/cleaners.py:12 | One removal keeps the other tickers in order. |
| TickerCleaning.RemoveEachMembers | src/symbols/cleaners.py:9-15 | In a list without repeats, a ticker stays exactly when it is not excluded. |
| TickerCleaning.RemoveEachLength | src/symbols/cleaners.py:9-15 | With distinct excluded tickers and a list without repeats, the list shrinks by the number of excluded tickers it holds. |
| TickerCleaning.RemoveFirstLength | src/symbols/cleaners.py:12 | Removing a present ticker shortens the list by one, and an absent one by nothing. |
| TickerCleaning.Present | src/symbols/cleaners.py:12 | At most one per excluded ticker. |
| TickerCleaning.Outside | src/symbols/cleaners.py:12 | Only tickers of the list that are not excluded. |
| TickerCleaning.OutsideAppend | src/symbols/cleaners.py:12 | Filtering distributes over concatenation. |
| TickerCleaning.DistinctAtMostOnce | src/symbols/cleaners.py:12 | In a list without repeats a ticker occurs at most once. |
| Financials.CleanStatements | src/financials/cleaners.py:9-47 | The loop shared by the three statement cleaners computes `Cleaned`: empty statements are skipped, and each other statement is written under its upper-cased first symbol, a later one overwriting an earlier one. |
| Financials.CleanIncomeStatements | src/financials/cleaners.py:5-19 | The income cleaner is the shared loop with the income renaming. |
| Financials.CleanBalanceSheets | src/financials/cleaners.py:22-33 | The balance-sheet cleaner is the shared loop with the balance renaming. |
| Financials.CleanEarningCalendar | src/financials/cleaners.py:36-47 | The calendar cleaner is the shared loop with the calendar renaming. |
| Financials.CleanedFails | src/financials/cleaners.py:11-43 | Cleaning fails exactly when a non-empty statement's first record has no string `symbol` (the `KeyError`, or `.upper()` on a non-string). |
| Financials.CleanedKeys | src/financials/cleaners.py:11-12 | A symbol is a key exactly when some non-empty statement starts with it. |
| Financials.CleanedLast | src/financials/cleaners.py:12-18 | Under a symbol are the projected records of the last statement with that symbol, in order and with the same length. |
| Financials.SymbolKey | src/financials/cleaners.py:12 | The key fails exactly when `symbol` is missing or not a string. |
| Financials.Project | src/financials/cleaners.py:12-18 | A projected record has exactly the output field names. |
| Financials.ProjectReads | src/financials/cleaners.py:13-17 | Each output field is `data.get` of its source field: None when that field is absent. |
| Financials.IncomeRenaming | src/financials/cleaners.py:13-17 | Income records become `cik`, `date` from `fillingDate`, `eps_dill` from `epsdiluted`, `revenue`, and `end` from `date`. |
| Financials.BalanceRenaming | src/financials/cleaners.py:30-31 | Balance-sheet records become `date` from `fillingDate` and `sh_equity` from `totalStockholdersEquity`. |
| Financials.CalendarRenaming | src/financials/cleaners.py:44-45 | Calendar records become `eps`, and `end` from `fiscalDateEnding`. |
| Financials.CleanPricesData | src/financials/cleaners.py:50-61 | The prices loop computes the `Collect` of the feed entries. Empty feeds are skipped. A non-empty feed fails (the `KeyError`, or `.upper()` on a non-string) when its symbol is not a string, when it has no `historical` key, or when a quote lacks `date`, `open` or `close`; `PricesFails` states that these are exactly the failing inputs. |
| Financials.PricesFails | src/financials/cleaners.py:55-60 | Cleaning the prices fails exactly when some non-empty feed has no string symbol, no `historical` key, or a quote without its date, open or close. |
| Financials.QuoteTableFails | src/financials/cleaners.py:58-59 | The quote table of a feed fails exactly when some quote lacks `date`, `open` or `close`. |
| Financials.QuoteTableLast | src/financials/cleaners.py:58-59 | Each date maps to the open and close of its last quote. |
| Financials.PricesKeys | src/financials/cleaners.py:56-57 | A normalised ticker is a key exactly when some non-empty feed has that symbol. |
| Financials.PricesLast | src/financials/cleaners.py:57-60 | Under a ticker is the quote table of the last feed with that normalised symbol. |
| Financials.CollectFails | src/financials/cleaners.py:9-19 | A dict-building loop fails exactly when one of its steps raises. |
| Financials.CollectKeys | src/financials/cleaners.py:9-19 | The keys are exactly the keys written. |
| Financials.CollectLast | src/financials/cleaners.py:12 | A key holds the value of its last write. Likewise at cleaners.py:57. |
| Financials.CollectPrefix | src/financials/cleaners.py:10-18 | The loop over one more item extends the loop over the prefix by that item's step. |
| Prices.WeeklyIntervals | src/prices/prices.py:27-36 | One interval per Friday in [start, end], in ascending order, each ending at its Friday and opening 4 days before it. Every such Friday has one. |
| Prices.Fridays | src/prices/prices.py:31 | `date_range(freq='W-FRI')`: strictly ascending, every element a Friday inside [start, end], and every such Friday present. |
| Prices.FindWeeklyClosePrices | src/prices/prices.py:44-76 | Fails (`ticker_trading_dates[0]`) exactly when there is no price. Otherwise returns the rows, with their closes, of the weekly selection over the Fridays between the first and last trading dates. |
| Prices.Bounds | src/prices/prices.py:49-57 | The intervals run from the earliest to the latest trading date. |
| Prices.LatestIn | src/prices/prices.py:60-74 | `max` of the week's trading dates: none exactly when the week has no trading date (the skipped `ValueError`), and otherwise the latest trading date in the inclusive Monday..Friday range. |
| Prices.SelectionMembers | src/prices/prices.py:59-74 | A date is selected exactly when it is the latest trading date of some week. |
| Prices.SelectionTradingDays | src/prices/prices.py:59-76 | Every selected date is a trading date, so the final `.loc` cannot fail. |
| Prices.SelectionLatestInWeek | src/prices/prices.py:60-70 | A selected date is a weekday up to Friday, its week is one of the intervals, and no later trading date falls in the same week. |
| Prices.SelectionCoversWeeks | src/prices/prices.py:60-74 | Every week with a trading date gets its latest one selected. |
| Prices.SelectionAscending | src/prices/prices.py:59-74 | The selected dates are strictly ascending, so at most one per week. |
| Prices.WeeklySelectionAscending | src/prices/prices.py:44-76 | The dates of the whole weekly selection are strictly ascending. |
| Prices.WeeklySelectionCovers | src/prices/prices.py:55-74 | Every week whose Friday lies between the first and last trading dates contributes its latest trading date. |
| Prices.PartialLastWeekDropped | src/prices/prices.py:55-58 | A week is considered only when its Friday is on or before the last trading date, so a partial last week is dropped. |
| Prices.FridayIndex | src/prices/prices.py:31-35 | Each Friday in range has its interval. |
| Prices.FridayOfWeek | src/prices/prices.py:33 | A day belongs to at most one Friday's 4-day-back interval. |
| Prices.SameWeekdayApart | src/prices/prices.py:31 | Two different days with the same weekday are at least a week apart. |
| Prices.WeekBeforeFriday | src/prices/prices.py:33 | The days of an interval are Monday..Friday. |
| Prices.Earliest | src/prices/prices.py:56 | The first trading date. |
| Prices.Latest | src/prices/prices.py:57 | The last trading date. |
| Processors.Report.constructor | src/ranks/esr/processors.py:10-11 | A statement record object holding the given fields. |
| Processors.Report.Update | src/ranks/esr/processors.py:20 | `dict.update`: the other record's fields are added to this record, overwriting equal keys; nothing else changes. |
| Processors.StepKeepsKey | src/ranks/esr/processors.py:19-20 | A merge step never changes the field the merge is keyed on, because it only merges an update that agrees on it. |
| Processors.AbsorbKeepsKey | src/ranks/esr/processors.py:15-20 | After any sequence of updates, the key field of a record is what it was. |
| Processors.AbsorbIsMatchesAdded | src/ranks/esr/processors.py:15-20 | Comparing each update with the record as it stands equals comparing it with the original record: the merged record is the original plus exactly its matching updates, later ones winning. |
| Processors.UnmatchedUnchanged | src/ranks/esr/processors.py:19 | A record none of whose symbol's updates agree on the key stays as it was. |
| Processors.MatchesNone | src/ranks/esr/processors.py:19 | Without a matching update, nothing is added. |
| Processors.MatchesAddedFields | src/ranks/esr/processors.py:19-20 | A merged record keeps all its fields and gains every field of each matching update. |
| Processors.AbsorbInto | src/ranks/esr/processors.py:18-20 | Every record of the symbol becomes its merge with the update when they agree on the key, and stays otherwise. |
| Processors.AbsorbSnoc | src/ranks/esr/processors.py:17-20 | One more update changes only the records of its own symbol. |
| Processors.MergeOn | src/ranks/esr/processors.py:15-22 | The returned dictionary is the input one (a shallow copy shares its records). Every record of every symbol ends up as its original with all updates of its symbol merged in order. |
| Processors.FirstMissing | src/ranks/esr/processors.py:16-18 | The first balance-sheet entry with records but no income data for its symbol. All entries before it are fine. |
| Processors.MergeFinancialData | src/ranks/esr/processors.py:9-22 | Fails exactly when some balance-sheet symbol with records has no income data (`KeyError`), naming such a symbol. Otherwise returns the income dictionary. In both cases, the entries before the failing one have been merged on "date". |
| Processors.MergeEarningCalendars | src/ranks/esr/processors.py:25-38 | Symbols without financial data are passed over (`.get`). The financial dictionary is returned, with every record merged with the calendar entries of the same "end". |
| Processors.FridayOnOrBefore | src/ranks/esr/processors.py:57-59 | A Friday with f <= d < f + 7. |
| Processors.ReportInterval | src/ranks/esr/processors.py:57-59 | `interval_range(end=rank_date, periods=1)` never ends after the rank date. Monthly: from the previous month end to the last month end on or before the rank date. Weekly: the week ending on the last Friday on or before the rank date. |
| Processors.ReportCount | src/ranks/esr/processors.py:68-76 | The count over the first n rank dates is at most n. |
| Processors.Positions | src/ranks/esr/processors.py:68-76 | Position i is the number of earlier rank dates whose interval held a report. |
| Processors.PositionsFor | src/ranks/esr/processors.py:53-76 | The loop over the rank dates stores each date's count so far. A repeated date keeps its last value. |
| Processors.CreateStartingPositions | src/ranks/esr/processors.py:41-80 | Every ticker is a key. A ticker with financial data gets the positions of its rank dates; one without gets an empty map. |
| Processors.PositionsStartAtZero | src/ranks/esr/processors.py:54 | The first rank date gets position 0. |
| Processors.PositionsStep | src/ranks/esr/processors.py:68-76 | From one rank date to the next, the position grows by one exactly when the earlier date's interval held a report. |
| Processors.PositionsMonotone | src/ranks/esr/processors.py:54-76 | Positions never decrease along the rank dates. |
| Processors.ReportCountMonotone | src/ranks/esr/processors.py:76 | The count never decreases. |
| Processors.PositionOfLastOccurrence | src/ranks/esr/processors.py:71-75 | A rank date stored for the last time at index i holds the count of the dates before i. |
| Processors.LimitFromStartDate | src/ranks/esr/processors.py:248-259 | A prefix of the ranked entries. It ends at the first entry under the first ranking date. When no entry has that date, it is all of them. |
| Processors.ReportWindow | src/ranks/esr/processors.py:118-121 | `[start:start + 16][::-1]`: min(16, what is left) reports, none when start is past the end, in reverse order. |
| Processors.StocksDataFor | src/ranks/esr/processors.py:110-172 | The inner loop computes the stocks data of the period. |
| Processors.ProcessDataForRanking | src/ranks/esr/processors.py:83-245 | The loop over the periods collects every period's stocks data. A `KeyError` anywhere fails the whole. |
| Processors.ProcessedKeys | src/ranks/esr/processors.py:243 | A date is a key of the result exactly when it is some period's rank date. |
| Processors.StocksDataKeys | src/ranks/esr/processors.py:112-114 | A ticker is scored exactly when it is in the period and has prices and a non-empty position map. |
| Processors.StocksDataFactors | src/ranks/esr/processors.py:115-172 | A scored ticker has a position for the rank date and financial data. Its factors are the EPS growth, the mean sales growth and the two quarterly price performances: of the report window from its position and of its closes. |

## Left out

- Orchestration, configuration, plugin selection, prompts, plotting and the Excel/JSON writers are not part of this model. The model starts from data already loaded.
- HTTP access, the sqlite price reader (src/prices/prices.py:6-24) and the other getters are I/O. Their results are parameters of the modelled functions.
- Floating point: prices, capital and ratios are exact `real`s. Rounding, IEEE infinities (a growth or change over a zero base is taken as NaN, i.e. `None`) and the `:.2%` formatting of `extreme_daily_returns` are not modelled.
- pandas calendar offsets (`interval_range` and `date_range` with 'ME', 'MS', 'YS', 'W-FRI') are not re-implemented. Dates are day numbers, and month, year and weekday are computed by `Calendar`. ISO date strings and their parsing are not modelled: report dates reach `CreateStartingPositions` already parsed, and a missing 'date' is `None`.
- `annualized_returns`, `annualized_volatility` and `raw_sharp_ratio` (src/backtests/investment.py:32-46) use fractional powers, `std` and square roots, so `ComputeMetrics` leaves those three entries out.
- `get_tickers_perf_detailed_info` (src/backtests/investment.py:207-228) only concatenates frames.
- `GrowthAcceleration` (src/ranks/esr/scorings.py:66-91) is a scipy regression and standard deviation. The two acceleration factors it feeds (src/ranks/esr/processors.py:136-141, 155-157) are absent from `Processors.Factors`. `EsrRank` takes their columns as inputs.
- The technical-indicator branch of `process_data_for_ranking` (src/ranks/esr/processors.py:174-241) and src/indicators/sma.py are not part of this model. The SMA filter of the membership plugins reads `is_sma_below` as a given column.
- In `process_data_for_ranking`, the 13 `rs_dates` intervals are used only through the two quarter windows of the price performance. The current and next interval ranges (src/ranks/esr/processors.py:102-108) are not used.
- The weekly interval creator, a callable parameter of `find_weekly_close_prices`, is fixed to `create_weekly_intervals`.
- The informative columns of the strategy's frame are not modelled: per-ticker prices and returns, `to_sell_share` and `to_sell_average_share`. They are strings or NaN that nothing downstream computes with.
- `sort_values` tie-breaking follows no documented order. The model breaks ties stably, in input order, and specifies the sorted results by their properties.
- Null open prices are not modelled: a quote is either present with a real open or absent.
- Upper-casing (`str.upper`) is ASCII-only in `Strings`.
- A text value where a number is expected reads as NaN in `Processors.EpsOf`/`Processors.Reading` rather than being a string in a pandas Series.
- Python dictionaries that share list objects across symbols are not modelled. `Processors.MergeOn` requires distinct report objects (`DistinctReports`), as separate JSON records are.
- `Processors.LimitFromStartDate` takes and returns the dictionary's items as a sequence of pairs in insertion order.
- Strategy.ComputePtfPerformance: requires every held ticker to have a capital entry and a previous quote (`Quoted`). The source only logs a warning there and keeps a stale start capital (src/backtests/strategies/demo/strategy_plugins/strategy_demo_replace.py:95-99).
- Strategy.AdvanceCostsNonNegative: holds only for opens >= 0, caps >= 0, free cash >= 0 and 0 <= fee <= 1, because a rebalance with a large fee can make a cap negative.
- DrawdownStats.ComputeDrawdownsStats: requires a positive nav and strictly ascending dates, which a portfolio frame indexed by date has.
- Investment: rows of the portfolio frame with a duplicated date are not collapsed; dates are taken as a sequence.
- Symbols.Change: takes `removedTicker` and `symbol` as present strings. A record missing one of them would put `None` into the ticker set in the source, and `sorted` (getters.py:50-51) would then raise `TypeError` next to a string. That path is not modelled. A missing `date` and missing or non-text `addedSecurity`/`removedSecurity` are modelled.
