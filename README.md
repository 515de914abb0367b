# SignalSmith backtester core in Dafny

A model of the SignalSmith backtester's backend. The backtester scans a
universe of S&P 500 tickers for indicator buy signals (RSI, ADX, Aroon,
Stochastic, MACD, OBV, EMA cross). It turns the signals into trade picks and
executes those picks as a capital-constrained portfolio with per-side
basis-point fees. The results go out as JSON trade records, an equity curve
and a drawdown series.

The modules follow the backend's files:

| module | file | form |
|---|---|---|
| `Fees` | `backend/engine/fees.py` | the `FeeModel` value with its three operations |
| `Pnl` | `backend/engine/pnl.py` | equity curve, drawdown, return-variability check; pure |
| `Execution` | `backend/engine/execution.py` | candidate preparation, peak concurrency, the event replay; the loops are methods proved against the replay function `Replay` |
| `Api` | `backend/api_server.py` | request validation, the universe filter, `_map_indicators`, `_build_config` and `_make_trades` |
| `BacktestSystem` | `backend/backtest_system.py` | `IndicatorConfig`, the run preconditions, signal combination, OBV, the RSI rule |
| `Serializer` | `backend/reports/serializer.py` | trades table to records |
| `DataPipeline` | `backend/data_pipeline.py` | chunking, the download retry loop, merging, the missing-ticker report |

Shared support lives in four modules:
- `Wrappers`: `Option` and `Result`.
- `Values`: dynamic request values, Python truthiness and numeric coercion.
- `Text`: ASCII upper-casing, `strip`, string ordering and `join`.
- `Sorting`: a stable insertion sort, sums and distinctness.

`Dates` holds the calendar dates that pandas timestamps can hold, with
`YYYY-MM-DD` formatting and parsing.

Money and prices are `real`. Counts and dates are unbounded integers.
Calendar dates are `Dates.Date`. In the execution engine, dates are
business-day ordinals.

## Model

| member | source | states |
|---|---|---|
| Fees.FeeModel.Rate | backend/engine/fees.py:18-22 | the per-side rate is never negative; a non-negative `fee_bps` is that many ten-thousandths; a negative one gives rate 0 |
| Fees.FeeModel.FeeForNotional | backend/engine/fees.py:24-29 | a non-positive notional pays nothing; otherwise the fee is notional × rate; never negative |
| Fees.FeeModel.RoundTripFees | backend/engine/fees.py:31-34 | the round trip is the buy-side fee plus the sell-side fee, and is never negative |
| Fees.FiveBasisPoints | backend/engine/fees.py:10-14 | 5 bps is a 0.05% rate: 10 000 of notional pays 5 |
| Fees.FeeAtMostNotional | backend/engine/fees.py:24-29 | while the rate is at most 100%, the fee never exceeds the (positive part of the) notional |
| Fees.FeeMonotone | backend/engine/fees.py:24-29 | a larger notional never pays a smaller fee |
| Fees.CostOfPurchase | backend/engine/execution.py:205-215 | buying q at price p costs p·q plus its fee, which equals q·p·(1 + rate), the divisor the engine sizes by |
| Pnl.BuildEquityCurve | backend/engine/pnl.py:13-26 | no table or an empty one gives an empty curve; for a non-empty table the result is an error exactly when the PnL column is missing |
| Pnl.ExitDates | backend/engine/pnl.py:20 | the curve's index is strictly increasing and holds exactly the dates on which some trade exits |
| Pnl.CumulateIsRunningTotal | backend/engine/pnl.py:20-23 | the point at each exit date is the initial capital plus all PnL realised up to and including that date |
| Pnl.EquityCurveSpec | backend/engine/pnl.py:13-26 | for a non-empty table with the column: there is at least one point; dates strictly increase; the dates are exactly the exit dates; each point is the initial capital plus the PnL realised up to it; the last point is the initial capital plus total PnL |
| Pnl.RunningMax | backend/engine/pnl.py:34 | the running maximum bounds every earlier point and is attained by one of them |
| Pnl.ComputeDrawdown | backend/engine/pnl.py:29-37 | no curve gives no drawdown; otherwise one drawdown value per equity point (api_server.py:286-292 repeats this computation) |
| Pnl.DrawdownBounds | backend/engine/pnl.py:34-35 | on positive equity each drawdown lies in (−1, 0] and is 0 exactly at a new running high |
| Pnl.NonDecreasingHasNoDrawdown | backend/engine/pnl.py:34-35 | a curve that never falls has zero drawdown everywhere |
| Pnl.DistinctReturns | backend/engine/pnl.py:45 | the distinct 8-decimal returns number between 1 and the trade count, and every trade's rounded return is among them |
| Pnl.DistinctReturnsExact | backend/engine/pnl.py:45 | the distinct keys are exactly the trades' 8-decimal rounded returns, so the ratio's numerator is `round(8).nunique()` |
| Pnl.WarnIfReturnsConstant | backend/engine/pnl.py:40-51 | no ratio exactly when there is no table, it is empty or lacks `net_return`; the ratio lies in (0, 1], equals distinct ÷ trades, and the warning fires exactly when it is below the threshold |
| Pnl.ConstantReturnsWarn | backend/engine/pnl.py:45-49 | three or more trades with one rounded return always draw the warning at the default threshold |
| Execution.ClampHold | backend/engine/execution.py:62 | the hold is at least one day and a valid hold is kept |
| Execution.ClampReturn | backend/engine/execution.py:77-96 | the return never exceeds the take-profit and (when the two are consistent) never falls below −abs(stop-loss); a return inside both is kept; the result is the gross return or one of the two limits |
| Execution.CandidateOf | backend/engine/execution.py:80-112 | a pick is skipped exactly when its return column is missing, its price is missing or non-positive, its date is missing or its exit price is non-positive; a kept pick becomes a well-formed candidate carrying the pick's date, symbol, price and clamped return |
| Execution.ValidCandidates | backend/engine/execution.py:76-112 | never more candidates than picks, and every candidate is well formed |
| Execution.CandidateLeIsPreorder | backend/engine/execution.py:118 | the (entry date, exit date, symbol) sort key is a total preorder |
| Execution.PrepareCandidates | backend/engine/execution.py:44-120 | no table, an empty one or a missing return column gives no candidates; otherwise the result is a permutation of the valid candidates, sorted by (entry date, exit date, symbol), every one well formed |
| Execution.SweepEvents | backend/engine/execution.py:126-129 | each trade contributes an opening at its entry and a closing at its exit |
| Execution.PeakUpTo | backend/engine/execution.py:131-136 | the peak bounds every running count and is either 0 or attained |
| Execution.MaxActivePositions | backend/engine/execution.py:123-136 | no trades gives 0; otherwise the result is the peak of the running count over the sorted sweep |
| Execution.Sweep | backend/engine/execution.py:131-136 | the loop returns the peak of the running count |
| Execution.SweepClosesFirst | backend/engine/execution.py:130 | the sweep is ordered by time, closings before openings at equal times |
| Execution.OpeningsOfSweep | backend/engine/execution.py:126-129 | the sweep holds exactly one opening per trade |
| Execution.PeakAtMostTrades | backend/engine/execution.py:123-136 | the peak never exceeds the number of trades |
| Execution.SweepStartsWithOpening | backend/engine/execution.py:126-130 | with exits after entries, the sorted sweep starts with an opening |
| Execution.PeakPositive | backend/engine/execution.py:123-136 | with exits after entries, a non-empty trade list has peak at least 1 |
| Execution.TradeEvents | backend/engine/execution.py:186-189 | each candidate contributes an entry event at its entry date and an exit event at its exit date |
| Execution.SortedTradeEvents | backend/engine/execution.py:190 | the sorted events are a permutation of the events |
| Execution.EventLeIsPreorder | backend/engine/execution.py:190 | the (date, exits before entries) event key is a total preorder, so sorting by it is well defined |
| Sorting.InsertionSortStable | backend/engine/execution.py:190 | sorting keeps the input order among elements whose keys tie, as Python's stable `list.sort` does |
| Execution.SortedEventsStable | backend/engine/execution.py:186-190 | after sorting, the entries of one day, and the exits of one day, still come in candidate order |
| Execution.SortedEventsWellFormed | backend/engine/execution.py:186-190 | with exits after entries, every candidate's entry comes before its exit in the sorted events and every exit is present |
| Execution.FlooredCapital | backend/engine/execution.py:178 | the working capital is at least 1 and at least the configured capital, and equal to the latter when it is at least 1 |
| Execution.SizingFor | backend/engine/execution.py:178-179 | at least one slot, and exactly the peak concurrency when that is positive |
| Execution.BuyCostsOnlyTheFee | backend/engine/execution.py:139-141 | opening a position marked at its notional lowers current equity by exactly its buy fee |
| Execution.Allocation | backend/engine/execution.py:200-204 | the allocation never exceeds the cash; when compounding, it is the cash split evenly across the free slots; otherwise it is the smaller of the cash and the initial capital split across all slots |
| Execution.EntrySizing | backend/engine/execution.py:205-215 | the quantity bought is positive and its notional plus fee spends exactly the allocation |
| Execution.Entered | backend/engine/execution.py:196-199 | with every slot taken no position is opened |
| Execution.EnteredValid | backend/engine/execution.py:200-229 | an opened position has a free slot, is consistent with its candidate, costs its allocation and fits in the cash |
| Execution.Enter | backend/engine/execution.py:192-260 | an entry that finds no free slot leaves the book unchanged |
| Execution.Leave | backend/engine/execution.py:261-327 | an exit for a position that is not open is ignored; otherwise it closes that position and records one trade |
| Execution.RealiseConsistent | backend/engine/execution.py:265-327 | a closed trade's gross PnL, fees, net PnL, net return and notionals satisfy the engine's identities |
| Execution.OpenedLedger | backend/engine/execution.py:221-259 | the buy ledger line reports the cash after the purchase, which stays non-negative |
| Execution.SaleKeepsCash | backend/engine/execution.py:261-305 | a sale keeps the cash invariant and the ledger's cash figures |
| Execution.InitialInv | backend/engine/execution.py:174-190 | the empty book satisfies the replay invariant |
| Execution.StepPreserves | backend/engine/execution.py:192-327 | each event keeps the invariant: slots respected, cash conserved (initial + realised − open cost), trades consistent, ledger cash non-negative |
| Execution.ReplayInv | backend/engine/execution.py:192-327 | the invariant holds after any well-formed event sequence |
| Execution.NothingLeftOpen | backend/engine/execution.py:192-327 | after replaying the sorted events no position remains open |
| Execution.Settlement | backend/engine/execution.py:192-330 | at the end: nothing open; cash equals initial capital plus realised PnL; at most one trade per candidate; every trade consistent; buy lines never show negative cash, and no line does when the sizing is cash-safe; the last ledger line is a sale whose cash and equity equal the final cash |
| Execution.SettlementFor | backend/engine/execution.py:174-330 | the replay of the sorted events of well-formed candidates is a settled run |
| Execution.BuildTradesFromPicks | backend/engine/execution.py:144-330 | the trades and ledger returned for a picks table are a settled run of its prepared candidates |
| Execution.ExecuteCandidates | backend/engine/execution.py:174-330 | no candidates give no trades; otherwise the loop's trades and ledger are the settled replay |
| Execution.CandidateEvents | backend/engine/execution.py:186-190 | the event list built by the loop is the sorted event sequence |
| Execution.ReplayEvents | backend/engine/execution.py:192-327 | the event loop computes the replay function's trades and ledger |
| Execution.ExecuteEntry | backend/engine/execution.py:192-260 | the entry branch updates cash, positions and ledger exactly as one replay step |
| Execution.ExecuteExit | backend/engine/execution.py:261-327 | the exit branch updates cash, positions, ledger and trades exactly as one replay step |
| Api.CleanToken | backend/api_server.py:60 | a non-blank token, stripped and upper-cased, is a clean ticker |
| Api.CleanedSpec | backend/api_server.py:60 | the cleaned list holds exactly the stripped, upper-cased non-blank tokens, each clean |
| Api.NormaliseExcludes | backend/api_server.py:56-61 | no list stays absent; a result is the non-empty cleaned list; a list becomes absent only when every token is blank |
| Api.CleanedOfClean | backend/api_server.py:60 | cleaning a list of clean tickers returns it unchanged |
| Api.NormaliseIdempotent | backend/api_server.py:56-61 | normalising twice is normalising once |
| Api.MakeRsiRule | backend/api_server.py:45-47 | the rule validates exactly when the mode is absent, "oversold" or "overbought" and the threshold (default 30) lies in 0..100 |
| Api.MakeFilters | backend/api_server.py:50-61 | filters validate exactly when both market-cap bounds are absent or non-negative; the excludes come out normalised |
| Sorting.Filter | backend/api_server.py:150-158 | a row filter keeps exactly the rows satisfying its predicate, and never adds rows |
| Sorting.FilterFilter | backend/api_server.py:150-158 | two filters applied in turn are one filter with the conjunction |
| Api.FilteredSelects | backend/api_server.py:150-161 | the filter chain keeps exactly the rows that pass sector, cap, exclusion and explicit-ticker tests |
| Api.DedupeDistinct | backend/api_server.py:166 | de-duplication leaves distinct tickers |
| Api.DedupeSound | backend/api_server.py:166 | every kept row is the first row with its ticker |
| Api.DedupeComplete | backend/api_server.py:166 | every ticker of the input survives de-duplication |
| Api.BuildUniverseSpec | backend/api_server.py:141-166 | the universe request fails, with status 400, exactly when no row is selected; otherwise the result has distinct tickers, holds only selected rows, covers every selected ticker and keeps each ticker's first selected row |
| Api.MapIndicators | backend/api_server.py:169-183 | no rule leaves the indicators unchanged; a scalar `rsi` entry is rejected; otherwise `rsi` gains use=true, n (default 14), the rule named by the mode and that mode's threshold, and every other key is kept |
| Api.ExpectedDefaults | backend/api_server.py:187-217 | without their blocks the indicators stay off, and the policy defaults to "any" and `atleast_k` to 2 |
| Api.FieldsOfOwner | backend/api_server.py:219-262 | a block writes exactly the configuration keys of its indicator |
| Api.OverlayAt | backend/api_server.py:219-262 | overlaying a block changes only the keys it lists, each to the block's option or its previous value |
| Api.ApplyRsi | backend/api_server.py:219-228 | the RSI block overlays exactly the RSI keys |
| Api.ApplyStoch | backend/api_server.py:229-235 | the Stochastic block overlays exactly the Stochastic keys |
| Api.ApplyAdx | backend/api_server.py:236-240 | the ADX block overlays exactly the ADX keys |
| Api.ApplyAroon | backend/api_server.py:241-246 | the Aroon block overlays exactly the Aroon keys |
| Api.ApplyMacd | backend/api_server.py:247-253 | the MACD block overlays exactly the MACD keys |
| Api.ApplyObv | backend/api_server.py:254-257 | the OBV block overlays exactly the OBV keys |
| Api.ApplyEma | backend/api_server.py:258-262 | the EMA block overlays exactly the EMA keys |
| Api.InitialStage | backend/api_server.py:187-217 | the defaults dictionary is the configuration before any block is applied |
| Api.BlockStep | backend/api_server.py:219-262 | applying one more block (or skipping an absent one) moves to the next stage |
| Api.ApplyBlock | backend/api_server.py:219-262 | a block fails exactly when it is present but not a mapping; otherwise it yields the next stage |
| Api.BuildConfig | backend/api_server.py:186-268 | the configuration fails exactly when some indicator block is not a mapping; otherwise every key equals its expected value: the block's option if given, else the default |
| Api.TradePrices | backend/api_server.py:320-329 | a trade enters at the adjusted close, exits at close × (1 + one-day return), and its PnL is exit − entry, which is the entry price × return |
| Api.TradeDates | backend/api_server.py:322-324 | the entry date reads back as the pick's date and the exit date as the next calendar day |
| Api.MakeTrades | backend/api_server.py:310-331 | the loop returns one trade per priced pick, in order |
| Api.TradesOfAppend | backend/api_server.py:314-330 | trades of concatenated picks are the concatenated trades |
| Api.TradesOfSpec | backend/api_server.py:314-330 | as many trades as priced picks; every trade comes from a priced pick and every priced pick yields its trade |
| BacktestSystem.AllFieldsListed | backend/backtest_system.py:94-132 | the field list enumerates every configuration field |
| BacktestSystem.FromMapping | backend/backtest_system.py:135-144 | no mapping gives the defaults; an existing configuration is returned as is; a mapping sets each field named in it and leaves the rest at their defaults |
| BacktestSystem.EnabledAmongSpec | backend/backtest_system.py:146-162 | the indicators enabled among the first n are in the fixed order and are exactly those switched on |
| BacktestSystem.EnabledSpec | backend/backtest_system.py:146-162 | an indicator is listed exactly when switched on, in the order RSI, ADX, Aroon, Stochastic, MACD, OBV, EMA; the list is empty exactly when none is on |
| BacktestSystem.AppendIfOn | backend/backtest_system.py:148-161 | each test extends the labels by the next indicator when it is on |
| BacktestSystem.Enabled | backend/backtest_system.py:146-162 | the method returns the labels of the enabled indicators |
| BacktestSystem.CheckRun | backend/backtest_system.py:604-633 | a run passes these three checks exactly when some indicator is on, 1 ≤ hist_horizon ≤ max_horizon, and volume is present if OBV is on; it fails for lack of indicators exactly when none is on |
| BacktestSystem.LookbackKindsExact | backend/backtest_system.py:635-643 | the indicators with a look-back are exactly the ones listed in the minimum-history formula |
| BacktestSystem.MaxOf | backend/backtest_system.py:635-643 | the maximum fails exactly on a non-numeric look-back; otherwise it bounds every term and is one of them |
| BacktestSystem.MinObs | backend/backtest_system.py:635-643 | the minimum history fails exactly when an enabled look-back is not numeric; otherwise it is at least max_horizon + 1 and every enabled look-back, and is one of them |
| BacktestSystem.SelectTickers | backend/backtest_system.py:626-631 | a ticker is selected exactly when its column has data and it is allowed |
| BacktestSystem.SelectTickersInOrder | backend/backtest_system.py:627-631 | selected tickers keep the column order |
| BacktestSystem.AnyOfSpec | backend/backtest_system.py:541-542 | "any" holds exactly when one signal fires, i.e. the count is at least 1 |
| BacktestSystem.AllOfSpec | backend/backtest_system.py:543-544 | "all" holds exactly when every signal fires, i.e. the count is the number of signals |
| BacktestSystem.CombineSignals | backend/backtest_system.py:514-549 | the combination fails exactly for no signals or an unknown policy; otherwise on each date it is any, all, or count ≥ k of the signals |
| BacktestSystem.AtLeastKBounds | backend/backtest_system.py:541-546 | at-least-1 is "any" and at-least-all is "all" |
| BacktestSystem.AtLeastKMonotone | backend/backtest_system.py:545-546 | a date passing at-least-k₂ passes at-least-k₁ for k₁ ≤ k₂ |
| BacktestSystem.Direction | backend/backtest_system.py:478-483 | the OBV step is +1 on a rise, −1 on a fall and 0 otherwise |
| BacktestSystem.CalculateObv | backend/backtest_system.py:473-483 | the array starts at the first volume and each later value adds, subtracts or keeps the day's volume as the price rose, fell or held |
| BacktestSystem.ObvUnique | backend/backtest_system.py:476-483 | the OBV recurrence determines the series |
| BacktestSystem.ObvBounded | backend/backtest_system.py:476-483 | with non-negative volume, |OBV| never exceeds the cumulative volume |
| BacktestSystem.ObvFlat | backend/backtest_system.py:476-483 | a flat price keeps OBV at the first volume |
| BacktestSystem.ClampThreshold | backend/backtest_system.py:293-294 | thresholds are clamped into 0..100, unchanged inside it |
| BacktestSystem.RsiSignal | backend/backtest_system.py:305-316 | an unknown rule is an error; otherwise one signal per RSI value |
| BacktestSystem.CrossingFollowsOversold | backend/backtest_system.py:306-310 | a crossing signal fires only on a day after an oversold day and is not itself oversold |
| BacktestSystem.ThresholdsOutOfRange | backend/backtest_system.py:293-314 | with thresholds at the ends of 0..100, no rule ever fires on an RSI inside 0..100 |
| Serializer.SerialiseTrades | backend/reports/serializer.py:10-36 | no table gives no records; otherwise one record per row, in order, each the record of its row |
| Serializer.RecordOfSpec | backend/reports/serializer.py:17-35 | a record publishes net PnL as `pnl` and net return as `ret`; its dates read back as the row's; it has a symbol exactly when the table does; the side defaults to "long" |
| Serializer.RecordRoundTrip | backend/reports/serializer.py:17-35 | with both optional columns present the row reads back from its record |
| Dates.NextDay | backend/api_server.py:324 | the next calendar day is a valid date after the given one, at most a year later |
| Dates.Format | backend/reports/serializer.py:20-21 | a formatted date is ten characters with dashes at positions 4 and 7 |
| Dates.ParseFormat | backend/reports/serializer.py:20-21 | a formatted date parses back to itself |
| Dates.FormatInjective | backend/reports/serializer.py:20-21 | distinct dates format differently |
| DataPipeline.Chunked | backend/data_pipeline.py:84-87 | a zero step is an error and a negative one yields no chunks |
| DataPipeline.ChunksConcat | backend/data_pipeline.py:84-87 | the chunks concatenate back to the input |
| DataPipeline.ChunksSizes | backend/data_pipeline.py:86-87 | every chunk is non-empty and at most the size, and all but the last are exactly the size |
| DataPipeline.ChunksBound | backend/data_pipeline.py:86 | no chunks exactly for no items, and m chunks hold between (m−1)·size + 1 and m·size items |
| DataPipeline.ChunksCount | backend/data_pipeline.py:86 | there are ⌈n / size⌉ chunks |
| DataPipeline.ChunkAt | backend/data_pipeline.py:86-87 | chunk j is the slice from j·size to min((j+1)·size, n) |
| DataPipeline.ReplaceChar | backend/data_pipeline.py:69 | after replacing a character none of it is left; a string without it comes back unchanged; no character other than the replacement appears that was not there before |
| DataPipeline.NormaliseSymbolSpec | backend/data_pipeline.py:69 | a normalised symbol has the same length, dots become dashes, and it is upper case with no dot |
| DataPipeline.NormaliseSymbolIdempotent | backend/data_pipeline.py:69 | normalising twice is normalising once |
| DataPipeline.RowLeIsPreorder | backend/data_pipeline.py:175 | the (symbol, date) order is a total preorder |
| DataPipeline.PricedSpec | backend/data_pipeline.py:176 | dropping unpriced rows keeps exactly the rows with an adjusted close, in order |
| DataPipeline.PreparedSpec | backend/data_pipeline.py:174-176 | a chunk's frame is sorted by (symbol, date) and holds exactly its priced rows |
| DataPipeline.FirstCall | backend/data_pipeline.py:125-155 | the attempt index is the first attempt that delivers rows, or the retry limit; every attempt before it failed |
| DataPipeline.FetchChunk | backend/data_pipeline.py:124-187 | the loop yields the frame of the first delivering attempt or nothing; it makes at most max_retries calls, all of them when it gives up; every earlier call failed; it waits pause·2^(i+1) after failure i and not after a success |
| DataPipeline.KeepLastSubset | backend/data_pipeline.py:191 | de-duplication keeps only input rows |
| DataPipeline.KeepLastDistinct | backend/data_pipeline.py:191 | no (symbol, date) key is kept twice |
| DataPipeline.KeepLastComplete | backend/data_pipeline.py:191 | the last row of every key is kept |
| DataPipeline.CombinedSpec | backend/data_pipeline.py:190-193 | the merged frame is sorted by (symbol, date), its keys are distinct, it holds only fetched rows, and the last row of each key is in it |
| DataPipeline.KeysDistinctPermutation | backend/data_pipeline.py:191-193 | sorting keeps keys distinct |
| DataPipeline.DownloadHistory | backend/data_pipeline.py:114-193 | a zero chunk size is an error; otherwise the download fails with no price data exactly when no chunk delivered, and succeeds with the merged chunk frames |
| DataPipeline.Limited | backend/data_pipeline.py:235-236 | the result is a prefix of the requested list: all of it without a limit or with a limit at least its length, none of it with limit 0, `n` tickers for a limit `n` in range, and all but the last `-n` for a negative `n` |
| DataPipeline.Unique | backend/data_pipeline.py:245 | distinct, same members |
| DataPipeline.Downloaded | backend/data_pipeline.py:244 | a symbol is downloaded exactly when some row carries it |
| DataPipeline.MissingSpec | backend/data_pipeline.py:244-245 | a symbol is missing exactly when requested and not downloaded; the list is distinct and sorted |
| DataPipeline.SortedSetUnique | backend/data_pipeline.py:245 | two sorted distinct lists with the same members are equal |
| DataPipeline.MissingIsSortedSetDifference | backend/data_pipeline.py:245 | the missing list is the unique sorted list of requested-minus-downloaded |
| DataPipeline.Shown | backend/data_pipeline.py:247 | the preview shows the first min(10, n) missing symbols |
| DataPipeline.ReportSpec | backend/data_pipeline.py:246-249 | a report exists exactly when symbols are missing; it counts them, previews all of them when there are at most ten and adds "..." exactly when there are more |

## Left out

- Execution.ExecuteCandidates: it requires every candidate to exit after it enters at a positive price. Candidates from `PrepareCandidates` always do. The Python code runs on any table without that requirement.
- Execution: trading dates are business-day ordinals, and exit = entry + hold. `BDay` calendars and timestamp normalisation are not modelled.
- Execution: candidates that agree on entry date, exit date and symbol keep their input order, as in a stable sort. `sort_values` does not promise an order among such ties.
- Execution: `np.expm1` is a parameter, because the model has no transcendental functions.
- Execution: the 1e-6 cash tolerance of the entry test is kept as a constant. Floating-point rounding is not modelled; money is `real`.
- Execution, Api: a missing forward return (NaN) is an absent value (`Option`) where the code tests for it with `pd.isna`. The NaN guard in `fee_for_notional` is covered by that choice.
- Pnl: NaN in the trades table is not modelled. In `ComputeDrawdown`, the infinity or NaN that pandas produces where the running maximum is zero becomes `None`. `groupby` drops trades with a NaN exit date and the sum skips NaN PnL; `nunique` skips NaN returns, so a table whose returns are all NaN gives ratio 0, outside the range `WarnIfReturnsConstant` states.
- Api.MakeTrades: a NaN `adj_close` is not modelled. `float` passes it through into the trade's prices.
- BacktestSystem.CheckRun: the wide-table checks of `prep` (a missing table, a table without a `date` column) are not modelled, so the model accepts runs the code rejects there.
- BacktestSystem.CalculateObv: it requires at least one price. The source fails with an `IndexError` on an empty series.
- BacktestSystem.CalculateObv: the OBV signal rules ("rise" / "positive") are not modelled. They use a 20-day rolling mean.
- BacktestSystem.RsiSignal: the RSI values are an input. The exponential moving averages that compute them are floating-point numerics and are left out.
- BacktestSystem: RSI, ADX, Aroon, Stochastic, MACD and EMA computations are out, for the same reason. `run_backtest`'s per-ticker loop, forward returns and statistics are out too. Only its validation, ticker selection and minimum-history computation are modelled.
- Api: FastAPI routing, the thread pool and JSON decoding are left out, because they are I/O. So are `_compute_metrics`, `_build_equity`, `_make_signals`, `universe_meta` and `fetch_market_caps`.
- Api: `_compute_drawdown` is the same computation as `compute_drawdown` and is covered by `Pnl.ComputeDrawdown`.
- Api.MapIndicators: it returns a new dictionary. The Python function mutates the caller's nested `rsi` dictionary in place, and that aliasing is not modelled.
- Api: request values are scalars or one-level dictionaries; list-valued options are not modelled.
- Text: upper-casing is ASCII-only. Python's `str.upper` handles all of Unicode.
- Dates: the pandas timestamp range is simplified to whole years 1677 to 2262.
- DataPipeline: yfinance downloads are an `outcome` function of chunk and attempt. `time.sleep` shows up as the returned list of waits. The column reshaping (`stack`/renaming) is left out because it is library behaviour.
- DataPipeline: `build_wide_tables`, the S&P 500 component fetch and the metadata fallback are left out, because they are I/O and file handling.
- DataPipeline: logging is left out. The missing-ticker message is modelled by its parts (count, preview, suffix) without number formatting.
