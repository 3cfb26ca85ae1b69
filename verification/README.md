# SGR backtesting kernel in Dafny

SGR is a trading platform that decides from backtests whether a strategy may trade real money. This
project models the part that makes the decision, and four small protocols beside it, and proves what
they compute.

| modules | what they model |
|---|---|
| `Common` | candles, options, sums, and rounding to the nearest even digit |
| `GridTypes`, `GridModel`, `GridSimulator` | one futures grid: its parameters and levels, what a backtest of it computes, and the simulator with its cell objects |
| `GridFills`, `GridExits` | what one bar of any grid run does: the order of its fills, when and why it closes the grid down, funding |
| `GridLedger`, `GridCells`, `GridExposure`, `GridRisk` | over whole grid runs: money and fills, the life of each cell, how much is open, liquidation and break-even |
| `Indicators` | the indicators of a price series, computed once over the whole series or anew on each history |
| `TradingModel`, `TradingSimulator` | the directional backtest: what a run computes, and the simulator with its position objects |
| `TradingEntries`, `TradingExits` | what one bar of any directional run does: which signal it acts on and on what terms, and when and why it closes a position |
| `TradingLedger`, `TradingCurve`, `TradingSides`, `TradingDiscipline` | over whole directional runs: cash, capital bound, no look-ahead, the recorded equity curve, the side and the order of trades |
| `Drawdown`, `Percentiles`, `MonteCarlo`, `WalkForward`, `Engine` | drawdown, percentiles, reordered trades, growing windows, gates, the decision, and the registry around it |
| `CircuitBreaker`, `Pagination`, `OrderSubmission`, `EventBus` | the four protocols, as steps under arbitrary interleaving, page boundaries, lost messages and errors |

Code that updates objects is a class whose methods update fields in place; each such method is proved
equal to a function on values, and the theorems are proved about those functions: `GridModel.RunResultOf`
for a grid run, `TradingModel.RunOf` for a directional run, `CircuitBreaker.Run` for a schedule of calls,
and so on. The table below names the theorems, and the methods that connect the code to them.

## How the source is represented

- Amounts, prices and ratios (`Decimal`, `float`) are `real`. Rounding is modelled where it can change
  a result that is used again: grid levels and feature fields (8 places), Monte Carlo (2 and 4 places),
  the reported Sharpe ratio (3 places). Elsewhere values are taken before the cosmetic `round`.
- Timestamps are integers in seconds.
- Inputs of the model, over which every theorem quantifies: the random permutations, square roots and
  the geometric mode's powers, strategies (functions of one bar's features and regime), the funding
  provider, the backtest of a walk-forward slice, what happens to each request to an exchange, which
  handlers fail, and what each Redis call does on the server and to its caller, which are two things. An
  indicator value that is not a finite number is `None`.
- Both simulators run on one symbol, as the source does. The directional simulator's dictionary of
  positions is a sequence in insertion order.
- In the circuit breaker a call is two steps, its start and its end (success, failure or cancellation),
  because other calls run while it waits. The clock does not go back.
- Preconditions: prices and slippage for which the source does not divide by zero; a first equity value
  above zero where a drawdown is taken; at least one Monte Carlo simulation; a venue whose bars are at
  least one bar length apart. Grid parameters are those that pass their own validation.

## Where the code and its documentation differ

The model follows the code.

- `sgr/core/resilience.py:34` says that HALF_OPEN allows one request. Any number of calls is admitted
  (`CircuitBreaker.HalfOpenAdmitsAny`, and `TwoProbes` for a schedule); `SingleProbeIff` says for every
  schedule exactly what callers must see to for one at a time.
- `sgr/backtesting/performance.py:146` says that at most 500 points are shown. There can be up to 999;
  `Drawdown.ThinnedLength` says exactly when there are more than 500, and `ThinnedAttains` shows 999.
- `sgr/backtesting/validation.py:57-62` describes a window that moves; the in-sample window grows.
- `sgr/core/grid_types.py:126-129` calls the total notional a worst case. Slippage on a full short grid
  can exceed it (`GridExposure.ExposureIff` and `ShortExposureIff`, by the run that `Excess` builds).
- `sgr/exchanges/ccxt_base.py:829-836` says that the look-up prevents double orders on a retry. Without
  support for it they happen (`OrderSubmission.TwoOrders`), and support is exactly what is needed
  (`OrderSubmission.NeverTwiceIffSupported`).

## Other behaviour that is easy to miss

- `sgr/backtesting/engine.py:200-214` deactivates again after any error in the body. An unregistered name
  fails before that, at `sgr/backtesting/engine.py:178-183`, and what was activated so far stays active
  (`Engine.RegistryRestoredIff`, and `RegistryCanStayActive` for a registry).
- `sgr/backtesting/data_loader.py:419-433` keeps a bar exactly at `end`, except on a page boundary
  (`Pagination.EndBarMissingIff`, and `EndBarCanBeMissing` for a page of 500 bars).
- The grid's equity curve has no point after the close at the end of the data, so it lacks those taker
  fees (`GridLedger.LastPointAgainstFinalLedger`).
- An entry signalled at a bar is booked at the next bar's open but already shows in the signalling bar's
  equity point, so equity points agree up to one bar less than the candles do
  (`TradingLedger.StatesDoNotLookAhead`). `TradingCurve.NextOpenDecidesIff` says exactly when the next
  point agrees too, and `NextOpenCanDecide` gives a pair of series for which it does not.
- The backtest opens a short for every signal that does not say long, also for "close" and "neutral"
  (`TradingSides.TradesFollowSignals`, and `CloseSignalGoesShort` for a run). No strategy of the
  repository gives such a signal.
- The slippage recorded with a long trade nets its two fills: closed at the price it was opened at, it
  records none although it paid twice (`TradingEntries.RecordedSlippage`).
- An acknowledgement that fails makes the handler run again, so a message can be dead-lettered although
  its handler completed (`EventBus.CompletedYetDeadLetteredIff`). When the reply to an acknowledgement is
  lost, the handler runs again on a message that is already acknowledged (`EventBus.HandledAgainAfterAck`).
- A Redis error during dead-lettering skips the rest of its batch, and this consumer never sees the
  skipped messages again (`EventBus.DeliveredIff`).
- The one-pass drawdown is not the worst fall once equity is negative
  (`Drawdown.NegativeEquityMisleads`; exactly when it is: `Drawdown.OnePassExactIff`).
- Monte Carlo reports a spread of returns and Sharpe ratios; a reordering cannot spread either
  (`MonteCarlo.ReturnsDoNotSpread`).

## Model

| member | source | states |
|---|---|---|
| `GridTypes.Validate` | sgr/core/grid_types.py:83-96 | parameters are accepted if and only if the bounds are positive and ordered, there are two levels, leverage is at least one, and the direction is not neutral; otherwise the first of these that fails is reported |
| `GridTypes.ArithmeticLevelsAscend` | sgr/core/grid_types.py:98-116 | arithmetic levels run from the rounded lower to the rounded upper bound and ascend; strictly when the step exceeds the rounding unit |
| `GridTypes.StepOfOneUnitCollapses` | sgr/core/grid_types.py:98-116 | a step of exactly one rounding unit can make two levels coincide, so that bound is strict |
| `GridTypes.GeometricLevelsAscend` | sgr/core/grid_types.py:104-116 | geometric levels ascend between the rounded bounds for powers that start at one, do not fall and reach the ratio of the bounds |
| `GridSimulator.GridBacktestSimulator.constructor` | sgr/backtesting/grid_simulator.py:118-123 | the simulator trades on the levels computed from its parameters |
| `GridSimulator.GridBacktestSimulator.BuildCells` | sgr/backtesting/grid_simulator.py:138-147 | fresh, distinct, closed cells, one per pair of neighbouring levels, entered at the lower level for a long grid and at the upper for a short one |
| `GridSimulator.GridBacktestSimulator.TryOpenCells` | sgr/backtesting/grid_simulator.py:307-326 | opens exactly the closed cells whose entry level the bar touches and whose quantity is positive, leaves the others unchanged, and counts them |
| `GridSimulator.GridBacktestSimulator.TryCloseCells` | sgr/backtesting/grid_simulator.py:328-347 | closes exactly the open cells whose exit level the bar touches; one trade each in cell order, their net sum, and their number as fills |
| `GridSimulator.GridBacktestSimulator.CloseCell` | sgr/backtesting/grid_simulator.py:349-390 | the trade of one cell, with maker fees for a cycle and taker fees otherwise, and the cell closed with its levels kept |
| `GridSimulator.GridBacktestSimulator.ForceCloseAll` | sgr/backtesting/grid_simulator.py:392-409 | all open cells closed at one price, one trade each |
| `GridSimulator.GridBacktestSimulator.FillBar` | sgr/backtesting/grid_simulator.py:172-192 | the two fill passes of a bar in the order its direction suggests, with trades, P&L and fills added up |
| `GridSimulator.GridBacktestSimulator.FindExit` | sgr/backtesting/grid_simulator.py:210-273 | the first forced exit that applies, in priority order, and the price it closes at |
| `GridSimulator.GridBacktestSimulator.Point` | sgr/backtesting/grid_simulator.py:455-476 | the equity point: capital plus realised P&L, and the mark-to-market of the open cells |
| `GridSimulator.GridBacktestSimulator.Run` | sgr/backtesting/grid_simulator.py:125-301 | the loop over cell objects, with its breaks and its `else`, computes the run that the theorems are about |
| `GridFills.FillOrder` | sgr/backtesting/grid_simulator.py:172-192 | at every bar a run reaches and for every cell: on a bar that favours the grid closings come first, so only a cell that was open gives a cycle trade and it can open again; on a bar against it openings come first, so a cell can open and close at once and one whose exit level is touched ends closed; with the opening bar and the trade's times |
| `GridFills.FavouredCyclesWereOpen` | sgr/backtesting/grid_simulator.py:174-186 | on a bar that favours the grid every cycle trade is of a cell that was open before it |
| `GridExits.StopDecides` | sgr/backtesting/grid_simulator.py:210-276 | at every bar a run reaches: the grid is closed down if and only if its margin is lost, its target or stop is met, its time is up or the close breaks out, for the first of these, and each open cell closes at the price that belongs to the reason |
| `GridExits.LiquidatedIff` | sgr/backtesting/grid_simulator.py:419-440 | the estimated liquidation price is reached exactly when the open cells have lost entry notional over leverage at the bar's bad end |
| `GridExits.FundingIs` | sgr/backtesting/grid_simulator.py:197-208 | funding is charged exactly at the whole intervals after the first bar: open quantity times close times the provided or else assumed rate |
| `GridExits.IntervalIs` | sgr/backtesting/grid_simulator.py:162-163 | the interval is as many whole bars as fit into its hours, at least one |
| `GridExits.MaxOpenIs` | sgr/backtesting/grid_simulator.py:194-195 | the reported maximum is the largest number of cells open after the fills of a bar, and is attained |
| `GridLedger.PassConserves` | sgr/backtesting/grid_simulator.py:328-409 | a closing pass turns every cell it closes into one trade with its reason; a forced pass leaves none open |
| `GridLedger.ForceCloseRealisesMark` | sgr/backtesting/grid_simulator.py:392-409 | closing everything at a price realises the mark-to-market value at that price less the fees |
| `GridLedger.CurveIsLedger` | sgr/backtesting/grid_simulator.py:169-301 | at every recorded bar cash is capital plus the net P&L of all trades so far minus funding paid, and the portfolio value adds the mark-to-market of the open cells |
| `GridLedger.LastPointAgainstFinalLedger` | sgr/backtesting/grid_simulator.py:278-301 | the last equity point exceeds the final ledger by exactly the taker fees of the cells closed at the end of the data, and equals it after an early exit |
| `GridLedger.StopReasons` | sgr/backtesting/grid_simulator.py:210-273 | the loop breaks for one of the five forced reasons only |
| `GridLedger.ReportedReason` | sgr/backtesting/grid_simulator.py:125-137 | insufficient data is reported exactly for fewer than two bars, with nothing recorded; any other run ends for a forced reason or records every bar and ends with the data |
| `GridLedger.FillConservation` | sgr/backtesting/grid_simulator.py:188-291 | on every exit path all cells end closed and fills are the number of trades plus the number of cycle trades |
| `GridCells.CellLevels` | sgr/backtesting/grid_simulator.py:138-147 | a cell lies between two neighbouring levels; a long one buys at the lower and sells at the higher, a short one the other way round |
| `GridCells.AfterOrderly` | sgr/backtesting/grid_simulator.py:307-390 | after every bar each cell keeps its levels and, when open, holds what its opening bought at an earlier bar; its past trades ended before it opened |
| `GridCells.TradesOfARun` | sgr/backtesting/grid_simulator.py:307-390 | every trade of a run is one whole cell at its own levels with P&L, fees and slippage from its own prices, opened and closed at bars of the series with the bars between as its holding; exits are in time order, and trades of one cell do not overlap |
| `GridCells.GridDoesNotLookAhead` | sgr/backtesting/grid_simulator.py:169-276 | what a grid has done by bar n is the same for any two series that agree on the first n bars |
| `GridRisk.LiquidationLosesMargin` | sgr/backtesting/grid_simulator.py:419-440 | at the estimated liquidation price the open cells have lost exactly their entry notional divided by the leverage, long or short |
| `GridRisk.LiquidatedRun` | sgr/backtesting/grid_simulator.py:210-226 | a run that was liquidated lost exactly that on the liquidated trades, and their notional is within the announced exposure |
| `GridExposure.WithinTotalAtEveryBar` | sgr/core/grid_types.py:126-129 | for a bounded configuration the entry notional of the open cells is within the announced total at every bar of every run: right after the openings, before the forced exits and after the bar |
| `GridExposure.ExposureIff` | sgr/backtesting/grid_simulator.py:307-326 | for every valid configuration that holds in all runs if and only if the size is not negative and either nothing can open (size zero, or no positive fill price) or the cells with positive entry levels number at most level count times (1 + slippage), with 1 - slippage for shorts |
| `GridExposure.Excess` | sgr/backtesting/grid_simulator.py:307-326 | otherwise there is a run of two bars whose first bar exceeds the total |
| `GridExposure.ShortExposureIff` | sgr/backtesting/grid_simulator.py:411-417 | for a short grid with positive entry levels it comes down to size zero, slippage of at least one, or level count times slippage of at most one |
| `GridExposure.LongExposureHolds` | sgr/backtesting/grid_simulator.py:411-417 | a long grid stays within the total for every slippage and size that are not negative |
| `GridRisk.CycleBreakEven` | sgr/backtesting/grid_simulator.py:349-364 | a cycle's net P&L is positive if and only if exit(1-s)(1-f) > entry(1+f), mirrored for shorts |
| `GridRisk.CashRisesWhileCellsClear` | sgr/backtesting/grid_simulator.py:328-347 | when all cells clear that condition, cash falls between two bars by at most the funding paid between them |
| `GridRisk.CashNeverFallsWithoutFunding` | sgr/backtesting/grid_simulator.py:194-208 | with no funding the cash column never falls before a forced exit |
| `Indicators.SmoothCausal` | sgr/market_data/feature_engineering.py:72-120 | exponential and Wilder smoothing of agreeing prefixes agree |
| `Indicators.SmoothPresentCausal` | sgr/market_data/feature_engineering.py:179-190 | so does smoothing only the values present and putting them back in place |
| `Indicators.RsiCausal` | sgr/market_data/feature_engineering.py:140-160 | RSI at a bar depends on the bars up to it, also across the early return for short series |
| `Indicators.MacdCausal` | sgr/market_data/feature_engineering.py:163-190 | so do the MACD line and its signal line |
| `Indicators.AtrCausal` | sgr/market_data/feature_engineering.py:193-201 | so does the average true range |
| `Indicators.AdxCausal` | sgr/market_data/feature_engineering.py:204-249 | so does ADX, through its compaction of missing values |
| `Indicators.BandsCausal` | sgr/market_data/feature_engineering.py:252-288 | so do Bollinger bands and Keltner channels |
| `Indicators.VwapCausal` | sgr/market_data/feature_engineering.py:291-304 | so does the volume-weighted price |
| `Indicators.ObvCausal` | sgr/market_data/feature_engineering.py:307-317 | so does on-balance volume |
| `Indicators.PrecomputeIsComputePerBar` | sgr/backtesting/simulator.py:162-297 | features computed once over the whole series equal, at every bar with enough history, those computed anew on the history up to it, and are absent before |
| `Indicators.FeaturesDoNotLookAhead` | sgr/backtesting/simulator.py:180-190 | series that agree on n bars have the same features there |
| `TradingSimulator.SimulatedPosition.UpdateExcursions` | sgr/backtesting/simulator.py:115-125 | the position keeps its worst and best move so far, including this close |
| `TradingSimulator.BacktestSimulator.UpdatePositions` | sgr/backtesting/simulator.py:750-753 | every open position's excursions are updated in place, nothing else |
| `TradingSimulator.BacktestSimulator.ComputePortfolioValue` | sgr/backtesting/simulator.py:755-775 | cash plus the value of a long, minus that of a short |
| `TradingSimulator.BacktestSimulator.OpenPosition` | sgr/backtesting/simulator.py:492-561 | an entry with its size, its three refusals and its cash booking by side |
| `TradingLedger.TradeCosts` | sgr/backtesting/simulator.py:687-738 | a closed trade earns the move to the unslipped price, less slippage on the exit and less the fee on both notionals, on either side |
| `TradingLedger.CloseBooksNetPnl` | sgr/backtesting/simulator.py:706-740 | closing records one trade and moves cash by its net P&L less what opening did to cash |
| `TradingSimulator.BacktestSimulator.ClosePosition` | sgr/backtesting/simulator.py:676-740 | proceeds or buy-back cost booked to cash, the trade appended, no position left |
| `TradingSimulator.BacktestSimulator.CheckExits` | sgr/backtesting/simulator.py:571-674 | the first of regime change, stop, target and time limit closes the position at the close; a position in another symbol is left alone |
| `TradingSimulator.BacktestSimulator.RecordEquity` | sgr/backtesting/simulator.py:777-802 | running peak and equity point, and nothing else |
| `TradingSimulator.BacktestSimulator.ProcessBar` | sgr/backtesting/simulator.py:363-398 | one turn of the loop: excursions, exits, at most one entry at the next open, equity |
| `TradingSimulator.BacktestSimulator.Run` | sgr/backtesting/simulator.py:299-429 | a run from any earlier state computes the run that the theorems are about and leaves no position open |
| `TradingExits.ExitDecides` | sgr/backtesting/simulator.py:608-674 | at every bar: a position in the bar's symbol is closed if and only if the ranging regime left, its loss exceeds the multiple of the average true range, its gain reaches the target's, or its holding reaches the limit, for the first of these; otherwise it stays |
| `TradingExits.StopAtrIs` | sgr/backtesting/simulator.py:629-640 | the range behind the stop is thirteen parts of the mean of fourteen true ranges and one part of the last, over the fifteen bars up to the bar, unless it is zero |
| `TradingExits.EveryTradeHasItsReason` | sgr/backtesting/simulator.py:374-420 | every trade of a run was closed in the loop for the reason that applied first at its bar, or is the last one, closed by the end of the data |
| `TradingEntries.EntryDecides` | sgr/backtesting/simulator.py:501-561 | at every bar after its exits: a position is opened if and only if none is left, a signal is chosen, there is a next bar, and cash, quantity and cost allow it; at the next open made worse by slippage, for the smaller of the position limit and 95 percent of cash times size hint times confidence, on the signal's terms, with cash booked by side |
| `TradingEntries.SignalsAreGiven` | sgr/backtesting/simulator.py:441-454 | the signals considered are exactly those that a strategy supporting the regime gives with a confidence of at least 0.55 |
| `TradingEntries.FirstMostConfident` | sgr/backtesting/simulator.py:462-463 | the first of the most confident signals is chosen |
| `TradingEntries.RegimeMeans` | sgr/backtesting/simulator.py:804-828 | when each regime is detected, and that three never are |
| `TradingEntries.RecordedSlippage` | sgr/backtesting/simulator.py:701-704 | the recorded slippage of a long nets its two fills, that of a short adds them |
| `TradingLedger.CashIsConserved` | sgr/backtesting/simulator.py:524-561 | through any run cash is capital plus the net P&L of closed trades plus the signed entry flow of the open position |
| `TradingLedger.FinalCash` | sgr/backtesting/simulator.py:687-740 | a run ends flat with exactly capital plus total net P&L, for longs and shorts alike |
| `TradingCurve.CurveIsLedger` | sgr/backtesting/simulator.py:396-398 | in every run there is one equity point per bar after the warm-up: its cash is the ledger of the trades and the open entry so far, its value adds the unrealised P&L at that close less the entry fee, and its drawdown is the fall from the highest value so far |
| `TradingCurve.LastPointAgainstFinalCash` | sgr/backtesting/simulator.py:396-429 | the last point exceeds the final cash by exactly what closing the position open at the end costs |
| `TradingLedger.StatesDoNotLookAhead` | sgr/backtesting/simulator.py:345-398 | series that agree on k bars lead to the same state, equity points included, before bar k-1 |
| `TradingLedger.ExitsDoNotLookAhead` | sgr/backtesting/simulator.py:374-394 | and to the same in-loop trades at every bar before k |
| `TradingCurve.NextOpenDecidesIff` | sgr/backtesting/simulator.py:387-398 | the state after bar k-1 is the same too if and only if an entry signalled there is filled alike in both series, or in neither |
| `TradingCurve.NextOpenCanDecide` | sgr/backtesting/simulator.py:391-394 | two series that agree on k bars and whose equity points at bar k-1 are 10000 and 9500 |
| `TradingLedger.LongOnlyCapitalBound` | sgr/backtesting/simulator.py:509-547 | at every bar of a long-only run cash after k trades is at least capital times (1 - m(1+fee))^k, with one power more while a position is open, and never negative |
| `TradingLedger.LongOnlyFinalCash` | sgr/backtesting/simulator.py:410-420 | and so is the final cash, after the forced close at the end of the data |
| `TradingLedger.CashGuard` | sgr/backtesting/simulator.py:524-529 | the guard that cash covers the cost never fires for a fee of at most 1/19; for an entry at full size and confidence it fires for every higher fee |
| `TradingDiscipline.RunIsOrderly` | sgr/backtesting/simulator.py:374-420 | at every bar: at most one position, filled at the open after its signal, within the holding limit, after all earlier trades closed |
| `TradingDiscipline.TradeDiscipline` | sgr/backtesting/simulator.py:374-420 | closed trades are strictly ordered in time without overlap, each is held between 1 and max(1, limit) bars, and its excursions are exactly the worst and the best move, or zero, at the closes from its first bar to its exit |
| `TradingDiscipline.SignalChoice` | sgr/backtesting/simulator.py:435-463 | a signal is chosen if and only if some confident strategy signals and long and short are not both asked for; none is more confident |
| `TradingSides.TradesFollowSignals` | sgr/backtesting/simulator.py:501-507 | every trade of a run was filled at the bar after a signal and is long if and only if that signal says long |
| `TradingSides.NoLongSignalNoLongTrade` | sgr/backtesting/simulator.py:501-507 | a run without signals to go long has no long trade |
| `TradingSides.CloseSignalGoesShort` | sgr/backtesting/simulator.py:501-507 | a run whose only signal is "close" trades, and only short |
| `Drawdown.MaxDrawdown` | sgr/backtesting/performance.py:184-215 | the one pass returns the largest fall from the running peak, and the days from the first point that attains the peak to the first trough that attains the fall |
| `Drawdown.OnePassIsPairwiseMax` | sgr/backtesting/performance.py:193-207 | for equity that never goes negative this is the maximum fall over all pairs of points in time order |
| `Drawdown.OnePassExactIff` | sgr/backtesting/performance.py:193-207 | for every curve with a positive start it is, if and only if equity never goes negative or the relatively deepest fall below zero over all pairs is one from the start, to a point with no other positive value before it |
| `Drawdown.NegativeEquityMisleads` | sgr/backtesting/performance.py:193-207 | the curve 100, 200, -50, for which it is not |
| `Drawdown.ThinnedLength` | sgr/backtesting/performance.py:140-147 | a report shows at most 500 points if and only if the curve has at most 500 or a multiple of 500, and never more than 999 |
| `Drawdown.ThinnedAttains` | sgr/backtesting/performance.py:140-147 | a curve of 999 points is shown in full |
| `Drawdown.ThinnedAt` | sgr/backtesting/performance.py:140-147 | the points shown are those at the multiples of the step, from the first on |
| `MonteCarlo.Run` | sgr/backtesting/validation.py:214-295 | the simulation loop computes the summary that the theorems are about |
| `MonteCarlo.Scan` | sgr/backtesting/validation.py:246-255 | its drawdown is the same one-pass drawdown as the analyzer's |
| `MonteCarlo.SumOfShuffle` | sgr/backtesting/validation.py:238-241 | any sum over the trades is the same in every order |
| `MonteCarlo.ReturnAndSharpeOfShuffle` | sgr/backtesting/validation.py:243-263 | final return and Sharpe ratio are the same in every order |
| `MonteCarlo.ReturnsDoNotSpread` | sgr/backtesting/validation.py:265-295 | for whatever is drawn, the three return percentiles coincide, and so do the five Sharpe statistics |
| `Percentiles.PercentileWithin` | sgr/backtesting/validation.py:280-295 | an interpolated percentile lies between any bounds of the sample |
| `Percentiles.PercentileMeans` | sgr/backtesting/validation.py:280-295 | it is the linear interpolation at rank q/100 (n-1) between two neighbouring order statistics, which counting the values at or below and at or above determines |
| `Percentiles.PercentileEnds` | sgr/backtesting/validation.py:288-294 | percentile 0 is the minimum and 100 the maximum |
| `Percentiles.PercentileMonotone` | sgr/backtesting/validation.py:280-295 | a percentile does not fall as its percentage rises |
| `MonteCarlo.ReportMeans` | sgr/backtesting/validation.py:225-287 | the reported drawdowns are those percentiles over the draws, and the ruin probability is the share of draws that lose more than half of a peak; fewer than ten trades are reported as certain ruin |
| `MonteCarlo.SharpeMeans` | sgr/backtesting/validation.py:257-263 | the Sharpe ratio of a draw in terms of the mean return and the mean squared return |
| `MonteCarlo.DrawdownWithinLosses` | sgr/backtesting/validation.py:246-255 | no order draws down more than all losses relative to the capital |
| `MonteCarlo.LosersFirstAttains` | sgr/backtesting/validation.py:246-255 | with the losers first that bound is attained exactly |
| `MonteCarlo.WorstShuffle` | sgr/backtesting/validation.py:238-255 | for every set of trades some order attains the bound and none exceeds it |
| `MonteCarlo.LossesBoundTheReport` | sgr/backtesting/validation.py:265-295 | total losses of at most a whole percentage of capital bound the reported P95 drawdown by it, and at most 50 percent rules out ruin, for whatever is drawn |
| `WalkForward.Run` | sgr/backtesting/validation.py:48-190 | the split loop computes the verdict that the theorems are about |
| `WalkForward.SlicesAreSound` | sgr/backtesting/validation.py:99-119 | every simulated slice is in bounds and has at least twice the warm-up, and out of sample starts where in sample ends |
| `WalkForward.AllSplitsRunIff` | sgr/backtesting/validation.py:78-119 | all splits run in and out of sample if and only if there are at least (n+1) times twice the warm-up bars |
| `WalkForward.VerdictOverAllSplits` | sgr/backtesting/validation.py:99-190 | with that many bars the verdict is taken over all splits, in and out of sample, and reports all of them |
| `WalkForward.SlicesOfAllSplits` | sgr/backtesting/validation.py:93-119 | which slices are simulated then, bar by bar: a growing prefix, and behind it a sixth of a split but at least 400 bars |
| `WalkForward.AllSplitsReportedIff` | sgr/backtesting/validation.py:99-190 | all splits are reported if and only if a split is longer than the warm-up and the bars behind the last in-sample slice are twice the warm-up |
| `WalkForward.OosWindowsDisjointIff` | sgr/backtesting/validation.py:93-105 | neighbouring out-of-sample windows are disjoint if and only if there are that many bars |
| `WalkForward.OosWindowsPairwiseDisjoint` | sgr/backtesting/validation.py:93-105 | with that many bars all of them are pairwise disjoint |
| `WalkForward.ConsistentIff` | sgr/backtesting/validation.py:152-163 | consistent means: something ran out of sample, all of it positive, and its mean exceeds half of a positive in-sample mean; the score is the share of positive slices |
| `Engine.CheckGoLiveGates` | sgr/backtesting/performance.py:308-328 | every limit that is missed blocks exactly once, in order, and nothing else does; there is no blocker if and only if all five limits are met |
| `Engine.HitRateGate` | sgr/backtesting/performance.py:253-260 | the hit rate reaches 40 percent if and only if five times the winning trades are at least twice all trades |
| `Engine.FactorGate` | sgr/backtesting/performance.py:256-259 | the profit factor is below 1.3 if and only if ten times the gains are less than thirteen times the losses, put as sums over all trades and their sizes |
| `Engine.BlockersOfBacktest` | sgr/backtesting/performance.py:96-103 | which of the five limits a backtest misses, counted trade by trade |
| `Engine.MakeDecision` | sgr/backtesting/engine.py:384-462 | the decision and all blockers; GO if and only if nothing that was handed in blocks, CONDITIONAL if and only if there are one or two blockers and the reported Sharpe ratio exceeds 0.7 |
| `Engine.WithoutTrades` | sgr/backtesting/performance.py:62-103 | without a trade the decision is NO-GO for any equity and Sharpe ratio, with the blockers that say so |
| `Engine.ConditionalIff` | sgr/backtesting/engine.py:426-447 | when a validation is CONDITIONAL, and that one without data is NO-GO |
| `Engine.GoIff` | sgr/backtesting/engine.py:300-312 | GO if and only if there is data; at least 30 trades, two in five of them winning, gains of at least 1.3 times the losses, a Sharpe ratio of at least one and a drawdown of at most 20 percent; and each analysis that was asked for ran on enough trades and passed, so that none asked for is skipped on the way to GO |
| `Engine.GoEarned` | sgr/backtesting/performance.py:253-260 | GO implies that the trades earned money in total |
| `Engine.GoMeansMoreCash` | sgr/backtesting/engine.py:289-324 | a simulated run that leads to GO ended with more cash than it began with |
| `Engine.GoBoundsEveryFall` | sgr/backtesting/performance.py:322-323 | after GO every equity value is positive and no two points in time order are more than 20 percent apart, downwards |
| `Engine.GoRunNeverFallsFar` | sgr/backtesting/engine.py:289-324 | a simulated run that leads to GO stayed solvent at every recorded point and never lost more than a fifth between two of them |
| `Engine.SmallLossesPassMonteCarlo` | sgr/backtesting/engine.py:413-420 | total losses of at most a quarter of the capital pass Monte Carlo for whatever is drawn, and asking for it then adds no blocker |
| `Engine.StrategyRegistry.SetActive` | sgr/strategy/registry.py:211-237 | one entry switched, or a failure and no change for an unknown name |
| `Engine.StrategyRegistry.ActivateMissing` | sgr/backtesting/engine.py:178-183 | names activated up to the first unknown one; remembered are exactly those that were inactive |
| `Engine.StrategyRegistry.DeactivateAll` | sgr/backtesting/engine.py:213-214 | exactly the given names become inactive |
| `Engine.StrategyRegistry.RunFullValidation` | sgr/backtesting/engine.py:173-214 | the registry is as before, also when the body raises, unless an unknown name stopped the activation |
| `Engine.RegistryRestoredIff` | sgr/backtesting/engine.py:178-214 | the registry is left as it was if and only if all names are known or all before the first unknown one were active |
| `Engine.RegistryCanStayActive` | sgr/backtesting/engine.py:178-185 | a registry in which a validation leaves a strategy active |
| `CircuitBreaker.CircuitBreaker.BeginCall` | sgr/core/resilience.py:65-74 | the part of a call before it waits: admission and the change to half-open |
| `CircuitBreaker.CircuitBreaker.EndWithSuccess` | sgr/core/resilience.py:79-84 | a success counts while half-open and may close |
| `CircuitBreaker.CircuitBreaker.EndWithFailure` | sgr/core/resilience.py:86-104 | a failure counts, is timed, and may open |
| `CircuitBreaker.CircuitBreaker.Reset` | sgr/core/resilience.py:113-118 | closing clears the counts and keeps the failure time |
| `CircuitBreaker.EveryScheduleSound` | sgr/core/resilience.py:54-118 | in every interleaving: closed exactly while the failure count is below the threshold, and the recorded failure time is that of the latest failure |
| `CircuitBreaker.InitiallyClosedBelowThresholdIff` | sgr/core/resilience.py:37-52 | this needs a positive threshold, and only that |
| `CircuitBreaker.FailuresAreCounted` | sgr/core/resilience.py:86-104 | in every schedule the failure count is the number of failures since the breaker last closed, or since the start |
| `CircuitBreaker.OpensAtThreshold` | sgr/core/resilience.py:86-104 | a closed breaker stays closed through all failures before the threshold-th since then and opens at exactly that one |
| `CircuitBreaker.ClosesOnlyAfterSuccesses` | sgr/core/resilience.py:79-82 | the breaker closes only on a success, after at least the success threshold of them since the latest failure |
| `CircuitBreaker.AdmittedIff` | sgr/core/resilience.py:65-74 | a call is admitted if and only if the breaker is closed or the timeout has passed since the latest failure |
| `CircuitBreaker.HalfOpenAdmitsAny` | sgr/core/resilience.py:65-77 | after the timeout any number of calls can be in flight together |
| `CircuitBreaker.SingleProbeIff` | sgr/core/resilience.py:65-104 | in every schedule, at most one call is in flight whenever the breaker is half-open if and only if every call admitted while it is not closed starts with nothing in flight |
| `CircuitBreaker.TwoProbes` | sgr/core/resilience.py:65-77 | a schedule with two probes in flight |
| `CircuitBreaker.Recovers` | sgr/core/resilience.py:65-84 | after the timeout, enough calls that start and succeed close an open breaker |
| `Pagination.Deduplicate` | sgr/backtesting/data_loader.py:536-541 | the dictionary loop keeps one candle per timestamp, in order of first appearance |
| `Pagination.KeepsTheLast` | sgr/backtesting/data_loader.py:536-541 | each kept candle is the last one with its timestamp |
| `Pagination.KeepsEveryTime` | sgr/backtesting/data_loader.py:536-541 | no timestamp is lost |
| `Pagination.CleanedAscends` | sgr/backtesting/data_loader.py:435-437 | whatever was fetched, the cleaned history is strictly ascending and a rearrangement of what deduplication kept |
| `Pagination.LoadPages` | sgr/backtesting/data_loader.py:419-433 | the page loop terminates and loads one contiguous piece of the venue's bars |
| `Pagination.PaginateAndLoad` | sgr/backtesting/data_loader.py:386-455 | cleaning does not change it |
| `Pagination.HistoryIsComplete` | sgr/backtesting/data_loader.py:419-437 | the history is strictly ascending, holds every bar from start to before end exactly once, and nothing outside start to end |
| `Pagination.EndBarMissingIff` | sgr/backtesting/data_loader.py:419-433 | a bar exactly at end is missing if and only if the bars before it fill whole pages and the last of them is its immediate predecessor |
| `Pagination.EndBarCanBeMissing` | sgr/backtesting/data_loader.py:419-433 | 500 bars and one at end, which is not loaded |
| `OrderSubmission.Exchange.FindExisting` | sgr/exchanges/ccxt_base.py:869-892 | what is found is the first order under the id; nothing is found exactly when the lookup is unsupported, fails, or there is no such order |
| `OrderSubmission.Exchange.PlaceOrder` | sgr/exchanges/ccxt_base.py:811-867 | look, submit, and try again after a transient error, against an exchange that may receive requests late or not at all |
| `OrderSubmission.AtMostOnce` | sgr/exchanges/ccxt_base.py:811-892 | with a truthful lookup and settled requests the exchange ends with at most one order per id for any lost responses and any number of attempts; a returned result is that order; other ids are untouched |
| `OrderSubmission.AnsweredAtOnce` | sgr/exchanges/ccxt_base.py:853-862 | an order accepted and answered at the first attempt is placed once and returned |
| `OrderSubmission.ReturnsIff` | sgr/exchanges/ccxt_base.py:811-867 | exactly when two attempts return an order rather than raise |
| `OrderSubmission.ResubmissionFindsTheOrder` | sgr/exchanges/ccxt_base.py:844-851 | submitting again under the same id changes nothing and returns the first order |
| `OrderSubmission.DoubleOrderIff` | sgr/exchanges/ccxt_base.py:811-867 | exactly when two attempts place two orders, without those assumptions |
| `OrderSubmission.NeverTwiceIffSupported` | sgr/exchanges/ccxt_base.py:829-851 | with settled requests and working lookups, no pattern of losses leads to two orders if and only if the exchange supports the lookup |
| `OrderSubmission.TwoOrders` | sgr/exchanges/ccxt_base.py:829-857 | two orders under one id without it |
| `EventBus.Consumer.MakeAttempt` | sgr/core/event_bus.py:294-306 | one pass of parsing, handler and acknowledgement, with what it left behind; an acknowledgement can take effect and still raise |
| `EventBus.Consumer.MoveToDeadLetters` | sgr/core/event_bus.py:306-328 | the dead letter and the acknowledgement after it, either of which can take effect and still raise |
| `EventBus.Consumer.ProcessMessage` | sgr/core/event_bus.py:280-331 | the retry loop, dead letter and acknowledgements of one message |
| `EventBus.Consumer.ConsumeBatch` | sgr/core/event_bus.py:258-278 | messages in order; an exception that escapes one skips the rest of the batch |
| `EventBus.CrashSafety` | sgr/core/event_bus.py:280-331 | wherever a crash cuts in, whatever raised and whatever took effect: every acknowledgement stands right behind a completed handler or a stored dead letter of its own, the handler ran at most three times, and the message was dead-lettered at most once |
| `EventBus.EffectCounts` | sgr/core/event_bus.py:293-331 | how often the handler runs, exactly when the message is dead-lettered, and that it is acknowledged as often as an acknowledgement takes effect |
| `EventBus.HandlerRuns` | sgr/core/event_bus.py:293-299 | the handler runs in exactly the attempts that are made and whose payload parses |
| `EventBus.HandledUntilThrough` | sgr/core/event_bus.py:293-306 | a message that parses is handled once, twice or three times, by whether its first and second attempt go through |
| `EventBus.AckedOnceIff` | sgr/core/event_bus.py:293-331 | a message is acknowledged exactly once if and only if exactly one acknowledgement takes effect |
| `EventBus.UnackedIff` | sgr/core/event_bus.py:293-331 | exactly when a message stays unacknowledged |
| `EventBus.AckedTwiceNeedsLostReply` | sgr/core/event_bus.py:299-306 | more than one acknowledgement takes a lost reply |
| `EventBus.HandledAgainAfterAck` | sgr/core/event_bus.py:299-306 | a message that is acknowledged, handled again and acknowledged again |
| `EventBus.WithoutRedisErrors` | sgr/core/event_bus.py:280-331 | without Redis errors every message is acknowledged exactly once, and dead-lettered if and only if all three attempts failed |
| `EventBus.CompletedYetDeadLetteredIff` | sgr/core/event_bus.py:299-328 | exactly when a message whose handler completed is dead-lettered |
| `EventBus.ProcessedIff` | sgr/core/event_bus.py:258-278 | a message of a batch is processed if and only if none before it raised |
| `EventBus.Consumer.Consume` | sgr/core/event_bus.py:234-278 | the consuming loop over any number of batches: which deliveries are processed, in order, and all they leave behind |
| `EventBus.DeliveredIff` | sgr/core/event_bus.py:242-278 | however long it runs, a delivery is processed if and only if no message before it in its own batch raised, and never twice |

## Left out

- TradingDiscipline.TradeDiscipline: assumes that strategies signal the symbol of the bar they see; a position in another symbol is never closed before the end of the data.
- Drawdown.MaxDrawdown: assumes a positive first value, because the source divides by the running peak.
- Drawdown.OnePassExactIff: falls from points with zero or negative equity are not percentages and are not among the pairs.
- OrderSubmission.DoubleOrderIff: is about the two attempts that the source allows, with no earlier order under the id.
- CircuitBreaker.EveryScheduleSound: assumes a positive failure threshold and a clock that does not go back; the source reads the wall clock.
- Regime tags of grid trades and of Monte Carlo inputs, trade ids, logging and free-text messages: they never feed back into what is modelled.
- Indicators.PrecomputeIsComputePerBar: says that both forms agree at every bar, not what each indicator's formula should be; the average true range behind the stop is the one whose formula is stated.
- Formulas for CAGR, Sortino, Calmar and the Sharpe ratio of a backtest; the Sharpe ratio is an input of the decision.
- The per-strategy and per-regime breakdown and the remaining trade statistics: sums over subsets of the trades.
- Warnings of the decision and the recommendation text of walk-forward, and rounding of its three reported averages.
- The settings of the walk-forward slices: the backtest of a slice is a function of its bounds.
- Rounding of equity points (2 places) and of their drawdown column (4 places), and 28-digit decimal contexts.
- The floating-point power of geometric levels: an arbitrary function of the level's index.
- Several symbols at once: the directional simulator uses only its first symbol.
- Paper-mode fills, the connection check, error mapping and the back-off delays of order submission; what is left is the retry of transient errors.
- Reading from Redis, consumer groups, redelivery after a crash and the trimming of the dead-letter stream.
- Gap detection and data warnings after loading, CSV files, the database cache and the history iterator.
- Order-book features: they are absent in a backtest.
