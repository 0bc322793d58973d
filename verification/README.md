# Verified core of the trading bot

A Dafny 4.11 model of the parts of the trading bot that decide trades and keep their
books, with proofs of what they keep. `dafny verify dfyconfig.toml` checks everything.

Each component comes in two layers. Classes and methods follow the program: the same
fields, loops, branches, constants and order of updates, each specified by a function of
its inputs or old state. Theorem modules then state what the program is for about those
functions, over every input, every run or every interleaving.

| component | modules |
|---|---|
| live exits and their mirror in the backtester | `PositionTracker`, `ExitConditions`, `ExitParity`, `ExitLifecycle`, `ExitSafety`, `ExitOutcomes` |
| event-driven backtest engine | `Events`, `MarketData`, `Ledger`, `EventLoop`, `Engine`, `EngineTheorems`, `EngineDecisions`, `EngineAccounting`, `EngineRuns` |
| bar-by-bar backtest | `Backtester`, `BacktesterTheorems`, `BacktesterTrades`, `BacktesterHistory` |
| realized P&L | `Fifo`, `FifoTheorems` |
| candidate selection and risk budget | `Candidates`, `CandidateTheorems`, `Concentration`, `ConcentrationTheorems` |
| rule conditions and indicator caches | `Crossings`, `IndicatorCache`, `IndicatorCacheTheorems` |
| context normal form | `ContextCanon`, `JsonText`, `ContextTheorems` |
| change budget, reference counts, rate limiter | `ChangeBudget`, `ChangeBudgetTheorems`, `RefCounts`, `RefCountTheorems`, `RateLimiter`, `RateLimiterTheorems` |
| drawdown, statistics, sizes | `Drawdown`, `Sizing`, `DrawdownTheorems` |
| shared | `Options`, `Money`, `Rounding`, `Symbols` |

## How the program is represented

- Prices and money are real numbers, quantities and times are integers. `round` is exact
  rounding to the nearest grid point with ties to even.
- Indicators, user conditions, `calculate`, `json.loads`, `get_sector`, `int(...)`, the upper
  case of indicator references and the printed form of a dictionary are pure functions passed
  as parameters. Answers of brokers, clocks and data sources are parameters too.
- `str.upper` on a candidate's symbol changes ASCII letters only, which is what tickers are
  made of; elsewhere symbols are upper case as the program stores them.
- The local state of `run_backtest` is grouped in a class `Account`; the rows of a database
  table are a map or a sequence held by the class whose methods write it. Steps of a
  protocol are atomic, as the locks and the single event loop make them.
- The contract of the order recovery and order lifecycle helpers is that of
  `backend/services/order_recovery.py` and `backend/services/order_lifecycle.py`.

## Where the code falls short of its comments

Each of these is stated as a lemma, next to the condition under which the code does meet
the comment: an if-and-only-if wherever a caller can check it beforehand.

- The exit mirror holds up to rounding: the live hard stop and trail are rounded to four
  decimals, the simulated hard stop is not (`ExitParity`).
- A watermark raised in the cycle in which a pending exit turns out cancelled is lost
  (`ExitSafety`).
- `get_bars` cuts by position, so a symbol with missing bars sees the future (`MarketData`).
- All signals of one bar are sized against the same cash, so n symbols can spend it n times
  (`EngineTheorems`). The reported final equity exceeds the final cash by one commission per
  force-closed position (`EngineAccounting`). Exit orders carry direction LONG, so their
  slippage is favourable.
- Cash in `run_backtest` can end at minus two commissions. The histories on which it can
  fall below minus one are given exactly (`BacktesterTheorems`).
- The budget ranks by score alone, so an exit can be crowded out, although the merge before
  it lets exits outrank entries (`CandidateTheorems`).
- The indicator cache is documented as cleared once per cycle, but nothing calls
  `clear_indicator_cache`; its key holds no data, and after `reset_index` not even a time
  (`IndicatorCacheTheorems`).
- Volatile fields inside lists survive normalization (`ContextTheorems`).
- A revert gives back the daily limit on rule disables and enables, unlike the daily budget
  (`ChangeBudgetTheorems`).
- One repeated symbol in a message breaks the reference counts (`RefCountTheorems`).
- Drawdown is understated once equity is negative (`DrawdownTheorems`).

## Model

| member | source | states |
|---|---|---|
| `PositionTracker.RegisterPosition` | backend/position_tracker.py:50-89 | A fill without a positive price is refused; otherwise the stored position starts its watermark at the fill price, with no attempts and no pending order, and its hard stop is the fill price minus (for a sale plus) the multiplier times ATR, or 3 per cent away when no ATR is known, rounded to four decimals |
| `PositionTracker.UpdateWatermarks` | backend/position_tracker.py:219-239 | The sweep returns, in list order, a raised copy of exactly the positions whose close improved on their watermark, and changes nothing in place |
| `PositionTracker.MovedCopiesExactly` | backend/position_tracker.py:219-239 | A copy is in the result if and only if it is the raised form of a listed position that moved |
| `ExitConditions.LongExitsIff` | backend/position_tracker.py:102-216 | A long reports a reason exactly when there are two bars, that reason fires and none before it does: close at or under the hard stop, close at or under the rounded trail behind the watermark, EMA 21 or SMA 50 crossed below, RSI above 70, MACD histogram from not negative to negative, each with its bars |
| `ExitConditions.ShortMirrorsLong` | backend/position_tracker.py:102-216 | A short exits on a reading exactly as the long of the mirrored market does on the mirrored reading |
| `ExitConditions.HardStopAtDistance` | backend/position_tracker.py:55-72 | The hard stop of either side lies a multiple of the ATR away from the fill on the losing side, or three per cent without a known ATR |
| `ExitConditions.BacktestChecksAreTracked` | backend/backtester.py:90-179 | The mirrored checks of the backtester are those of the tracker |
| `ExitParity.StepsAgreeIff` | backend/backtester.py:90-179 | On one bar, for every input, backtester (raise, then check) and live tracker (check, then raise) decide alike if and only if their hard stops do and the close is not a new high whose trail is swallowed by four-decimal rounding |
| `ExitParity.ResolvedIsNotSwallowed` | backend/position_tracker.py:102-113 | When multiplier times ATR exceeds the rounding step, no new high is swallowed |
| `ExitParity.RunsAgree` | backend/backtester.py:430-441 | Over every stream of closes and readings both programs exit on the same bar for the same reason and store the same watermark, given a resolved trail and equal hard stops |
| `ExitParity.RunsAgreeIff` | backend/backtester.py:90-179 | Over every stream the two runs coincide exactly when the per-bar guards hold on every bar reached |
| `ExitParity.LiveWatermarkIsHighest` | backend/bot_exits.py:62-95 | The live watermark is the highest of the entry and the closes seen so far |
| `ExitParity.LiveExitIsFirst` | backend/bot_exits.py:62-95 | The live exit is the first bar on which a condition fires: bar k, judged by the highest close before it, fires nothing before the exit and the reported reason on it |
| `ExitParity.BacktestWatermarkIsHighest` | backend/backtester.py:430-441 | The same watermark for the backtester, with no assumption on rounding |
| `ExitParity.BacktestExitIsFirst` | backend/backtester.py:430-441 | The backtest exit is the first bar on which a condition fires, bar k judged by the highest close up to and with it |
| `ExitParity.EntryParity` | backend/position_tracker.py:50-89 | Both programs start from the same watermark, and their hard stops differ by at most half a rounding step: the live one is rounded, the simulated one is not |
| `ExitParity.UnresolvedTrailBreaksParity` | backend/backtester.py:430-441 | Counterexample: on a nearly flat history a one-tick new high stops the backtester out while the live bot holds |
| `ExitLifecycle.ExitManager.PlaceExitOrder` | backend/bot_exits.py:165-326 | Submission of one exit: the stored row, the submitted orders and the exited set after every outcome (filled, pending, refused, error, forced close) are those of the specification, and no other row changes |
| `ExitLifecycle.ExitManager.CheckRetryCap` | backend/bot_exits.py:329-363 | Below the cap nothing happens; at the cap one forced submission is made with its full effect |
| `ExitLifecycle.ExitManager.ReconcilePendingExit` | backend/bot_exits.py:110-162 | A pending order that filled removes the row, one that ended otherwise marks a retry on the listed object and saves it, one still working changes nothing |
| `ExitLifecycle.ExitManager.ProcessExits` | backend/bot_exits.py:45-107 | A whole cycle: each position up to the first whose cycle raises leaves the row its own cycle implies, those behind it are swept only, unlisted rows are untouched, and orders and exited symbols add up in order |
| `ExitLifecycle.HandledRows` | backend/bot_exits.py:76-107 | Handling positions with distinct ids one by one gives each its own effect and no other |
| `ExitOutcomes.FillCloses` | backend/bot_exits.py:110-326 | Every position, market and world: a submission answered FILLED at a positive price is the last one of its cycle, a pending order reported FILLED at one leaves none; the row is gone and the exit recorded |
| `ExitOutcomes.ExitHasFill` | backend/bot_exits.py:110-326 | The converse: a recorded exit has such an answer or such a report in its cycle |
| `ExitOutcomes.PendingCycle` | backend/bot_exits.py:110-162 | A pending order reported filled closes the position, one that is unknown, cancelled, in error or open for 90 seconds counts as an attempt and clears the id, any other is left to work |
| `ExitOutcomes.CappedCycle` | backend/bot_exits.py:329-363 | From three attempts on a cycle sells at the entry price without asking for a signal, and the row follows the answer: gone, pending with its id, one attempt more, or as it was behind an exception |
| `ExitOutcomes.FreeCycle` | backend/bot_exits.py:72-107 | A position free to exit submits exactly when its history calls for an exit; a failed third attempt is followed by one forced submission; a row of less than one share is dropped |
| `ExitOutcomes.AttemptsCountFailures` | backend/bot_exits.py:110-363 | The attempts of a row that stays grow by the failed submissions of the cycle, and by one for a pending order that is over |
| `ExitOutcomes.NothingAfterFill` | backend/bot_exits.py:45-363 | Over every run: once a fill is reported the row is gone, there is one exit, and no later cycle submits anything |
| `ExitSafety.PlaceSound` | backend/bot_exits.py:165-363 | The mutual recursion of submission and retry cap makes at most two submissions, the second only once the cap is reached |
| `ExitSafety.CycleSafe` | backend/bot_exits.py:45-363 | For every position, market and world: a row disappears only through a reported fill or the below-one-share branch, nothing is submitted while an order id is pending, attempts never decrease |
| `ExitSafety.RunSafe` | backend/bot_exits.py:45-363 | Over every run of cycles: no submission with an order pending, in all at most twice as many as cycles, at most one exit, attempts and watermark never move back, and a row gone without an exit had less than one share |
| `ExitSafety.TwoPerCycle` | backend/bot_exits.py:45-363 | Each cycle of a run adds at most two submissions to those before it |
| `ExitSafety.StaleSaveLosesWatermark` | backend/bot_exits.py:156-157 | Counterexample: a new high in the cycle in which the pending exit turns out cancelled is lost, because the object loaded before the sweep is saved back |
| `ExitSafety.PendingRememberedIff` | backend/bot_exits.py:307-309 | A submitted order is remembered as pending exactly when its optional id is there and nonzero |
| `ExitSafety.WorkingOrderBlocks` | backend/bot_exits.py:72-74 | A position with a remembered order submits nothing, over however many cycles, as long as the order is working and its time is not up |
| `ExitSafety.SubmittedOnce` | backend/bot_exits.py:307-309 | A submission left pending with a nonzero id, as the order placement leaves it, stays the only one until the order fills, ends or times out |
| `ExitSafety.LifecycleFollowsLiveRun` | backend/bot_exits.py:62-107 | The whole cycle of a position with no pending order, fewer than three attempts and at least one share follows the live run of the exit checks: while that does not exit it keeps its watermark and submits nothing, and the first submission comes on the bar on which it exits |
| `Events.EventQueue.Put` | backend/events.py:224-227 | The new event is placed behind every pending one that is not later and before the rest; the others keep their order |
| `Events.EventQueue.Get` | backend/events.py:229-231 | The earliest pending event leaves, and among equal timestamps the one put first |
| `Events.EventQueue.GetBatch` | backend/events.py:239-255 | Exactly the events that share the next timestamp leave, in the order they were put |
| `Events.Spliced` | backend/events.py:216-231 | Placing a newest event at its slot keeps the queue chronological |
| `EventLoop.PhaseOrdered` | backend/backtest_engine.py:276-305 | For any handlers that cause at most one event of the next rank: one timestamp is drained in at most four steps per MARKET, all MARKETs before all SIGNALs before all ORDERs before all FILLs, every decision taken against the book from before the bar |
| `EventLoop.DrainBatch` | backend/backtest_engine.py:276-305 | A batch without fills leaves the book alone and queues exactly what it causes |
| `EventLoop.SpawnAllHasCause` | backend/backtest_engine.py:276-305 | Every caused event has a cause in the batch with the same symbol |
| `MarketData.DataHandler.NextBars` | backend/data_handler.py:88-115 | The next merged date is consumed: its MARKET events in symbol order, or the end of the data |
| `MarketData.DataHandler.GetBars` | backend/data_handler.py:117-124 | The window is cut by position in the history of that symbol, not by date |
| `MarketData.WindowHonestIff` | backend/data_handler.py:117-124 | For every history and index the window is the last n rows dated at or before the current date exactly when the symbol is caught up (a row on each date so far, or all rows out) |
| `MarketData.LaggingWindowLooksAhead` | backend/data_handler.py:122-124 | A symbol that is not caught up because rows are missing shows a row from the future |
| `MarketData.FullHistoryIsCaughtUp` | backend/data_handler.py:88-124 | A symbol with a bar on every merged date is caught up on every date |
| `MarketData.GapLooksAhead` | backend/data_handler.py:122-124 | Counterexample: with one missing bar, on date 2 the symbol already shows its bar of date 3 |
| `Ledger.Portfolio.UpdateFill` | backend/backtest_engine.py:185-214 | A fill of a held symbol closes that holding at the fill price and books the trade; any other opens a holding and pays for it |
| `Ledger.Portfolio.UpdateMarkToMarket` | backend/backtest_engine.py:216-239 | Equity becomes cash plus holdings at the latest known price, else at cost; the peak and one curve point are recorded |
| `Ledger.FillKeepsBalance` | backend/backtest_engine.py:185-214 | Every fill keeps: cash = initial + closed P&L - (cost basis and entry commission of what is open) |
| `Ledger.FillTouchesOneSymbol` | backend/backtest_engine.py:185-214 | A fill flips whether its own symbol is held and no other, and keeps one holding per symbol |
| `Ledger.BuyBooks` | backend/backtest_engine.py:185-214 | A fill of a symbol not held adds one holding at the fill price and takes quantity times price and one commission from cash |
| `Ledger.SaleBooks` | backend/backtest_engine.py:185-214 | A fill of a held symbol sells the whole holding, brings in its worth less one commission and books one trade with both times and prices |
| `Engine.BacktestEngine.Run` | backend/backtest_engine.py:259-316 | The program reaches the state of the day-by-day specification over all merged dates, then the forced close |
| `Engine.BacktestEngine.RunDay` | backend/backtest_engine.py:264-311 | One date: publish its bars, drain every event they cause, mark at the new closes |
| `Engine.BacktestEngine.DrainEvents` | backend/backtest_engine.py:276-305 | The inner loop handles exactly the events of the drain, in its order, and leaves its book |
| `Engine.BacktestEngine.Handle` | backend/backtest_engine.py:276-305 | MARKET, SIGNAL and ORDER handling put behind the queue exactly the event the strategy, the portfolio or the simulated broker makes of the frozen view |
| `Engine.BacktestEngine.ForceCloseOpenPositions` | backend/backtest_engine.py:318-337 | Each holding with a known bar is closed by one fill at its last close |
| `EngineTheorems.FillsAreEngineFills` | backend/backtest_engine.py:103-183 | Every fill of a bar sells the whole pre-bar holding of its symbol, or buys a positive quantity that the pre-bar cash covers at the close |
| `EngineRuns.DateDecides` | backend/backtest_engine.py:259-311 | Every run, every date, every symbol with a row of that date: what is held is sold exactly when two rows are shown, exit conditions exist and hold of the last 200 of its first k + 1 rows; what is not held is bought exactly when the entry conditions hold of them and the size, from the equity before the date, is one share at least and covered at the close by the cash before the date |
| `EngineRuns.SilentStays` | backend/backtest_engine.py:259-311 | A symbol without a row of the date is neither bought nor sold on it |
| `EngineRuns.EventsAreRows` | backend/data_handler.py:88-115 | A MARKET event is one of a date exactly when a history has a row of the date, with the close it carries |
| `EngineRuns.CurveOfRun` | backend/backtest_engine.py:216-239 | Every run has one curve point for each date so far, with the equity marked on it and, as its peak, the highest of the initial capital and the equities up to it |
| `EngineDecisions.BarDecides` | backend/backtest_engine.py:50-183 | The same on one bar of any number of symbols, for any frozen view and book: who is sold and who is bought, in both directions |
| `EngineDecisions.SizedIsLargest` | backend/backtest_engine.py:158-162 | The size is the largest whole number of shares that the percentage of the equity pays for, prices under a cent counted as one cent |
| `EngineDecisions.FillNearSlippedClose` | backend/backtest_engine.py:103-125 | Every fill of a bar lies within half a step of four decimals of the close raised by the slippage, sales too |
| `EngineDecisions.OrderFills` | backend/backtest_engine.py:103-125 | An order for a quoted symbol is filled once and in full: a market order at the close moved against its direction, a limit order at its limit, or at the close where that is zero; without a quote nothing is filled |
| `EngineDecisions.SignalNeedsChange` | backend/backtest_engine.py:154-183 | A signal to enter what is held, or to leave what is not, orders nothing |
| `EngineTheorems.DistinctFillsAdd` | backend/backtest_engine.py:185-214 | Fills of distinct symbols move cash by the sum of their effects on the pre-bar book |
| `EngineTheorems.OverdraftBound` | backend/backtest_engine.py:154-183 | For n symbols on one bar: at most n fills, and cash afterwards is at least the pre-bar cash less, per buy, that cash again with slippage, half a rounding step a share and commission, and per sale one commission |
| `EngineTheorems.OneSymbolOverdraft` | backend/backtest_engine.py:154-183 | One symbol overdraws by slippage, rounding and commission at most |
| `EngineTheorems.TwoSymbolsOverdraw` | backend/backtest_engine.py:154-183 | Counterexample to one-time spending: two symbols that signal on one bar spend the same 1000 twice and leave -1003, at the default slippage of 0.05 per cent |
| `EngineTheorems.SlippageCancelsOnRoundTrip` | backend/backtest_engine.py:174-182 | Exit orders carry direction LONG: a round trip on equal closes loses the two commissions and nothing else, whatever the slippage rate |
| `EngineAccounting.RunInvariant` | backend/backtest_engine.py:185-239 | After any number of dates: the cash identity, one holding per symbol of at least one share, and equity = cash + marks |
| `EngineAccounting.ForceCloseAll` | backend/backtest_engine.py:318-337 | The forced close empties the holdings, books one trade each, and turns their marks into cash less one commission each |
| `EngineAccounting.FinalAccounts` | backend/backtest_engine.py:313-337 | At the end cash = initial + all P&L, and the reported equity exceeds that by exactly one commission per force-closed position |
| `EngineAccounting.SameHandlersSameDrain` | backend/backtest_engine.py:276-305 | Handlers that decide alike drain alike |
| `EngineAccounting.NoLookAhead` | backend/backtest_engine.py:264-311 | Two runs with a bar for every symbol on every date whose bars agree up to date d have the same book, trades and equity curve up to d |
| `Backtester.RunBacktest` | backend/backtester.py:390-574 | Too few bars are refused; otherwise the trades are a complete run, cash is what they leave, each bar after the warmup has the equity that the trades closed or open by then imply, and the last exceeds the cash by one commission exactly when the last trade was forced |
| `Backtester.Account.DecideExit` | backend/backtester.py:425-463 | Raises the watermark before the check and returns the exit of the specification, in the order of priority of the source |
| `Backtester.Account.TryEnter` | backend/backtester.py:494-547 | A flat account enters at the close with whole shares of its share of cash, or stays flat |
| `Backtester.Account.ForceClose` | backend/backtester.py:550-574 | What is open after the last bar is closed at the last close with the reason end of data |
| `BacktesterTrades.TradeSize` | backend/backtester.py:494-505 | Every trade of a complete run opens at the close of a bar on which the entry is met, with the largest whole n for which 100 * n * close is at most the size percentage times the cash left by the trades before it |
| `BacktesterTrades.EntersIff` | backend/backtester.py:494-505 | A flat account enters on a bar exactly when two bars are there, the entry holds of them, the close is positive and the size percentage of its cash pays for one share |
| `BacktesterTrades.CashMoves` | backend/backtester.py:462-466 | Each trade moves cash by its shares times the price difference, less two commissions |
| `BacktesterTrades.SimpleTradeExits` | backend/backtester.py:443-463 | Without ATR trailing, on every bar of a trade: stop before target before exit conditions, a stop filled at its level or a worse open, a target at its level or a better open, a signal at the close; nothing before the exit bar |
| `BacktesterTrades.AtrTradeExits` | backend/backtester.py:425-463 | With ATR trailing, on every bar of a trade: the mirrored checks against the highest close since the entry, then the exit conditions, filled at the close; nothing before the exit bar |
| `BacktesterTrades.HardStopIs` | backend/backtester.py:508-522 | The hard stop is the multiplier, 3 unless set, times the ATR under the entry, or three per cent under it without fourteen bars and an ATR |
| `BacktesterTrades.EquityWhileOpen` | backend/backtester.py:530-540 | The equity of a bar on which a trade is open: the cash of the trades before it, less its cost and one commission, with its shares at the close |
| `BacktesterTrades.EquityWhileFlat` | backend/backtester.py:530-540 | The equity of a bar that ends flat is the cash of the trades closed by then |
| `BacktesterTheorems.CompleteRunUnique` | backend/backtester.py:413-574 | The declarative description of a complete run fixes it: same bars and settings, same trades |
| `BacktesterTheorems.TradesOrdered` | backend/backtester.py:413-547 | In every run each exit bar lies before the next entry bar, and nothing before the warmup |
| `BacktesterTheorems.FillsInsideBar` | backend/backtester.py:443-453 | Stop and target fills lie inside the bar and on the correct side of their level, gaps included |
| `BacktesterTheorems.EntryAffordable` | backend/backtester.py:494-505 | At a size of at most 100 per cent a buy never costs more than the cash before it, the commission aside |
| `BacktesterTheorems.CashFloor` | backend/backtester.py:413-574 | Over every complete run, forced close included, and at every point of it, with sizes of at most 100 per cent and no negative price: an open position leaves at least -1 commission, closed trades at least -2, and below -1 only after an exit under the commission, so never when no bar trades below it |
| `BacktesterTheorems.FloorBreaksAtClosesIff` | backend/backtester.py:413-574 | For all bars, warmup and commission: some run with accepted settings whose exits fill at closes takes cash below -1 commission if and only if a bar that the largest capital can buy at its close, from the warmup and row 1 on, is followed by a close below the commission, or is the last and itself closes below it |
| `BacktesterTheorems.FloorBreaksIff` | backend/backtester.py:413-574 | The same with stops (at most 50 per cent) and targets (at most 100) allowed, where no close exceeds the largest capital: if and only if that holds, or the lowest stop a later bar can be the first to hit is below the entry close and fills below the commission, or entry close and next open are both below the commission |
| `BacktesterTheorems.CollapseBreaksFloor` | backend/backtester.py:413-574 | An accepted history of 20 bars on which a complete run ends at -2 commissions: a price that collapses to zero after an entry on bar 1 |
| `BacktesterTheorems.TradeIsBacktestRun` | backend/backtester.py:425-441 | In ATR mode without user exits a trade is one run of the mirrored exit checks over the bars after its entry |
| `BacktesterTheorems.LiveBotTakesTheSameExit` | backend/backtester.py:90-179 | A live position registered on the entry bar and fed the same readings exits on the same bar for the same reason |
| `BacktesterHistory.NoLookAhead` | backend/backtester.py:413-574 | Two histories that agree on their first n bars, whatever follows: the same equity on each of those bars, and the same trades closed by it |
| `BacktesterHistory.SameClosed` | backend/backtester.py:413-547 | A trade closed on the common bars is the trade of the same number in the other run, and so are all before it |
| `Fifo.ComputeRealizedPnl` | backend/portfolio_analytics.py:36-105 | The program returns the canonical rows, the matched rows of the legacy desk, and the unrounded total that is the sum over both |
| `Fifo.MatchLegacy` | backend/portfolio_analytics.py:68-105 | The loop over time-sorted rows leaves the lots and matches of the desk specification |
| `Fifo.SellFromLots` | backend/portfolio_analytics.py:84-105 | One sale takes from the oldest lots until filled or out of lots |
| `Fifo.SortIsStable` | backend/portfolio_analytics.py:70 | Rows are in time order, are the same rows, and rows of equal time keep their order |
| `FifoTheorems.FifoRefinesQueue` | backend/portfolio_analytics.py:68-105 | For every symbol and any interleaving: lots left and matched rows, expanded share by share, are those of a queue of one-share lots run on the rows of that symbol alone |
| `FifoTheorems.SellSharesTakesOldest` | backend/portfolio_analytics.py:84-105 | Selling share by share takes the oldest shares and drops what is missing |
| `FifoTheorems.InterleavingIrrelevant` | backend/portfolio_analytics.py:68-105 | However rows of different symbols interleave, the matched rows of a symbol (entries, quantities, order) and its open lots are those of matching its own rows alone |
| `FifoTheorems.SharesConserved` | backend/portfolio_analytics.py:68-105 | Per symbol: bought = matched + left in lots, sold = matched + dropped |
| `FifoTheorems.NoDoubleScoring` | backend/portfolio_analytics.py:41-68 | No trade id is scored by both the canonical and the FIFO path |
| `FifoTheorems.LegacyIff` | backend/portfolio_analytics.py:41-68 | Exactly the rows whose id no row with an outcome takes, as its own or as its position, are matched lot by lot |
| `FifoTheorems.RealizedIs` | backend/portfolio_analytics.py:36-105 | The whole figure: the outcomes that rows carry, plus sale less entry price of every share matched among the rows no outcome covers; the fill price counts before the order price |
| `FifoTheorems.MatchPnlIsPerShare` | backend/portfolio_analytics.py:88-101 | The profit of a matched row is the sum of the profits of its shares |
| `Candidates.MergeCandidates` | backend/execution_brain.py:26-39 | The dictionary loop computes the merge specification, for every list |
| `Candidates.DrainDirectCandidates` | backend/execution_brain.py:93-104 | The drain returns the merge of the fresh candidates |
| `Candidates.ChooseCandidates` | backend/execution_brain.py:26-39 | The choice is the budgeted selection from the merge of both lists |
| `Candidates.AllocateCandidates` | backend/portfolio_allocator.py:7-26 | The greedy loop keeps what the selection specification keeps, in its order |
| `CandidateTheorems.MergeFusion` | backend/execution_brain.py:26-39 | Merging while draining changes nothing: choosing from rules and the drained list equals choosing from rules and the raw list, as lists |
| `CandidateTheorems.MergeKeepsWinners` | backend/execution_brain.py:19-39 | The merge holds, in order of first occurrence, the earliest candidate of maximal priority of each symbol |
| `CandidateTheorems.MergedIff` | backend/execution_brain.py:19-39 | The merge holds exactly the named candidates that no other of their symbol, in any spelling, beats: no entry where there is an exit, no entry with a lower score, of equals only the earliest |
| `CandidateTheorems.SortIsStable` | backend/portfolio_allocator.py:14 | Score-descending, stable, and a permutation |
| `CandidateTheorems.SelectionIsSound` | backend/portfolio_allocator.py:11-26 | For every list, risk and budget: selected risk within the budget unless nothing is selected, output score-descending and drawn from the input, equal scores in input order, and, unless a selected risk is negative, no rejected candidate would still fit |
| `CandidateTheorems.SelectionIsOptimal` | backend/portfolio_allocator.py:11-26 | With one risk for all candidates and non-negative scores no feasible pick scores more |
| `CandidateTheorems.GreedyNotOptimalInGeneral` | backend/portfolio_allocator.py:11-26 | Counterexample with unequal risks: one large candidate crowds out two |
| `CandidateTheorems.KeptIffRankFits` | backend/portfolio_allocator.py:11-26 | With one risk for all, list position i is kept exactly when i + 1 risks fit, whether it is an exit or not |
| `CandidateTheorems.DefaultKeepsThree` | backend/portfolio_allocator.py:7-26 | Where no candidate states its risk the default budget keeps the three best scores |
| `CandidateTheorems.StampsAre` | backend/portfolio_allocator.py:20-25 | What is kept carries its own risk, one per cent where none is given, to three decimals |
| `CandidateTheorems.FourthCrowdedOut` | backend/portfolio_allocator.py:11-26 | Counterexample to "exits outrank entries": with the default budget an exit behind three better scored entries is left out |
| `Concentration.ComputeCurrentSectorExposure` | backend/risk_manager.py:264-283 | For every sector the rounded percentage of its summed positive notionals, and nothing without a positive net liquidation |
| `Concentration.CountCorrelatedPositions` | backend/risk_manager.py:286-321 | The number of places of the held list whose symbol has a matrix entry with the candidate above the threshold in absolute value, a symbol held twice counted twice; self, missing and NaN entries do not count |
| `Concentration.CheckPortfolioImpact` | backend/risk_manager.py:324-456 | The verdict of the specification, from the collected exposure, for every candidate |
| `Concentration.RunCandidates` | backend/bot_runner.py:596-656 | The candidate loop computes the turns of the specification: orders, executed symbols and approvals |
| `ConcentrationTheorems.TurnAdds` | backend/bot_runner.py:596-656 | One turn leaves the notional of a sector as it is, or adds the candidate after its projection passed the limit |
| `ConcentrationTheorems.ProjectionBounds` | backend/risk_manager.py:283-376 | An admitted candidate leaves the weight of its sector at most at the larger of its start and the limit plus 0.005: the check adds the share of the candidate to a weight rounded to two decimals |
| `ConcentrationTheorems.SectorBound` | backend/bot_runner.py:596-942 | Over a whole cycle every sector weight, the sum of its positions, its pending buys and its approvals, ends at most at the larger of its starting weight and the limit plus 0.005 |
| `ConcentrationTheorems.ExecutedIff` | backend/bot_runner.py:596-942 | Over a whole cycle of candidates listed once: a candidate is executed if and only if the loop reaches it with nothing else in the way and, for a buy, the sum of positions, pending buys and earlier approvals of its sector and the symbols among them that are correlated with it leave room; a sale needs no room, and no later turn revises either |
| `ConcentrationTheorems.ApprovedIffExecuted` | backend/bot_runner.py:596-942 | The approvals that later checks count are exactly the executed buys, each with its notional |
| `ConcentrationTheorems.ApprovalsAdmitted` | backend/risk_manager.py:362-435 | Whatever is selected in a cycle, no buy over the sector limit or the correlation limit is executed: each approval was within both next to the approvals before it |
| `ConcentrationTheorems.CorrelationBound` | backend/risk_manager.py:408-435 | With a matrix, correlated pairs whose later member was approved number at most (max_correlated - 1) times the approvals |
| `ConcentrationTheorems.OrdersCapped` | backend/bot_runner.py:596-612 | The order cap holds, each symbol is executed at most once, and no entry is executed for a symbol that exited this cycle |
| `Crossings.CrossTurnsRound` | backend/indicators.py:192-218 | Swapping the series turns a cross above into a cross below and back |
| `Crossings.CrossAtLastTwoBars` | backend/indicators.py:211-217 | On complete bars a cross is reported exactly when the order of the two series changes between the last two bars |
| `Crossings.CrossRepeatsIffBarIncomplete` | backend/indicators.py:201-218 | A cross is reported again on the next bar exactly when that bar is incomplete in one of the series |
| `IndicatorCache.RuleEngine.EvaluateCondition` | backend/rule_engine.py:30-95 | One condition with both caches: result and both caches afterwards are those of the specification |
| `IndicatorCache.RuleEngine.EvaluateConditions` | backend/rule_engine.py:139-164 | All conditions are evaluated in order against one per-call cache, then combined |
| `IndicatorCache.RuleEngine.EvaluateAll` | backend/rule_engine.py:190-265 | The triggered rules and symbols in order, cooldowns, empty frames and universes included |
| `IndicatorCacheTheorems.ServedFreshIff` | backend/rule_engine.py:39-53 | Over any run from an empty cache every indicator served is the recomputed one exactly when uses that share a key compute the same series |
| `IndicatorCacheTheorems.ResolvedFreshIff` | backend/indicators.py:225-286 | Within one call every right-hand side is the recomputed one exactly when no condition value spells the key of its own or an earlier condition |
| `IndicatorCacheTheorems.KeySpelledOut` | backend/rule_engine.py:54-58 | Counterexample: a price condition with empty parameters and the value text PRICE_{} finds its own series under that text and compares it with itself, where without the cache the text is no number |
| `IndicatorCacheTheorems.CachedDecidesAsUncached` | backend/rule_engine.py:139-164 | Any sequence of calls from an empty cache decides as if nothing were cached, provided calls that share scope, length and last label carry the same bars |
| `IndicatorCacheTheorems.CycleDecidesAsUncached` | backend/rule_engine.py:190-265 | One whole evaluation from a cache in step with its bars triggers exactly the rules whose conditions, all of them under AND and some under OR, hold of two bars at least, and leaves the cache in step |
| `IndicatorCacheTheorems.ConditionsHold` | backend/rule_engine.py:139-164 | From a cache in step with its bars a list of conditions is true under AND if and only if there are two bars and every condition holds of them, and under OR if and only if there are two bars and some condition does |
| `IndicatorCacheTheorems.TriggeredIff` | backend/rule_engine.py:190-265 | From a cache in step a rule is triggered on a symbol if and only if it asks about it, the symbol has two bars, and all of its conditions under AND, some of them under OR, hold of them |
| `IndicatorCacheTheorems.PositionalKeySeesOnlyLength` | backend/rule_engine.py:42-48 | With a positional index, as after reset_index, two frames share every key exactly when they have the same number of bars |
| `IndicatorCacheTheorems.SecondCallRepeatsFirst` | backend/rule_engine.py:17-23 | Nothing clears the cache: a later call with other bars of the same length and scope returns the decision of the earlier bars |
| `IndicatorCacheTheorems.SecondBacktestReadsFirstPrices` | backend/backtester.py:456-496 | Counterexample: two backtests, which pass no symbol; the second misses a threshold its own prices cross |
| `IndicatorCacheTheorems.ComparisonsPartition` | backend/rule_engine.py:71-88 | With a value on each side > and <= are opposites, < and >= are opposites, and both-or-equal means equal; without one every comparison is false |
| `IndicatorCacheTheorems.OperatorsCompare` | backend/rule_engine.py:61-95 | Against a threshold every operator compares the last known value as it says, equal to within a billionth |
| `IndicatorCacheTheorems.LinesCompareLast` | backend/rule_engine.py:61-95 | Against another series the two last known values are compared |
| `IndicatorCacheTheorems.CrossesThreshold` | backend/rule_engine.py:61-70 | A threshold is crossed upwards exactly when the last bar but one is not above it and the last bar is, downwards the other way round |
| `IndicatorCacheTheorems.SelectorNamesLength` | backend/indicators.py:272-283 | A word, an underscore and a number name the indicator of that word at that length |
| `IndicatorCacheTheorems.ConditionAsks` | backend/rule_engine.py:50-56 | A condition computes the indicator of its own name with its own parameters |
| `IndicatorCacheTheorems.BandSelectors` | backend/indicators.py:260-270 | A band selector names that band at the length it carries |
| `ContextTheorems.SanitizeIdempotent` | backend/context_utils.py:28-36 | Sanitizing twice is sanitizing once |
| `ContextTheorems.SanitizeByPath` | backend/context_utils.py:28-36 | Sanitizing keeps every path, inside lists too, and changes what is there only where it is NaN or infinite: that becomes null |
| `ContextTheorems.StripIdempotent` | backend/context_utils.py:44-52 | Stripping twice is stripping once |
| `ContextTheorems.StripByPath` | backend/context_utils.py:44-52 | Stripping removes exactly what lies under a volatile key reached through dictionaries; all else stays at its path and lists stay whole |
| `ContextTheorems.SanitizeStripCommute` | backend/context_utils.py:28-52 | Sanitizing and stripping commute |
| `ContextTheorems.DumpsEqualIff` | backend/context_utils.py:39-41 | Two parsed trees have the same stable text exactly when, NaN read as null, they are equal up to key order at every depth |
| `ContextTheorems.TextMeans` | backend/context_utils.py:39-41 | The text of every tree: literals, numbers as they are, lists and dictionaries as their pieces joined by comma and space between brackets and braces |
| `ContextTheorems.KeysAscend` | backend/context_utils.py:39-41 | The keys of a printed dictionary are in alphabetical order |
| `ContextTheorems.EscapeMeans` | backend/context_utils.py:39-41 | Each character of a string is printed as it is, behind a backslash, by its letter or by its UTF-16 units in lower-case hexadecimal |
| `ContextTheorems.VolatileNames` | backend/context_utils.py:11-52 | Exactly seven field names are volatile |
| `ContextTheorems.NormalizedTextsEqualIff` | backend/context_utils.py:55-63 | Two texts that parse normalize alike exactly when their contexts agree up to key order, volatile fields and NaN; of the reader it takes only that parsed objects have distinct keys and numbers print as numbers |
| `ContextTheorems.NormalizeIdempotent` | backend/context_utils.py:55-63 | Normalizing twice is normalizing once, on every text, for any reader that returns numbers as they are printed, nested to its limit at most, and reads back the text of such trees; nothing is asked of it on any other text |
| `ContextTheorems.VolatileInListSurvives` | backend/context_utils.py:48-52 | Counterexample to "ignores volatile fields": one inside a list still changes the text, the same one under dictionaries does not |
| `JsonText.PrintPrefixFree` | backend/context_utils.py:19-41 | The printed form of a value is a prefix code up to what may follow a value (strings, numbers, arrays, objects) |
| `JsonText.PrintInjective` | backend/context_utils.py:39-41 | Two printable trees with the same text are the same tree |
| `ChangeBudget.GuardrailEnforcer.ExecuteWithAudit` | backend/ai_guardrails.py:558-638 | One row is appended: applied, blocked or failed, as the checks against the log before it and the outcome of the change decide |
| `ChangeBudget.GuardrailEnforcer.RevertAction` | backend/ai_guardrails.py:640-708 | Exactly an applied entry is marked reverted, and one compensating applied row is appended; anything else changes nothing |
| `ChangeBudget.GuardrailEnforcer.CheckExecute` | backend/ai_guardrails.py:467-491 | The answer of the guard: stop flags, daily count, cooldown, limits per action |
| `ChangeBudgetTheorems.DailyBudget` | backend/ai_guardrails.py:467-491 | Over every run that mixes enforcer changes, reverts and other rows: the changes applied within one UTC day, later reverted ones included, number at most max_changes_per_day and, with a positive cooldown, at most the ceiling of 24 / min_hours |
| `ChangeBudgetTheorems.DecidedIff` | backend/ai_guardrails.py:467-586 | A change is applied or tried exactly when no stop flag is set, fewer applied rows than the maximum are of today, all applied rows have rested for the cooldown, and its action has room; every outcome leaves its row |
| `ChangeBudgetTheorems.RevertedIs` | backend/ai_guardrails.py:640-708 | A revert of an applied entry marks it, leaves every other row and adds an applied row that undoes its action; any other leaves the log |
| `ChangeBudgetTheorems.RevertKeeps` | backend/ai_guardrails.py:640-708 | A revert keeps the budget invariant: the row it takes from the count it gives back today |
| `ChangeBudgetTheorems.StoppedChangesNothing` | backend/ai_guardrails.py:475-479 | While a stop flag is set nothing is changed, and every attempt leaves a blocked row |
| `ChangeBudgetTheorems.StandingWithinLimit` | backend/ai_guardrails.py:503-521 | Over every run the rule disables (or enables) of a day still standing number at most their daily limit |
| `ChangeBudgetTheorems.MadeWithinLimitPlusUndone` | backend/ai_guardrails.py:573-586 | Those made in a day exceed that limit by at most the number undone |
| `ChangeBudgetTheorems.SubLimitPassedIff` | backend/ai_guardrails.py:503-586 | A call takes the disables (or enables) made in a day past their limit if and only if the limit is used up, fewer count as applied today and nothing else stops the call; within one day that needs a change already undone |
| `ChangeBudgetTheorems.RevertFreesSubLimit` | backend/ai_guardrails.py:573-586 | Counterexample: one disable a day allowed, two made, with a revert in between |
| `RefCounts.MarketDataHub.AddSymbolRefs` | backend/main.py:613-626 | The loop credits each listed symbol once per occurrence and then synchronises the data source |
| `RefCounts.MarketDataHub.RemoveSymbolRefs` | backend/main.py:629-646 | The loop skips empty symbols, debits each other listed symbol, drops keys that run out, and drops those symbols upstream |
| `RefCounts.MarketDataHub.Subscribe` | backend/main.py:960-964 | Only symbols new to the connection are recorded and credited |
| `RefCounts.MarketDataHub.Unsubscribe` | backend/main.py:965-970 | Only symbols the connection has are discarded and debited |
| `RefCounts.MarketDataHub.Disconnect` | backend/main.py:973-977 | The end of a connection debits everything it still has |
| `RefCountTheorems.SubscribeHolds` | backend/main.py:960-964 | After a subscribe message the connection holds what it held and the named symbols listed; other connections are untouched |
| `RefCountTheorems.SubscribeCredits` | backend/main.py:613-626 | Each symbol the connection did not hold gains one count per mention, and no other does |
| `RefCountTheorems.UnsubscribeHolds` | backend/main.py:965-970 | After an unsubscribe message the connection holds the listed symbols no more; other connections are untouched |
| `RefCountTheorems.UnsubscribeDebits` | backend/main.py:629-646 | Counts fall by the mentions of held symbols and stop at zero; upstream loses exactly what runs out this way |
| `RefCountTheorems.CountsAreSubscribers` | backend/main.py:951-977 | Over every interleaving with duplicate-free messages: a symbol's count is its number of subscribed connections, its key is absent exactly when that is zero, and only such symbols are subscribed upstream |
| `RefCountTheorems.SubscribeKeepsIff` | backend/main.py:960-964 | A subscribe message keeps the counts exact if and only if the symbols new to the connection are listed once each |
| `RefCountTheorems.UnsubscribeKeepsIff` | backend/main.py:965-970 | An unsubscribe message keeps them exact if and only if every symbol it repeats has this connection as its only subscriber |
| `RefCountTheorems.DisconnectKeeps` | backend/main.py:973-977 | The end of a connection always keeps them exact |
| `RefCountTheorems.SubscribeSyncsUpstream` | backend/main.py:590-626 | A message that brings something new leaves every counted and accepted symbol subscribed upstream, or none while the source is away |
| `RefCountTheorems.RepeatOutlivesConnection` | backend/main.py:960-964 | Counterexample: one repeated symbol in a subscribe leaves a count that no connection holds |
| `RefCountTheorems.RepeatStarvesOther` | backend/main.py:965-970 | Counterexample: one repeated symbol in an unsubscribe takes away another connection's count and the upstream subscription |
| `RateLimiter.RateLimitMiddleware.Dispatch` | backend/middleware.py:54-80 | Evicts, decides and records; a refusal carries the wait in whole seconds |
| `RateLimiterTheorems.AdmittedIff` | backend/middleware.py:54-80 | With a clock that does not go back a request is admitted exactly when fewer admissions of that client than its limit lie in the window that ends with it, over the full history |
| `RateLimiterTheorems.WindowBound` | backend/middleware.py:54-80 | Every interval of one window length holds at most the larger limit of admissions of one client, and at most the auth limit of admissions to auth paths |
| `RateLimiterTheorems.EvictionIsSafe` | backend/middleware.py:59-61 | What is evicted now would be outside any later window |
| `RateLimiterTheorems.RefusalNamesOldest` | backend/middleware.py:63-76 | A refusal names the time until the oldest admission in the window leaves it, in whole seconds and one at least |
| `RateLimiterTheorems.OrdinaryTrafficBlocksAuth` | backend/middleware.py:63-66 | Ordinary requests use up the limit of the auth paths: with as many admitted in the window an auth request is refused though it be the first; in general it is admitted exactly when ordinary and auth admissions together leave room |
| `RateLimiterTheorems.RetryAfterSufficesIff` | backend/middleware.py:67-68 | The oldest hit has left the window after the advertised wait exactly when at most one second was left or the time left was a whole number of seconds |
| `Drawdown.CheckDrawdown` | backend/risk_manager.py:511-545 | The status of the one-pass specification, rounded, for every history including the empty one |
| `Drawdown.MaxDrawdownPct` | backend/backtester.py:238-247 | One hundred times the deepest relative fall of the pass |
| `Drawdown.MaxDrawdownPctFromPnls` | backend/evaluation_math.py:44-60 | The same over the cumulative P&L that starts at zero; none for an empty list |
| `Drawdown.Streaks` | backend/backtester.py:266-278 | The longest run of wins and the longest run of other trades: attained, and no longer one exists |
| `DrawdownTheorems.DrawdownIsMaxOverPairs` | backend/risk_manager.py:526-535 | On equity that is never negative the one-pass figure is the maximum of (v_i - v_j) / v_i over all pairs i <= j, attained by the recorded peak and trough |
| `DrawdownTheorems.NegativeEquityUnderstated` | backend/risk_manager.py:526-535 | For every list whose last value sets the recorded depth: a pair that ends there falls further if and only if that value is negative and an earlier one was positive and below the peak |
| `DrawdownTheorems.UnderstatedIff` | backend/risk_manager.py:526-535 | For every list: some pair falls further than the recorded depth if and only if some negative value, against the smallest positive value before it, does |
| `DrawdownTheorems.StatusIsConsistent` | backend/risk_manager.py:536-545 | Current never exceeds maximum, even rounded, and the duration counts from the first index of the overall peak |
| `DrawdownTheorems.StatusMeans` | backend/risk_manager.py:511-545 | The current figure is the fall from the highest value to the last, the duration counts from its first day, and peak and trough are a pair that falls by the maximum |
| `DrawdownTheorems.PnlDrawdownIsMaxOverPairs` | backend/evaluation_math.py:44-60 | Over the cumulative P&L from zero the drawdown is the attained maximum over all pairs while that curve is never negative |
| `Sizing.AdaptiveSizer.RecordTrade` | backend/position_sizing.py:77-98 | Statistics of the rule after one trade, all fields; other rules untouched |
| `Sizing.AdaptiveSizer.CalculateSize` | backend/position_sizing.py:100-141 | The size for the statistics of the rule, and an entry for the rule if it had none |
| `DrawdownTheorems.SizerDrawdownIsMaxOverPairs` | backend/position_sizing.py:92-98 | Whatever the trades, max_drawdown is the largest loss from an earlier to a later point of the curve that starts at zero |
| `DrawdownTheorems.StatsBalance` | backend/position_sizing.py:77-90 | Total = wins + losses = current equity, counts agree, and the win rate lies in [0, 1] |
| `DrawdownTheorems.StatsAre` | backend/position_sizing.py:77-90 | After any trades the statistics are the number that won and what those and the others made |
| `DrawdownTheorems.RMultiplesAre` | backend/position_sizing.py:84-90 | Each R-multiple is the P&L of its trade over its risk, at two decimals |
| `DrawdownTheorems.KellyMeans` | backend/position_sizing.py:50-58 | With wins and losses the fraction is w - (1 - w) / r for the ratio r of average win to average loss, between zero and a quarter |
| `DrawdownTheorems.KellyAtTheEdges` | backend/position_sizing.py:50-58 | Without a loss in the totals the ratio counts as 1.5; with losses and nothing won there is no boost |
| `DrawdownTheorems.RiskPctMeans` | backend/position_sizing.py:112-121 | The base before ten trades; from then on more by the fraction, halved for a win rate under 35 per cent; always within its bounds |
| `DrawdownTheorems.SizeMeans` | backend/position_sizing.py:100-141 | No size without a stop distance, a price and equity; otherwise the largest number of shares whose loss at the stop, with a dollar of commission, fits the risked part of the equity and whose value fits the capped part |
| `DrawdownTheorems.SizeIsLargest` | backend/position_sizing.py:124-132 | A positive number of shares is at most the size exactly when its loss at the stop plus one dollar fits the risk amount and its value the cap |
| `DrawdownTheorems.ExpectancyIsMean` | backend/evaluation_math.py:31-41 | With enough samples win rate times average win minus loss rate times average loss is the mean P&L |

## Left out

- Brokers, data providers, WebSocket sending, HTTP routing, notifications, logging: input and output.
- Floating point and pandas numerics (moving averages, Sharpe, Sortino, CAGR): library behaviour; indicators are parameters.
- Database failures and concurrent writers of one table: steps are atomic, with the exception paths of the exit cycle modelled as an escaped exception.
- Broker-side truth after an unconfirmed cancel: the program tracks its own order id only, and so does the model.
- The stages of the trading cycle before and after the candidate loop (data fetch, sizing by account value, cash, risk and safety gates): in the loop they are one flag per candidate, so any outcome is covered.
- ConcentrationTheorems.SectorBound: enforcement on, inputs ready and one positive net liquidation for the whole cycle; the fallback to available cash on the rule path would change the base of the percentages between candidates.
- BacktesterTheorems.FloorBreaksIff: a close above the largest accepted capital, since whether such a share can ever be bought depends on what earlier trades earned; FloorBreaksAtClosesIff has no such bound.
- IndicatorCacheTheorems.CachedDecidesAsUncached: one direction for decisions (two series may still give one answer); the exact condition is proved for the series served.
- Strings with unpaired surrogates, which `json.loads` accepts: characters are Unicode scalar values.
- The unhashable-parameter fallback of the cache key and its log messages.
- `EventBus`, event serialization, quote building and the upstream quote cache: no state that the properties need.
- The oscillation rule and the size limits of single actions in `_check_action_limits`: one flag per proposal.
- Warmup detection, `_compute_metrics` beyond drawdown and streaks, and trade durations: each settles in one branch or a short sum.
- Shutting down, authentication and origin checks of the WebSocket, and the other middleware.
- The `method` and `kelly_f` labels that `calculate_size` returns beside its figures.
