# Carcharoth: a verified model

Carcharoth is a research and trading system. This project models its stateful core in Dafny and proves
what that core promises: a bars cache that cannot be told from its provider, a replay that cannot pyramid,
cross or stay open overnight, profit and loss that adds up, training rows that cannot look ahead, layered
configuration whose provenance names the last writer, and a few kernels that everything else rests on.

`dafny verify dfyconfig.toml` checks the whole project.

## How it is built

Code that changes state in place is a class or a method with loops, proved against functions on values;
the laws are lemmas about those functions, and what a function's answer means is stated without it, in numbers,
positions and calls. Code made of expressions is functions and lemmas.

| files | models |
|---|---|
| `intervals`, `bars_codec`, `persistent_cache`, `widening_cache`, `concurrent_cache`, `calendar` | the monthly bars cache, its interval and chunk algebra, the cache stacked on it, and concurrent clients |
| `broker`, `broker_laws`, `broker_runs` | the signed-position broker, what every sequence of calls keeps, and what it makes of each order and valuation |
| `session`, `decision`, `risk`, `replay`, `replay_laws`, `flat_by_close`, `overnight`, `evaluation`, `turns`, `market_data`, `engine`, `runner`, `bar_series` | the replay machine: one bar as a function of the whole state, its laws, and the imperative parts that refine it |
| `round_trips`, `round_trip_laws`, `trip_ends`, `unit_fifo`, `replay_pnl`, `quicktest` | FIFO matching, its conservation laws, where each trip comes from, and the profit-and-loss identities |
| `dataset`, `dataset_laws`, `dataset_build`, `dataset_rows` | training rows, their safety and accounting, symbol selection, and what rows and evidence say |
| `config_trees`, `config_merge`, `config_laws`, `config_meaning`, `config_resolve`, `promotion` | layered configuration, `extends`, overrides, and the promotion layer |
| `monitor`, `monitor_slices`, `features`, `feature_sums`, `bar_permutation`, `loop_schedule` | stage timing, one-pass features, bar permutation, research windows |
| `collections`, `trading`, `wrappers` | sums over dictionaries, shared values, `Option` and `Result` |

Modelling decisions:

- Time is an integer number of microseconds; money, prices and volumes are exact reals.
- Upstream is a fixed timeline per timeframe and symbol. The fetcher is a function of the call number: it may
  fail on any call, and its answers may contain bars outside the window, such as the row at an inclusive end.
- The byte store may be changed by others before every operation, may evict keys, and may lose writes.
- A payload is a datatype with identity, coverage and rows, or one that cannot be decoded.
- The model is an arbitrary function of tick number and symbol that predicts anything or raises. Repositories
  behave like the in-memory ones of the test suite; order ids are issue numbers.
- The New York offset is a function of the instant. Where days matter it is assumed to stay constant within one
  regular session and to vary by at most an hour.
- A configuration path is a sequence of keys. `ConfigTrees.JoinKeepsPrefixes`, `JoinSplit` and `SplitJoin` show
  that for dot-free keys this is the same as a dotted string, prefix tests included.

Findings about the code, with the lemma or contract that states each:

- Merging a layer twice leaves the tree and every leaf's source unchanged, but not always the raw provenance map.
  It does so exactly when every non-empty atomic mapping of the layer enters a section that was already a mapping
  (`ConfigLaws.RawMapTwice`, with the instance `BaseTwiceRewritesItsMap`).
- The check that layers add no keys does not look inside a mapping that replaces a scalar
  (`ConfigLaws.ScalarReplacedBySection`). Keys stay within the base exactly when the layer's own keys do
  (`ConfigLaws.KeysStayAllowed`).
- A session ends flat exactly when the symbol was not held after a bar in the flatten zone, or a later bar of the
  session opened at a positive price (`FlatByClose.FlatExactly`). With one bar in the zone a position stays open
  (`Overnight.OneZoneBarStaysOpen` is such a run).
- Concurrent writers never make a chunk dishonest, but can lose coverage (`ConcurrentCache.CoverageCanShrink`):
  a write keeps an instant cached exactly when its key is not written or the writer's entry covers it
  (`ConcurrentCache.WriteDecidesCoverage`).
- Over an entry it already holds, the widening cache answers an inverted window with empty lists, while the cache
  it wraps refuses it (the contract of `WideningCache.BarsCache.Call`).
- The one-pass session VWAP skips bars with a negative volume, the per-prefix one sums them. `Features.VwapFormsAgree`
  says exactly when the two agree, `Features.NegativeVolumeDiffers` is an input on which they do not.
- The one-pass slot volume score passes over bars with a negative volume, the per-prefix one gives up at them. With one
  bar per date and slot they agree exactly when the latest volume is negative, the slot has too few values, or none of
  its newest bars has a negative volume (`Features.VolumeFormsAgree`; `Features.NegativeHistoryDiffers` is an instance).
- `--set` paths of which one is an ancestor of another all land exactly when each ancestor's own value already holds
  the descendant's (`Promotion.OverridesLandExactly`); otherwise their order decides between a conflict and a silent
  replacement (`Promotion.OrderDecides`, and `Promotion.OrderDecidesForAPair` for `a` and `a.b`).
- Promoted leaves come back from being nested and flattened exactly when none is a section, has an empty path, starts
  with a dot, or lies in the derived section (`Promotion.FlattenAfterNest`; `.a` comes back as `a`,
  `Promotion.LeadingDotIsLost`). A document comes back from being flattened and nested, without its derived section,
  exactly when no key outside that section contains a dot and no root key is empty (`Promotion.NestAfterFlatten`).
- Promoting panics exactly when a merged path extends one whose value is not a mapping (`Promotion.Nest`). A layer with
  the keys `a` and `a.b` gets there (`Promotion.DottedLayerPanics`).
- Shuffled bars keep the bag of returns exactly when the close before the window is positive or nothing moves
  (`BarPermutation.PermutationKeepsReturns`). After a positive close they keep the final close exactly when it is
  positive and nothing is lost over prices that are not (`BarPermutation.EndKeptExactly`;
  `BarPermutation.BadOpenMovesTheEnd` is an instance), and they stay well shaped exactly when no bar opens above zero,
  falls, and has a low that is not positive. After a close of zero they always stay well shaped, after a negative one
  exactly when no bar moves (`BarPermutation.PermutationKeepsShape`).

The header of the replay market data describes close-of-bar
fills, while the broker fills at the next bar's open; the model follows the broker.

## Model

| member | source | states |
|---|---|---|
| Intervals.CanonicalUnique | src/carcharoth/services/cache/bars_codec.py:30-39 | two sorted, strictly separated interval lists that cover the same instants are the same list |
| Intervals.Union | src/carcharoth/services/cache/bars_codec.py:30-39 | any intervals become the sorted, strictly separated form of exactly the same instants |
| Intervals.Missing | src/carcharoth/services/cache/bars.py:31-42 | the canonical form of exactly the window's instants outside the coverage |
| BarsCodec.Before | src/carcharoth/services/cache/bars_codec.py:65-71 | cutting a chunk keeps exactly the covered instants and the rows before the cut, well formed |
| BarsCodec.Merge | src/carcharoth/services/cache/bars_codec.py:73-89 | covers both, sorted and unique, and at each instant the last fresh value wins over the old one |
| BarsCodec.MergedRowsCovered | src/carcharoth/services/cache/bars_codec.py:73-89 | rows fetched for an interval, merged with covered ones, lie inside the merged coverage |
| BarsCodec.MergeStaysHonest | src/carcharoth/services/cache/bars_codec.py:73-89 | merging exact rows of a part into an honest chunk gives an honest chunk |
| BarsCodec.BeforeStaysHonest | src/carcharoth/services/cache/bars_codec.py:65-71 | cutting an honest chunk gives an honest chunk |
| BarsCodec.HonestSlice | src/carcharoth/services/cache/bars_codec.py:56-63 | an honest chunk hands out exactly upstream's rows of any window it covers, ascending |
| BarsCodec.Decode | src/carcharoth/services/cache/bars_codec.py:120-169 | accepts a payload exactly when identity, order, month and coverage all hold, and then returns what was encoded |
| BarsCodec.ReadableRowsInMonth | src/carcharoth/services/cache/bars_codec.py:140-169 | every row of an accepted payload lies inside its key's month and inside its coverage |
| PersistentCache.Normalize | src/carcharoth/services/cache/bars.py:45-54 | one row per instant of the half-open window, ascending, the last duplicate winning; a foreign symbol is an error |
| PersistentCache.NormalUnique | src/carcharoth/services/cache/bars.py:45-54 | the normal form of a window is unique, so two answers that are both normal are equal |
| PersistentCache.PlanRequests | src/carcharoth/services/cache/bars.py:82-87 | the planned months split the cached window among all symbols without gap or overlap |
| PersistentCache.PersistentBarsCache.CompleteBatch | src/carcharoth/services/cache/bars.py:102-132 | after fetching, each entry of the batch is honest and lacks nothing of its window |
| PersistentCache.PersistentBarsCache.CallCached | src/carcharoth/services/cache/bars.py:97-145 | the cached part of a call serves exactly upstream, keeps every key honest, and on a fully cached window fetches nothing |
| PersistentCache.PersistentBarsCache.Call | src/carcharoth/services/cache/bars.py:68-152 | transparency: exactly upstream's rows of the window per symbol, ascending; the store stays honest even if a fetch fails half-way; no coverage past today's midnight; nothing cached is lost when alone |
| PersistentCache.ItemsCache | src/carcharoth/services/cache/bars.py:133-143 | writing completed entries back loses no coverage and caches the whole window |
| WideningCache.BarsCache.Call | src/carcharoth/optimize/bars_cache.py:28-40 | transparent over the wrapped cache; a request inside the held window costs nothing; windows only widen |
| WideningCache.BarsCache.Sliced | src/carcharoth/optimize/bars_cache.py:42-52 | slicing a held exact window gives upstream's rows of the smaller window |
| ConcurrentCache.StepKeepsInv | src/carcharoth/services/cache/bars.py:3-4 | every read, merge, whole-key write, lost write, eviction or corruption keeps all chunks honest |
| ConcurrentCache.EveryRunServesUpstream | src/carcharoth/services/cache/bars.py:97-145 | in every interleaving of any number of clients each client serves exactly upstream from what it covers |
| ConcurrentCache.WriteDecidesCoverage | src/carcharoth/services/cache/bars.py:133-143 | after a whole-key write an instant is cached exactly as the writer's entry has it for written keys, and as before for the others |
| ConcurrentCache.CoverageCanShrink | src/carcharoth/services/cache/bars.py:3-4 | a run of two clients after which an instant that was cached no longer is |
| Calendar.MonthsTile | src/carcharoth/services/cache/bars.py:27-28 | each month ends exactly where the next one starts |
| Calendar.MonthOf | src/carcharoth/services/cache/bars.py:83-87 | every instant lies in its month |
| Broker.SimulatedBroker.constructor | src/carcharoth/services/backtest/broker.py:33-50 | a broker starts with its capital and nothing else |
| Broker.SimulatedBroker.MarkToMarket | src/carcharoth/services/backtest/broker.py:52-60 | session roll, next-open fills of all pending orders, then closes, as one function of the ledger |
| Broker.SimulatedBroker.GetAccountState | src/carcharoth/services/backtest/broker.py:62-76 | equity, cash, buying power and positions of the ledger |
| Broker.SimulatedBroker.Submit | src/carcharoth/services/backtest/broker.py:78-99 | accepted exactly with a clock, a positive quantity and a known price; otherwise nothing changes |
| Broker.SimulatedBroker.CancelOrder | src/carcharoth/services/backtest/broker.py:107-112 | cancels an ACCEPTED order, ignores a settled one, refuses an unknown one |
| Broker.SimulatedBroker.CancelPending | src/carcharoth/services/backtest/broker.py:114-117 | cancels the pending orders one after the other |
| Broker.SimulatedBroker.FillPending | src/carcharoth/services/backtest/broker.py:119-146 | each pending order with a bar fills or is rejected, in order, the rest stay; `BrokerRuns.MarkDeals` says at what price and when |
| Broker.SimulatedBroker.ApplyFill | src/carcharoth/services/backtest/broker.py:159-178 | cash and holding after a fill, through opening, closing, averaging, reducing and crossing |
| BrokerLaws.HoldingsMove | src/carcharoth/services/backtest/broker.py:159-178 | in every branch the held quantity moves by the signed quantity, nothing else moves, and no holding is left at zero |
| BrokerLaws.FillAllKeeps | src/carcharoth/services/backtest/broker.py:119-146 | filling keeps the ledger invariant and leaves pending exactly the orders without a bar |
| BrokerLaws.MarkKeeps | src/carcharoth/services/backtest/broker.py:52-60 | a later mark keeps the invariant and the history of all orders |
| BrokerLaws.CancelPendingEmpties | src/carcharoth/services/backtest/broker.py:114-117 | afterwards nothing is pending and no order is ACCEPTED |
| BrokerLaws.EveryRunKeeps | src/carcharoth/services/backtest/broker.py:78-146 | over every sequence of calls: pending is exactly the ACCEPTED orders, terminal orders never change, fills are strictly later than submissions, cash and holdings are what the fills add up to |
| BrokerRuns.MarkDeals | src/carcharoth/services/backtest/broker.py:119-146 | each pending order in its turn: without a bar nothing; at a positive open, if it only reduces exposure or costs no more than the buying power its turn finds, it fills at the open and half the spread and the slippage on top for a buy, less both for a sell; else it is rejected |
| BrokerRuns.DealingNeverPays | src/carcharoth/services/backtest/broker.py:180-185 | with costs in [0, 1) a buy never fills below and a sell never above the open, strictly with a positive cost, and buying and selling at one open never gains cash |
| BrokerRuns.EveryOrderHasItsStory | src/carcharoth/services/backtest/broker.py:78-146 | over every sequence of calls: each order was issued as requested by a submission, waits until the first later call that concerns it, is dealt with there as above or cancelled, and then never changes |
| BrokerRuns.EverySubmissionIssues | src/carcharoth/services/backtest/broker.py:78-99 | a submission issues an order exactly when its quantity is positive and some mark had a bar of its symbol |
| BrokerRuns.EveryRunValuesAtLastCloses | src/carcharoth/services/backtest/broker.py:62-76 | over every sequence of calls each position is valued at the newest close marked for its symbol; equity, buying power and unrealized profit follow in numbers |
| BrokerRuns.EveryRunOpensSessions | src/carcharoth/services/backtest/broker.py:52-60 | daily loss is measured from the capital in the first session, and then from the equity just before the session's first mark |
| BrokerRuns.CostBasis | src/carcharoth/services/backtest/broker.py:166-178 | adding keeps the total cost of a position, reducing keeps its entry price, opening and crossing take the fill's |
| Session.CloseApproaches | src/carcharoth/features/session.py:76-81 | within a session later instants are closer to the close |
| Session.DatesIncrease | src/carcharoth/features/session.py:54-56 | regular-session instants in time order have local dates in order |
| Session.ScheduledBars | src/carcharoth/features/session.py:31-51 | refused for a step that is not positive; otherwise exactly the interval starts of each session aligned to its opening day's midnight, each dated by the last session that schedules it |
| Session.ScheduledIs | src/carcharoth/features/session.py:42-50 | an interval start lies inside the session, a whole number of steps after the midnight before its open |
| Session.DatesAreLocal | src/carcharoth/features/session.py:44-50 | where no session runs past midnight that date is the instant's own local date |
| DecisionPolicy.EntriesOnlyInWindow | src/carcharoth/modeling/decision.py:20-52 | exposure is opened or reversed only inside the entry window, whatever is predicted |
| DecisionPolicy.FlatInFlattenZone | src/carcharoth/modeling/decision.py:28-51 | in the flatten zone only FLAT or silence is possible |
| DecisionPolicy.Hysteresis | src/carcharoth/modeling/decision.py:64-84 | a position survives exactly up to its exit threshold, and never exits where flat would enter the same side |
| DecisionPolicy.RegressionDecides | src/carcharoth/modeling/decision.py:20-84 | exactly which values keep a side, open one inside the entry window, or mean FLAT |
| DecisionPolicy.ClassesDecide | src/carcharoth/modeling/decision.py:20-91 | the first most probable class, FLAT below the threshold, no side opened outside the entry window, FLAT in the flatten zone |
| Risk.AssessRisk | src/carcharoth/risk/basic.py:21-101 | an order is approved only if it is permitted, and one is refused only if no order is permitted |
| Risk.ApprovedIsPermitted | src/carcharoth/risk/basic.py:30-101 | approved if and only if it closes the open position exactly, or opens the largest affordable whole quantity within every limit, each limit in numbers of the account |
| Risk.LargestIsShares | src/carcharoth/risk/basic.py:67-91 | scaling down to buying power finds the largest whole quantity that fits the budget and the buffered buying power |
| Risk.ApprovalIsSafe | src/carcharoth/risk/basic.py:30-101 | an approval closes a position exactly, or opens whole shares within budget, buffered buying power, position count and gross exposure |
| Replay.BisectRight | src/carcharoth/services/backtest/market_data.py:65-74 | everything before the position is not later than the cursor and everything after it is |
| MarketData.PreparedIsValid | src/carcharoth/services/backtest/market_data.py:26-38 | whatever is loaded, the replay sees sorted regular-session bars |
| MarketData.WindowEndsNow | src/carcharoth/services/backtest/market_data.py:87-98 | a window ends at the newest bar for any lookback and holds no bar after the cursor |
| MarketData.WindowIsTrailing | src/carcharoth/services/backtest/market_data.py:87-98 | the newest bars not after the cursor, as many as the lookback or all there are |
| MarketData.HistoricalMarketData.TimestampGrid | src/carcharoth/services/backtest/market_data.py:51-63 | every tradable bar time of the period exactly once, in order |
| MarketData.HistoricalMarketData.LatestBars | src/carcharoth/services/backtest/market_data.py:65-74 | exactly the tradable symbols with a bar at the cursor |
| MarketData.LatestBarsAre | src/carcharoth/services/backtest/market_data.py:65-74 | a tradable symbol is there exactly when it has a bar at the cursor, with the last one of that time |
| MarketData.HistoricalMarketData.GetSnapshot | src/carcharoth/services/backtest/market_data.py:87-98 | the window of each symbol, and a quote exactly where it is not empty |
| MarketData.QuotesStraddle | src/carcharoth/services/backtest/market_data.py:100-106 | bid and ask lie half the spread below and above the newest close |
| Engine.OrderRepository.FindOpenOrders | tests/fakes.py:193-198 | the symbol's rows that are not terminal, in order |
| Engine.TradeRepository.ExistsForOrder | tests/fakes.py:208-209 | whether some recorded trade is of that order |
| Engine.SignalGenerator.Generate | src/carcharoth/modeling/signal_generator.py:84-142 | refines one answer of the generator; the `Evaluation` rows say what the answer is |
| Evaluation.FlattenComesFirst | src/carcharoth/modeling/signal_generator.py:91-104 | in the flatten zone of its newest bar a held symbol is told FLAT, whatever would be predicted, and the bar is left unattempted |
| Evaluation.StaleBarIsUnchanged | src/carcharoth/modeling/signal_generator.py:107-109 | outside that, a bar already attempted is answered UNCHANGED and nothing is attempted, whatever would be predicted |
| Evaluation.FirstLookAttempts | src/carcharoth/modeling/signal_generator.py:110-142 | a bar seen for the first time is attempted; missing features and failing predictions mean UNCHANGED, a prediction is decided at the bar's distance from open and close |
| Evaluation.EachBarIsAskedOnce | src/carcharoth/modeling/signal_generator.py:84-142 | over every replay, models that agree on each symbol's first tick per newest bar lead through the same states: no bar is evaluated twice |
| Engine.TradingEngine.ReconcileFills | src/carcharoth/engine/engine.py:187-206 | refines reconciliation of all open rows, in order |
| Engine.TradingEngine.ClearConflictingOrders | src/carcharoth/engine/engine.py:154-185 | safe exactly when nothing of the symbol is open; the other side is cancelled |
| Engine.TradingEngine.ProcessSymbol | src/carcharoth/engine/engine.py:93-151 | refines one symbol's step against the account taken at the start of the tick |
| Turns.TurnActs | src/carcharoth/engine/engine.py:93-185 | a permitted order is sent exactly once when the symbol has none open, from the newest close's quote; otherwise exactly the symbol's accepted orders on the other side are cancelled |
| Turns.TurnRests | src/carcharoth/engine/engine.py:93-151 | with no order asked for and permitted, orders, rows and trades stay as they are |
| Turns.TickSendsInOrder | src/carcharoth/engine/engine.py:66-91 | one tick sends at most one order per place in the list of symbols, in the list's order, in which they later fill |
| Engine.TradingEngine.Tick | src/carcharoth/engine/engine.py:66-91 | refines one tick of the replay machine |
| Runner.BacktestRunner.Run | src/carcharoth/backtest/runner.py:51-101 | a backtest is a replay over exactly the regular bar times; afterwards nothing is open, rows equal broker orders, and each FILLED order has one trade |
| ReplayLaws.MarkKeepsReplay | src/carcharoth/services/backtest/broker.py:119-178 | marking a bar keeps the replay invariant and fills only cleanly |
| ReplayLaws.ReconcileKeepsReplay | src/carcharoth/engine/engine.py:188-206 | afterwards the order repository equals the broker and every fill is recorded once |
| ReplayLaws.ProcessKeepsReplay | src/carcharoth/engine/engine.py:93-151 | one symbol's step, whatever its model does, keeps at most one open order per symbol |
| ReplayLaws.EveryReplayKeeps | src/carcharoth/engine/engine.py:125-141 | in every reachable state each symbol has at most one open order, which opens from flat or closes exactly what is held |
| ReplayLaws.EveryFillIsClean | src/carcharoth/services/backtest/broker.py:166-178 | every fill of every replay opens a flat symbol or takes a held one to exactly flat: averaging and crossing are unreachable |
| ReplayLaws.FinishSettles | src/carcharoth/backtest/runner.py:82-101 | after the run no order is open, repositories agree with the broker, and cash and holdings are untouched |
| FlatByClose.ZoneRun | src/carcharoth/modeling/signal_generator.py:91-104 | from a symbol's first bar in the flatten zone to the session's end it is held exactly while its closing order is out |
| FlatByClose.FlatExactly | src/carcharoth/modeling/signal_generator.py:91-104 | flat if and only if not held after that bar, or a later bar of the session opened at a positive price |
| FlatByClose.FlatByClose | src/carcharoth/services/backtest/broker.py:148-157 | with a zone bar and a later positive open, the session ends with no position and no pending order, whatever the model does |
| Overnight.OneZoneBarStaysOpen | src/carcharoth/modeling/signal_generator.py:91-104 | a two-bar replay in which the only bar of the flatten zone is the last one, and the position is held when it ends |
| RoundTrips.DecisionBefore | src/carcharoth/analysis/metrics.py:55-83 | the latest decision of the symbol and side strictly before the fill, or none when all are later |
| TripEnds.DecisionIsBehind | src/carcharoth/analysis/metrics.py:55-60 | of the decisions strictly before the fill the latest one, and of those at one time the last logged |
| RoundTrips.CloseLots | src/carcharoth/analysis/metrics.py:84-116 | the loop consumes the oldest opposite lots first |
| RoundTrips.MatchRoundTrips | src/carcharoth/analysis/metrics.py:63-120 | refines FIFO matching of the trades in time order; `TripEnds.ReportedTripsJoinTrades` says what each trip is |
| RoundTrips.ApplyOneSided | src/carcharoth/analysis/metrics.py:84-119 | a symbol never holds long and short lots at once |
| TripEnds.SortIsStable | src/carcharoth/analysis/metrics.py:79 | trades of one time keep their order |
| TripEnds.ReportedTripsJoinTrades | src/carcharoth/analysis/metrics.py:79-119 | each trip joins an earlier trade of the sorted list to a later one of its symbol and the other side, at their times and prices; long exactly when entered by buying, its profit the price move in its favour on each share, its decisions those behind the two trades |
| RoundTripLaws.MatchingConserves | src/carcharoth/analysis/metrics.py:79-120 | leftover lots sum to the quantity traded, and their cost to cash spent plus realized profit |
| RoundTripLaws.PnlIdentity | src/carcharoth/analysis/metrics.py:79-120 | cash flow plus marked lots equals round-trip profit plus unrealized gain, at any marks |
| RoundTripLaws.SortingConserves | src/carcharoth/analysis/metrics.py:79 | sorting trades by time moves no cash and no shares |
| RoundTripLaws.MatchingIsCausal | src/carcharoth/analysis/metrics.py:55-120 | no round trip closes before it opens, and no end is attributed to a decision at or after its fill |
| UnitFifo.BatchRefinesUnits | src/carcharoth/analysis/metrics.py:76-120 | for whole quantities the expanded round trips and lots are those of a share-by-share simulation written on its own, in the same order |
| ReplayPnl.TradesAreFilledOrders | src/carcharoth/engine/engine.py:196-200 | recorded trades account for exactly the filled orders |
| ReplayPnl.EquityIdentity | src/carcharoth/services/backtest/broker.py:217-220 | equity equals capital plus round-trip profit plus the leftover lots' gain, and the lots sum to each holding |
| ReplayPnl.ReplayEquityIdentity | src/carcharoth/services/backtest/broker.py:159-178 | the identity after every bar of every replay and after the run has settled |
| Quicktest.SimulateSymbol | src/carcharoth/quicktest/simulator.py:38-96 | refines the fold over the window's regular bars: fill the pending plan at the open, plan at the close, record equity and cash |
| Quicktest.TicksAre | src/carcharoth/quicktest/simulator.py:58-61 | the bars replayed are exactly those from the start to before the end, from 9:30 to before 16:00 local time |
| Quicktest.PointsAreExact | src/carcharoth/quicktest/simulator.py:58-94 | one equity and one cash point per in-window regular bar, at its time and marked at its close, from exactly the trades made by then |
| Quicktest.TradesFollowPlans | src/carcharoth/quicktest/simulator.py:58-94 | each such bar makes exactly the trade that the bar before planned, at its own open; the first makes none and the last plan never fills |
| Quicktest.TradesFollowAnswers | src/carcharoth/quicktest/simulator.py:58-121 | the trades from the answers, closes and opens alone: nothing to do, the whole position traded away, or the fixed fraction of the capital at the close, dealt at the next open with the costs against it |
| Quicktest.TradesInOrder | src/carcharoth/quicktest/simulator.py:58-70 | trades are in time order when the bars are |
| Quicktest.RunSettles | src/carcharoth/quicktest/simulator.py:58-94 | after every bar trades alternate exact opens and closes, and cash and position are what they add up to |
| Quicktest.SimulatorIdentity | src/carcharoth/quicktest/simulator.py:58-94 | the reported equity at every point equals capital plus the profit of the time-sorted trades' round trips plus the leftover lots' gain at that bar's close |
| Dataset.Clean | src/carcharoth/modeling/dataset.py:76-102 | exactly the first valid scheduled bar of each time, in order, and every invalid or conflicting bar reported |
| DatasetRows.KeptIsFirst | src/carcharoth/modeling/dataset.py:80-102 | the bar kept at a time is the first scheduled regular one there with positive, bounded prices and a volume |
| DatasetRows.ErrorIs | src/carcharoth/modeling/dataset.py:86-102 | a bar is reported for unsound values, or for differing from the sound bar kept before it, and for nothing else |
| DatasetRows.ErrorsInOrder | src/carcharoth/modeling/dataset.py:80-102 | the reports are those of exactly the reported bars, in order |
| Dataset.GapsExact | src/carcharoth/modeling/dataset.py:211-231 | equal prefix sums mean exactly that every bar of the path is on its interval |
| Dataset.SymbolRows | src/carcharoth/modeling/dataset.py:210-254 | the prefix-sum loop and its counter agree with the plain per-path definition of rows and reasons; the `DatasetRows` rows say what those are |
| DatasetRows.VerdictIs | src/carcharoth/modeling/dataset.py:216-243 | a bar becomes a row exactly when its whole path lies in the split, the day and the schedule at exact steps with finite values, and otherwise the code names the first thing wrong |
| DatasetLaws.CleanedIsValid | src/carcharoth/modeling/dataset.py:105-127 | what cleaning keeps satisfies everything the row loop relies on |
| DatasetLaws.EveryBarAccounted | src/carcharoth/modeling/dataset.py:213-254 | each in-window bar yields exactly one row or one rejection |
| DatasetLaws.LabelsStayInside | src/carcharoth/modeling/dataset.py:216-239 | every bar a label reads lies in the same split and the same session |
| DatasetLaws.SplitIsSealed | src/carcharoth/modeling/dataset.py:213-252 | the rows of a split depend on nothing but the bars and features inside it |
| DatasetLaws.UsableWithinExpected | src/carcharoth/modeling/dataset.py:149-153 | usable rows never exceed the expected rows of the schedule |
| DatasetLaws.MissingRuns | src/carcharoth/modeling/dataset.py:156-161 | how many session days went unobserved, and the longest run of them |
| DatasetBuild.BuildDataset | src/carcharoth/modeling/dataset.py:179-278 | refines the sorted rows, evidence and totals of all symbols |
| DatasetRows.BuiltRowsTeach | src/carcharoth/modeling/dataset.py:213-263 | in order of time and name, the rows are exactly what the requested symbols' usable bars teach: their features, and the return from the next open to the close `horizon` bars on, or its class 2, 0 or 1 against the band |
| DatasetRows.EvidenceCounts | src/carcharoth/modeling/dataset.py:130-176 | attempted, ready, usable, rejected by each code, and expected, as numbers of bars and of scheduled times |
| DatasetRows.BuiltTotals | src/carcharoth/modeling/dataset.py:276-277 | evidence for exactly the requested symbols, and as total the in-window bars of each |
| DatasetBuild.SelectCommutes | src/carcharoth/modeling/dataset.py:55-66 | building for many symbols and selecting some equals building for those alone, whatever either list repeats or lacks |
| DatasetBuild.SelectInAnyOrder | src/carcharoth/modeling/dataset.py:55-66 | of distinct symbols, neither the order requested nor the order selected in matters |
| DatasetBuild.EvidenceAddsUp | src/carcharoth/modeling/dataset.py:253-254 | usable plus rejected is attempted; usable is at most ready and at most expected |
| ConfigTrees.JoinKeepsPrefixes | src/carcharoth/config/loader.py:305-310 | for dot-free keys, string prefix tests on dotted paths are path prefix tests |
| ConfigMerge.LayeredConfig.ReassignSubtree | src/carcharoth/config/loader.py:305-310 | the path names the source, everything beneath it is gone, the rest stays |
| ConfigMerge.LayeredConfig.Record | src/carcharoth/config/loader.py:295-302 | every leaf of the value names the source, in any key order |
| ConfigMerge.LayeredConfig.MergeLayer | src/carcharoth/config/loader.py:254-279 | the merged tree and the updated provenance, refused exactly when a visited key is not allowed |
| ConfigMeaning.MergedAt | src/carcharoth/config/loader.py:254-279 | at every path of the merged tree: the layer's own subtree at and below what is no mapping, meets no mapping, or is the search space or the model target; the old tree where the layer has nothing; merged mappings elsewhere |
| ConfigMeaning.SourceWhereTaken | src/carcharoth/config/loader.py:254-310 | a leaf is attributed to the layer exactly where its own subtree was taken |
| ConfigMeaning.AllowedIs | src/carcharoth/config/loader.py:282-292 | a path is allowed exactly when the base has it or something null or empty above it |
| ConfigMeaning.KeyCheckIs | src/carcharoth/config/loader.py:254-292 | a layer passes exactly when every key that is merged, not taken as a whole, is allowed |
| ConfigLaws.SourceAfterMerge | src/carcharoth/config/loader.py:254-310 | after one merge the longest recorded prefix of a leaf names the layer if it wrote the leaf, and what it named before otherwise |
| ConfigLaws.SourceIsLastWriter | src/carcharoth/config/loader.py:254-310 | after any layers the longest recorded prefix of every leaf names its last writer |
| ConfigLaws.LastDefinerWins | src/carcharoth/config/loader.py:130-147 | data in the resolved tree comes, value and source, from the last layer whose own body has data there |
| ConfigLaws.RecordedPathsExist | src/carcharoth/config/loader.py:254-310 | after any layers every recorded path is a node of the resolved tree |
| ConfigLaws.TreeTwice | src/carcharoth/config/loader.py:254-279 | merging a layer again leaves the tree unchanged |
| ConfigLaws.SourcesTwice | src/carcharoth/config/loader.py:254-310 | merging a layer again leaves every leaf's source unchanged |
| ConfigLaws.RawMapTwice | src/carcharoth/config/loader.py:270-310 | the raw map is unchanged by a second merge if and only if each non-empty atomic mapping entered a section that already was a mapping |
| ConfigLaws.BaseTwiceRewritesItsMap | src/carcharoth/config/loader.py:270-310 | a base layer with a model target, merged twice, changes the raw map |
| ConfigLaws.KeysStayAllowed | src/carcharoth/config/loader.py:282-292 | a layer keeps the tree within the base's keys exactly when its own body does |
| ConfigLaws.ScalarReplacedBySection | src/carcharoth/config/loader.py:265-279 | a layer that passes the check and still adds a key |
| ConfigResolve.CollectLayers | src/carcharoth/config/loader.py:207-238 | on success no duplicates, parents first in the order each file lists them, exactly the reachable files, the profile last; success whenever every chain is readable and within the depth |
| ConfigResolve.OneResolved | src/carcharoth/config/loader.py:207-238 | that leaves exactly one order |
| ConfigResolve.SiblingsInOrder | src/carcharoth/config/loader.py:231-235 | of two files of one list the later one comes later, unless something up to the earlier one extends it |
| ConfigResolve.LaterSiblingWins | src/carcharoth/config/loader.py:231-235 | and then it supplies what both state |
| ConfigResolve.ResolvedIsAcyclic | src/carcharoth/config/loader.py:216-219 | a resolved order proves that no reachable file extends itself through any chain |
| ConfigResolve.ResolveRaw | src/carcharoth/config/loader.py:117-149 | collects and merges every layer and the overrides, each layer above the first passing the key check; succeeds whenever every chain fits and every layer is allowed |
| ConfigResolve.ProfileWins | src/carcharoth/config/loader.py:3-7 | without overrides, whatever data the profile states survives, attributed to the profile |
| ConfigResolve.OverridesWin | src/carcharoth/config/loader.py:143-147 | what the overrides state is what the tree holds, attributed to them |
| ConfigResolve.FilesSupply | src/carcharoth/config/loader.py:130-149 | other data comes, value and source, from the last file in merge order that states it |
| Promotion.NestOverrides | src/carcharoth/config/loader.py:313-329 | succeeds exactly when each override can be placed in turn, and every override ends at its path exactly when each ancestor's own value already holds the descendant's |
| Promotion.OverridesLandExactly | src/carcharoth/config/loader.py:313-329 | all overrides land, in this or any order, exactly when ancestors' values agree with their descendants |
| Promotion.ConsistentIsPrefixFree | src/carcharoth/config/loader.py:313-329 | with no non-empty mapping among the values that is the same as no path being an ancestor of another |
| Promotion.OrderDecides | src/carcharoth/config/loader.py:319-329 | for an ancestor and a descendant set in either order the results agree exactly when the ancestor's value already holds the descendant's; the ancestor last always wins |
| Promotion.OrderDecidesForAPair | src/carcharoth/config/loader.py:319-329 | `a` before `a.b` is a conflict, `a.b` before `a` silently drops it |
| Promotion.Flatten | tui/src/config_tree.rs:160-187 | the leaves by dotted path without the derived root section, for any tree; exactly the leaves when no key outside that section is dotted and no root key is empty |
| Promotion.AncestorIsPrefix | tui/src/promote.rs:69-71 | the byte test for an ancestor is a proper prefix of segments |
| Promotion.Merge | tui/src/promote.rs:55-67 | the newest selection that concerns a path decides it; prefix-free stays prefix-free |
| Promotion.InsertSucceeds | tui/src/promote.rs:74-89 | placing a value gets through exactly when no ancestor holds anything but a mapping |
| Promotion.Nest | tui/src/promote.rs:74-89 | prefix-free leaves never reach the panic and sit at their paths; leaves that are no sections reach it exactly when one extends another whose value is not a mapping |
| Promotion.AnyOrderNests | tui/src/promote.rs:74-89 | prefix-free leaves are nested in whatever order they are placed |
| Promotion.PlacedExactly | tui/src/promote.rs:74-89 | in sorted order placing gets through exactly when no path extends another whose value is not a mapping |
| Promotion.FlatteningIsPrefixFree | tui/src/config_tree.rs:160-187 | what is loaded from a document whose keys dotted paths can address is prefix-free |
| Promotion.FlattenAfterNest | tui/src/config_tree.rs:160-187 | flattening a nesting gives the leaves back exactly when none is a section, has an empty path, starts with a dot, or lies in the derived section |
| Promotion.Reload | tui/src/promote.rs:38-93 | prefix-free leaves written and loaded again are the same exactly under that condition |
| Promotion.LeadingDotIsLost | tui/src/config_tree.rs:167-187 | the leaf `.a` comes back as `a` |
| Promotion.NestAfterFlatten | tui/src/config_tree.rs:160-187 | nesting a flattening gives the tree back, without its derived root section, exactly when no key outside that section is dotted and no root key is empty |
| Promotion.Changes | tui/src/config_tree.rs:212-223 | each leaf of the flattened source that the flattened target lacks or holds differently, exactly once, for any trees |
| Promotion.PromotingAllChanges | tui/src/config_tree.rs:212-223 | promoting every change gives the target every leaf of the source |
| Promotion.Promote | tui/src/promote.rs:37-89 | for any layer a flattening of it, merged with any selection and nested; with no sections selected it panics exactly when a merged path extends one that is not a mapping, and never for a layer whose keys dotted paths can address, of which it nests exactly the merge |
| Promotion.DottedLayerPanics | tui/src/promote.rs:74-89 | a layer with the keys `a` and `a.b` reaches the panic |
| Monitor.ExitKeeps | src/carcharoth/performance.py:195-207 | leaving a stage fires no clamp and moves its time to its record and its parent |
| Monitor.PublishKeeps | src/carcharoth/performance.py:266-285 | a publication takes no work time from any stage |
| Monitor.SnapshotConserves | src/carcharoth/performance.py:212-253 | exclusive times add up to the outermost inclusive times and fit in wall time less telemetry, whatever is running |
| Monitor.NoClampFires | src/carcharoth/performance.py:215-230 | no clamp at zero fires while observing a running frame |
| Monitor.StageMonitor.Enter | src/carcharoth/performance.py:181-188 | refused exactly for an unknown name, a full stack or too many paths, and then nothing changes |
| Monitor.StageMonitor.Snapshot | src/carcharoth/performance.py:212-253 | every report shows all stages as of one clock reading and conserves time |
| Monitor.StageMonitor.Publish | src/carcharoth/performance.py:266-285 | publication stays periodic exactly when it was, the publisher does not fail, and it takes at most a tenth of a second; no stage pays for it |
| MonitorSlices.SnapshotIsSlices | src/carcharoth/performance.py:178-285 | after any history of entering, leaving and publishing a snapshot shows for each stage how often it was entered, the time through which it ran, the part of that through which nothing ran inside it, and its longest run; publications belong to no stage |
| Features.VwapSeries | src/carcharoth/features/technical.py:286-308 | for any bars the one-pass accumulators give at every index nothing for a negative volume and else the distance to the VWAP of the session's other bars |
| FeatureSums.OnePassVwapIs | src/carcharoth/features/technical.py:286-308 | the one-pass value in sums over positions: high, low and close by volume over the non-negative volumes of the trailing run of the date |
| FeatureSums.VwapDistanceIs | src/carcharoth/features/technical.py:273-284 | the per-prefix value in sums over the positions of the date's regular bars, against the last of their closes |
| Features.VwapSeriesRefines | src/carcharoth/features/technical.py:261-308 | without negative volumes that is what the whole-session sums of each prefix give |
| Features.VwapFormsAgree | src/carcharoth/features/technical.py:261-308 | the one-pass and the per-prefix value agree exactly under a condition on the session's sums |
| Features.NegativeVolumeDiffers | src/carcharoth/features/technical.py:299-303 | two bars at 10 with volumes 2 and -1: no value in one pass, zero distance per prefix |
| Features.WalkBackIs | src/carcharoth/features/technical.py:323-345 | walking back over distinct dates finds something exactly when the slot's newest bars all count, and then exactly their values |
| Features.VolumeSeries | src/carcharoth/features/technical.py:349-368 | for any bars one bounded deque per slot gives at every index the score against the slot's newest non-negative volumes |
| Features.VolumeFormsAgree | src/carcharoth/features/technical.py:323-368 | with one bar per date and slot the two forms agree exactly when the latest volume is negative, the slot has too few values, or none of its newest bars has a negative volume |
| Features.VolumeSeriesRefines | src/carcharoth/features/technical.py:323-368 | with one bar per date and slot and no negative volume that is what walking back over each prefix gives |
| FeatureSums.VolumeScoreIs | src/carcharoth/features/technical.py:323-347 | with one bar per date and minute the score is taken against exactly the newest earlier bars of the same minute of the day, where there are enough and none is negative |
| Features.NegativeHistoryDiffers | src/carcharoth/features/technical.py:323-368 | a negative volume in the slot's past, on which the two forms differ |
| BarPermutation.PermuteBars | src/carcharoth/permutation/methods/in_sample_bars.py:46-94 | warm-up bars stay, and the window is rebuilt from its own shuffled gaps and shapes, whatever its prices |
| BarPermutation.PermutedBarIs | src/carcharoth/permutation/methods/in_sample_bars.py:46-94 | each new bar in numbers: its own time, the gap of one bar, and the high, low, close and volume of one other over its open |
| BarPermutation.PermutationKeepsEnd | src/carcharoth/permutation/methods/in_sample_bars.py:56-94 | times are kept; the final close is the same for every permutation, and the window's own when its opens and closes and the close before are positive |
| BarPermutation.EndKeptExactly | src/carcharoth/permutation/methods/in_sample_bars.py:56-100 | for any close before, when the final close is the window's own; after a positive one exactly when it is positive and nothing is lost over prices that are not |
| BarPermutation.LostIsOverOpens | src/carcharoth/permutation/methods/in_sample_bars.py:56-100 | with positive closes what is lost is the way from close to close over the bars whose open is not positive |
| BarPermutation.PermutationKeepsReturns | src/carcharoth/permutation/methods/in_sample_bars.py:56-100 | the bags of gaps and of intrabar tuples are kept exactly when the close before is positive or no return counts as a move |
| BarPermutation.BadOpenMovesTheEnd | src/carcharoth/permutation/methods/in_sample_bars.py:97-100 | a window with an open at zero whose every permutation ends at another close |
| BarPermutation.PermutationKeepsShape | src/carcharoth/permutation/methods/in_sample_bars.py:76-93 | well-shaped bars stay so after a positive close exactly when none opens above zero, falls, and has a low that is not positive; after zero always; after a negative close exactly when none moves |
| LoopSchedule.OffsetsIncrease | src/carcharoth/backtest/loop.py:20-23 | offsets of one anchor are valid dates that strictly increase |
| LoopSchedule.WindowDatesExist | src/carcharoth/backtest/loop.py:60-68 | the check of the final boundary alone excludes every overflow |
| LoopSchedule.Schedule | src/carcharoth/backtest/loop.py:43-88 | refused exactly for its stated reasons, and otherwise every window's dates |
| LoopSchedule.AcceptedIs | src/carcharoth/backtest/loop.py:43-68 | accepted exactly with complete settings and a last boundary that the calendar has and that is not after today |
| LoopSchedule.WindowFalls | src/carcharoth/backtest/loop.py:60-88 | every date of every window as a number of months of 3, 6 or 12 after the anchor, on its day of the month or the month's last |
| LoopSchedule.WindowsTile | src/carcharoth/backtest/loop.py:60-88 | windows are non-empty and contiguous, backtests tile time, start after validation and end before today |

## Left out

- PersistentCache.PersistentBarsCache.Call: time zone awareness checks, byte counters and warnings are not modelled; instants are integers.
- BarsCodec.Decode: Arrow bytes; a payload says whether its schema is valid and whether it holds nulls, and otherwise carries rows.
- Dataset.Clean: values that are not finite, since prices are reals; naive timestamps.
- Replay.BisectRight: the halving search itself, which is a library call.
- Engine.SignalGenerator.Generate: feature computation, prediction and prepared tables, which an arbitrary outcome stands for.
- Engine.TradingEngine.Tick: decision and snapshot repositories, logging and stage counters.
- Risk.AssessRisk: all refusals of the entry checks are distinguished, but their messages are shortened.
- Features.VwapFormsAgree: compares the two forms on time-ordered regular-session bars, as the feature pipeline delivers them.
- Features.VolumeSeries: mean, deviation and logarithm of the score, which are parameters.
- Quicktest.SimulateSymbol: a model that raises, which ends the simulation; what the model is shown of the position.
- ConfigMerge.LayeredConfig.MergeLayer: keys that contain dots outside atomic mappings.
- Promotion.Flatten: which of two leaves with the same dotted path stays, when keys are empty or contain dots.
- ConfigResolve.CollectLayers: symbolic links; a file is its resolved name. Without the depth bound on chains, whether a long chain is refused depends on the order of the walk.
- Dataset rows for selected symbols: numpy arrays are parallel sequences of row fields.
- Portfolio-wide limits over a run: each tick assesses all symbols against one account snapshot, so they hold per decision only (`Risk.ApprovalIsSafe`).
- ConfigResolve.ResolveRaw: universe selection and the refusal to override its derived section, validation and hashing, which are foreign data and library calls.
- Monitor.StageMonitor.Snapshot: CPU times, counters and tick rates, and the clock readings they take; after the execution has ended the wall time is fixed.
- Floating-point rounding, and the six-decimal columns of the database: exact reals instead.
- EMA, ADX, RSI, range position, HMM fitting, training and calibration: library numerics.
- Excursions, drawdown, Sharpe ratio and per-symbol statistics.
- Session.ScheduledBars: a session across which the clock changes.
- Live trading, schedulers, command lines, terminal screens, databases and network clients.
- Years beyond 9999 in cache windows, where the next month does not exist.
