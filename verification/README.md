# Verified model of the trading core

A trading system that runs spread strategies between exchange order books: it watches two books,
decides that a spread is worth trading, checks that both books can carry the trade, fires two legs
at once, and cleans up when only one of them fills. This project models the parts in which a
mistake costs money and proves what they guarantee.

- **Sweeping a book** (`Books`, `Safety`, `SpreadAnalyzer`, `PositionSizer`, `NadoClient`, and the
  walks in `Arbitrage` and `DnaBot`). One specification of a greedy sweep stands behind every depth
  walk. Its cost curve is shown to be convex; from that follow the optimality of the walk, the
  monotonicity of the average price, the correctness of the sizer's bisection (which needs that
  monotonicity but never checks it), and the sufficiency of the limit prices computed from a walk.
- **Book replicas** (`DataLayer`, `ExtendedFeed`). Three delta appliers are one map update; the
  Extended handler's sequence tracking is a replicated-log protocol whose channel may lose,
  duplicate, reorder and reconnect.
- **Two-leg trading** (`Executor`, `Arbitrage`, `ArbitrageEngine`, `Jobs`, `GoldSpread`,
  `GoldSpreadRuns`, `GoldSpreadOverlaps`, `GoldSpreadBot`, `DnaBot`). The exchange's real position is ghost state beside the bots' own
  fields; the theorems relate the two over every run, whatever the legs, unwinds, timeouts and
  restarts do.
- **Decisions.** For every decision to trade there is a theorem that gives its exact condition in
  terms of the inputs alone: when a signal is confirmed, which filters and gates let it through, which
  side is bought, when orders go out, and when a position is recorded or forgotten.
- **Small protocols** (`Jobs` for feed ownership, `ActivityForwarder` for interleaved flushes).

Objects whose methods update fields are classes with those fields. Each of their methods is proved
equal to a step of a specification on values, and the run theorems are about those steps. For the
gold bot each method is what one coroutine does between two awaits: waiting start() and stop()
calls, the bot's own task handle, and every live monitor loop are part of the state, so any
interleaving of overlapping lifecycle calls, ticks, order results and exceptions is a sequence of
steps.

Order outcomes, book fetches, clocks, position reads and process restarts are parameters or events
chosen by the environment. Prices and quantities are exact reals.

## Where the code is not what it says

The model follows the code. These differences from its comments and documentation are stated as
theorems, with the exact condition where one exists:

- The gold bot's exit test bounds the closing profit from above; it does not mean that the spread
  has converged (`GoldSpreadRuns.ExitSignalMeans`). With a non-negative setting every snapshot that
  still shows a premium raises it (`GoldSpread.PremiumRaisesExit`, `GoldSpread.ExitFarFromConvergence`).
- The gold bot's start and stop are not guarded against each other. A start that is accepted while a
  loop is alive or another start still waits for its position sync can lead to two monitor loops, and
  only such a start can (`GoldSpreadOverlaps.SecondLoopExactlyWhen`); two loops can open the position
  twice and record it once (`GoldSpreadOverlaps.TwoLoopsCanDoubleTheExposure`), so that the same
  condition decides whether exposure and record can part (`GoldSpreadOverlaps.ExposureCanPartExactlyWhen`).
  Two starts alone do not suffice: a stop has to come between them.
- An entry order of the gold bot that raises, or fails after the exchange has accepted it, counts as
  not filled; the entry ends as it is recorded exactly when both orders report what they fill
  (`GoldSpread.EntryMatchesExactlyWhenReported`).
- A passed slippage check does not imply depth (`Safety.PassedSlippageIsCoveredExactlyWhen`).
- With a holding schedule, the convergence strategy ignores a confirmed exit signal
  (`Jobs.ConfirmedExitIsActedOnExactlyWhen`).
- An aggressive limit order that was closed unfilled, partly filled at once, or cannot be polled is
  reported as a complete fill. The report can be trusted exactly when the order is polled, or replies
  that the whole quantity has traded (`Executor.ReportAccountsExactlyWhen`). A placement that is
  repeated after a connection error can fill twice (`Executor.LostPlacementIsHidden`).
- A chunked leg that fails after its first chunk reports nothing traded
  (`Arbitrage.ChunkedLegIsHonestExactlyWhen`, `Arbitrage.ChunkingIsHonestExactlyWhen`).
- Changing a leg of a job that holds a position forgets the position without closing it
  (`ArbitrageEngine.LegChangeKeepsBalanceExactlyWhen`).
- A minimum order size that rounds up at the eighth decimal can be recommended rounded up without
  having been checked (`PositionSizer.RecommendationsAreSafeExactlyWhen`).
- A snapshot that leaves a side empty keeps the old side and still reports the replica as synced,
  and a snapshot without a sequence number switches gap detection off
  (`ExtendedFeed.SnapshotInstalledExactlyWhen`, `ExtendedFeed.UnsequencedSnapshotHidesGaps`,
  `ExtendedFeed.LostDeltaGoesUnnoticed`).
- The position read after an entry looks at instrument B only when its exchange differs from A's,
  and a read that shows nothing erases a position that exists (`ArbitrageEngine.EntryKeepsBalance`).
- Equal instrument names on two exchanges send both exit orders to leg A
  (`ArbitrageEngine.ExitRoutesBackExactlyWhen`).
- Two flushes in flight can post events out of order; the order is guaranteed exactly when no flush
  that finds events begins while another is in flight (`ActivityForwarder.OrderGuaranteedExactlyWhen`).

## Model

| member | source | states |
|---|---|---|
| `Books.ReachIsFirstCover` | app/safety.py:109-126 | A walk stops at the first prefix of the side that holds the quantity, and reports a remainder exactly when even the whole side does not; for any sizes. |
| `Books.FilledIsMin` | app/safety.py:109-126 | The filled quantity is the smaller of what was asked and what the side holds. |
| `Books.CostSlope` | app/safety.py:109-126 | Every additional unit costs at least the lowest price of the side. |
| `Books.CostChord` | app/safety.py:109-126 | The cost curve lies on or above its chords from the origin (convexity), stated without division. |
| `Books.VwapNeverImproves` | app/safety.py:97-126 | On a sorted side the average price never gets better for the taker as the quantity grows, also beyond the depth of the book. |
| `Books.VwapBoundedByBest` | app/safety.py:97-126 | The average price is positive and never better than the best level. |
| `Books.GreedyIsAnAllocation` | app/safety.py:109-126 | Cost and fill of the walk are those of a real allocation over the levels. |
| `Books.SweepIsOptimal` | app/safety.py:109-126 | No allocation of the same quantity over the levels buys cheaper or sells dearer than the walk, and the walk's own allocation attains the optimum. |
| `Books.LimitKeepsSweep` | app/arbitrage.py:194-246 | A limit at or beyond the deepest consumed level leaves fill and cost of the order unchanged. |
| `Books.WithinHoldsExactlyWhen` | app/arbitrage.py:194-246 | The levels a limit admits hold the quantity if and only if the sweep is covered and its deepest level is inside the limit. |
| `Safety.WalkBook` | app/safety.py:97-126 | The loop computes the average price, the deepest touched price and the shortfall of the sweep. |
| `Safety.CheckOrderBookDepth` | app/safety.py:31-84 | Sufficient exactly when the side covers the quantity and its value reaches the minimum; reports the levels consumed and the prices. |
| `Safety.CheckSlippage` | app/safety.py:129-167 | Acceptable exactly when the average exists and its adverse move is within the bound; a zero expected or fill price fails with 100 percent. |
| `Safety.CheckBookQuantity` | app/safety.py:181-206 | Reports the quantity of exactly the first prefix that reaches the requirement, and whether there is one. |
| `Safety.RunPreTradeChecks` | app/safety.py:264-293 | Passes exactly when both checks do. |
| `Safety.ChecksAgreeOnDepth` | app/safety.py:53-73 | The three walks agree on sufficiency for all inputs, except that the depth check rejects an empty side even when nothing is asked for (both directions). |
| `Safety.PassingMeansCovered` | app/safety.py:264-293 | A passed pre-trade check was asked for a positive quantity that the book fills completely. |
| `Safety.SlippageIgnoresShortfall` | app/safety.py:87-94 | Asking for more than the side holds gets the verdict of asking for what it holds. |
| `Safety.PassedSlippageIsCoveredExactlyWhen` | app/safety.py:129-167 | A passed slippage check comes with enough depth if and only if the sizes add up to the quantity. |
| `Safety.SlippageCheckPromisesNoDepth` | app/safety.py:87-94 | A concrete book on which the slippage check passes without depth. |
| `Safety.PreTradePassesExactlyWhen` | app/safety.py:264-293 | On a published side a positive order passes if and only if the side holds it, it is worth the minimum depth, and the money it costs is at most the allowed percentage worse than at the expected price. |
| `SpreadAnalyzer.SlippageNeverNegative` | app/spread_analyzer.py:33-94 | The executable spread is never better than the quoted one. |
| `SpreadAnalyzer.AcceptanceIsDownwardClosed` | app/spread_analyzer.py:65-83 | A smaller trade is analysable, slips no more, and is acceptable whenever the larger one is. |
| `SpreadAnalyzer.AcceptableExactlyWhen` | app/spread_analyzer.py:33-94 | A trade can be analysed if and only if it is positive and both sides hold something, and is acceptable if and only if the ratio of the fills exceeds the ratio of the best quotes by at most the allowed ten-thousandths. |
| `PositionSizer.AcceptanceIsDownwardClosed` | app/position_sizer.py:158-179 | A positive quantity below an accepted one is accepted: what the bisection relies on. |
| `PositionSizer.BinarySearchMaxQty` | app/position_sizer.py:123-155 | The loop computes the ten-step bisection. |
| `PositionSizer.BisectBrackets` | app/position_sizer.py:142-155 | The result is the lower bound or accepted, and the point (upper - lower)/2^n above it is the upper bound or rejected. |
| `PositionSizer.SearchIsNearOptimal` | app/position_sizer.py:123-155 | No acceptable quantity in range exceeds the result by more than (upper - min)/1024, with the code's rounding to eight decimals. |
| `PositionSizer.RecommendationIsSafe` | app/position_sizer.py:31-120 | The recommendation is the minimum quantity, or within both capital limits and itself accepted on both books, or no more than a minimum that was rounded up. |
| `PositionSizer.RoundedUpMinimumIsUnsafe` | app/position_sizer.py:68-96 | For every minimum that rounds up at the eighth decimal, an account and a market for which the recommendation is above the minimum and not accepted. |
| `PositionSizer.RecommendationsAreSafeExactlyWhen` | app/position_sizer.py:68-96 | All recommendations for a minimum quantity are safe if and only if the minimum does not round up at the eighth decimal. |
| `PositionSizer.Round8IsNearest` | app/position_sizer.py:68-96 | Rounding goes to the nearest multiple of 10^-8, halfway to the even one. |
| `PositionSizer.AcceptedExactlyWhen` | app/position_sizer.py:158-179 | A quantity is accepted if and only if both sides fill something and the average bought and sold prices are within the allowed ten-thousandths of the mark. |
| `PositionSizer.LimitsAreNotional` | app/position_sizer.py:68-76 | The capital limits are, to the eighth decimal, what collateral times leverage times utilisation, or times the per-pair ratio, buys at the mark price. |
| `PositionSizer.MinimumIsRecommended` | app/position_sizer.py:31-120 | At least the minimum is recommended, and exactly it, with an error, without capital or price. |
| `PositionSizer.CapitalDecidesWithoutBooks` | app/position_sizer.py:68-96 | Without both books the recommendation is the smaller capital limit, or the minimum. |
| `PositionSizer.SmallestLimitIsNamed` | app/position_sizer.py:85-120 | Above the minimum the recommendation exceeds none of the three limits, and the cap names the smallest: liquidity only when strictly smallest, per-pair before capital on a tie. |
| `NadoClient.X18RoundTrip` | app/nado_client.py:30-37 | Encoding to 18-decimal fixed point and back is lossless if and only if the value is a multiple of 10^-18. |
| `NadoClient.X18Decoded` | app/nado_client.py:30-37 | Decoding and encoding again is the identity on every integer. |
| `NadoClient.RoundQtyBounds` | app/nado_client.py:400-405 | Rounding never increases an amount and loses less than one step. |
| `NadoClient.CreateMarketOrder` | app/nado_client.py:433-499 | The loop, the band test and the tick alignment produce the specified outcome: no levels, too little depth, beyond the band, or the placed amount, limit and encodings. |
| `NadoClient.PlacedLimitFillsTheOrder` | app/nado_client.py:443-488 | A placed order's aligned limit reaches every consumed level, so the levels inside it fill the whole amount at the same cost; the limit is within one tick of best times (1 plus or minus band) squared. |
| `NadoClient.SomeOrderIsPlaced` | app/nado_client.py:433-499 | A worked order through rounding, walk, band, alignment and encoding. |
| `NadoClient.PlacedEncodingIsExact` | app/nado_client.py:497-499 | With increments on the 10^-18 grid the encoded price and signed amount decode to exactly the limit and the amount. |
| `NadoClient.PlacedExactlyWhen` | app/nado_client.py:433-488 | An order with a positive rounded amount lacks depth if and only if the side holds less, and is placed if and only if the levels within the allowed percentage of the best price hold the amount. |
| `NadoClient.PlacedLimitAddsTheBand` | app/nado_client.py:464-488 | The limit lies a whole band beyond the deepest consumed level, rounded up by less than a tick for a buy and down by less than a tick for a sell. |
| `NadoClient.PlacedOrderIsOnTheGrid` | app/nado_client.py:400-488 | The amount is a multiple of the size increment, and the limit one of the tick. |
| `DataLayer.SortLevelsCorrect` | app/data_layer.py:873-875 | Sorting keeps exactly the levels, orders them best-first and keeps the last size of a repeated price. |
| `DataLayer.ListingIsUnique` | app/data_layer.py:1608-1610 | A price map has one strictly ordered listing. |
| `DataLayer.SortedValues` | app/data_layer.py:1608-1610 | Listing the map gives a strictly sorted list without repeated prices, whatever the iteration order. |
| `DataLayer.LastChangeDecides` | app/data_layer.py:1584-1610 | After a batch each price holds what its last change says, or what it held before. |
| `DataLayer.BatchesConcatenate` | app/data_layer.py:1584-1652 | Two batches in turn equal their concatenation. |
| `DataLayer.BatchIsIdempotent` | app/data_layer.py:1584-1652 | Re-applying a batch changes nothing. |
| `DataLayer.BatchKeepsPositive` | app/data_layer.py:1584-1652 | Positive sizes stay positive. |
| `DataLayer.ListsFollowTheMap` | app/data_layer.py:1584-1652 | Both laws hold of the lists themselves. |
| `DataLayer.ApplyDeltaCumulative` | app/data_layer.py:1584-1610 | The applier leaves the strictly sorted listing of the one map update, reading the cumulative size first and the other field when it is missing. |
| `DataLayer.ApplyRisexDelta` | app/data_layer.py:1613-1632 | The same for RISEx entries, skipping incomplete ones. |
| `DataLayer.ApplyNadoDelta` | app/data_layer.py:1635-1652 | The same for Nado entries scaled by 10^18, skipping short ones. |
| `DataLayer.ListsAreBestFirst` | app/data_layer.py:1608-1610 | The lists the appliers leave have falling bids and rising asks without repeated prices. |
| `DataLayer.ExtendedEntriesMean` | app/data_layer.py:1584-1610 | An entry sets its price to the cumulative size, else to the other size field, else to nothing; without a price it is ignored. |
| `DataLayer.RisexEntriesMean` | app/data_layer.py:1613-1632 | An entry sets its price to its quantity, and is ignored when either is missing. |
| `DataLayer.NadoEntriesMean` | app/data_layer.py:1635-1652 | An entry is a price and then a size, both times 10^18; a shorter one is ignored. |
| `ExtendedFeed.OrderbookSnapshot.HandleExtendedMessage` | app/data_layer.py:841-885 | The handler is the protocol step: sequence test, sync flag, books, counters. |
| `ExtendedFeed.OrderbookSnapshot.OnConnection` | app/data_layer.py:816-837 | Connecting and an orderly close leave the sync flag alone; a failure drops it. |
| `ExtendedFeed.StepKeepsMirror` | app/data_layer.py:841-885 | One message or connection event keeps "synced implies mirror". |
| `ExtendedFeed.SyncedReplicaMirrorsExchange` | app/data_layer.py:841-885 | Under any loss, duplication, reordering and reconnection of genuine messages, a synced replica lists exactly the exchange's book as of its last sequence number. |
| `ExtendedFeed.FreshReplicaMirrorsExchange` | app/data_layer.py:800-885 | The same from the empty cache entry. |
| `ExtendedFeed.DeltaKeepsSyncExactlyWhen` | app/data_layer.py:857-864 | A delta keeps the flag if and only if it continues the sequence or tracking is off. |
| `ExtendedFeed.UnsyncedUntilSnapshot` | app/data_layer.py:852-864 | Once lost, the flag returns only with a snapshot. |
| `ExtendedFeed.SnapshotInstalledExactlyWhen` | app/data_layer.py:869-875 | A snapshot installs the books it carries if and only if no side it leaves empty still holds levels locally. |
| `ExtendedFeed.UnsequencedSnapshotHidesGaps` | app/data_layer.py:852-864 | After a snapshot without a number the replica stays synced through any run of lost, repeated or reordered deltas, until the feed fails or a numbered snapshot arrives. |
| `ExtendedFeed.LostDeltaGoesUnnoticed` | app/data_layer.py:852-864 | A run in which a delta is lost after such a snapshot: the synced replica is not the exchange's book at any sequence number. |
| `ExtendedFeed.DeltaIsAlwaysApplied` | app/data_layer.py:876-881 | Of any replica, synced or not, a delta leaves at each price what its last entry for it says, or what was there; a side that got entries is strictly ordered, and one that got none is untouched. |
| `ExtendedFeed.ListsDependOnDataAlone` | app/data_layer.py:841-885 | Over runs, replicas with equal lists that get the same data end with equal lists, whatever the sequence numbers, the flags and the connection events. |
| `ExtendedFeed.ConnectedExactlyWhen` | app/data_layer.py:800-837 | The replica is connected if and only if the last connection event was a connection. |
| `ExtendedFeed.LastNumberIsTracked` | app/data_layer.py:857-864 | Over runs of numbered snapshots the last number is that of the last numbered message, gaps, duplicates and reordered deltas included. |
| `ExecutionLogger.DepthWithinBps` | app/execution_logger.py:30-58 | The early-exit loops compute the sums cut at the first level outside the range; an unquoted book has depth zero. |
| `ExecutionLogger.EarlyExitIsExact` | app/execution_logger.py:45-56 | On a sorted side cutting off early equals filtering the whole side. |
| `ExecutionLogger.HalfPercentDepthAgrees` | app/data_layer.py:400-416 | Depth within 50 basis points is the health index's total depth before display rounding. |
| `ExecutionLogger.DepthIsWorthExactlyWhen` | app/execution_logger.py:45-56 | With positive prices and sizes the depth of a side is its whole worth if and only if all its levels are inside the limit. |
| `ExecutionLogger.HealthDepthIsWholeBookExactlyWhen` | app/data_layer.py:400-416 | The health index counts the whole book if and only if every level is within half a percent of the midpoint of the best quotes. |
| `Executor.ExecuteAggressiveLimitOrder` | app/executor.py:134-274 | Retry after a connection error only, then up to three polls, give the specified result or exception. |
| `Executor.ReportAccounts` | app/executor.py:225-274 | For one fill by a truthful venue: the report accounts for it if and only if the fill was asked for, or is the amount the report stands for. |
| `Executor.ReportAccountsExactlyWhen` | app/executor.py:215-274 | Whatever a truthful venue fills and answers to polls, the report accounts for it, if and only if the order is not final, reports nothing traded, can be polled and has a reference, or the reply itself says that the whole quantity has traded. |
| `Executor.LostPlacementIsHidden` | app/executor.py:194-213 | When a first placement reached the venue before the connection dropped and the order was sent again, the report accounts for both if and only if the first filled nothing. |
| `Executor.SecondPlacementOnlyAfterConnectionError` | app/executor.py:194-219 | The order is placed again after a connection error and nothing else, and then the first reply does not matter. |
| `Executor.NoOrderWithoutChecks` | app/executor.py:134-193 | Without a book, or after failed checks, the report is a failure with nothing traded. |
| `Executor.RepliesAreReported` | app/executor.py:221-274 | An order that says it has traded is reported with that amount; a final or unpollable one that says nothing, with the whole quantity; one without a reference, as failed. |
| `Executor.FirstTellingPollDecides` | app/executor.py:245-270 | The first poll that says filled or raises decides, and without any the order failed with the amount of the last; for any number of polls. |
| `Executor.PollsDecide` | app/executor.py:228-274 | The same for the three polls of an order. |
| `Arbitrage.CounterIsRunRemainder` | app/arbitrage.py:577-609 | The signal counter is the length of the current run modulo the confirmations. |
| `Arbitrage.ActsAtMultiples` | app/arbitrage.py:577-609 | Over any raw-signal sequence, an action is returned exactly at ticks where the current run of equal signals has a length that is a multiple of the confirmations. |
| `Arbitrage.ComputeVwapLimit` | app/arbitrage.py:194-246 | No limit when the book does not cover the quantity; otherwise the deepest consumed price, plus the buffer ticks for a buy. |
| `Arbitrage.PassedChecksGiveALimit` | app/arbitrage.py:194-246 | After a passed pre-trade check a limit exists, the levels inside it hold the quantity, and sweeping only them averages within the slippage bound. |
| `Arbitrage.FourWalksAgree` | app/arbitrage.py:194-246 | The limit walk and the three safety walks agree on whether a positive quantity is covered. |
| `Arbitrage.ExecuteLegChunked` | app/arbitrage.py:1469-1541 | The loop computes the specified report and fill of a leg sent in chunks or whole. |
| `Arbitrage.ChunkedLegIsHonestExactlyWhen` | app/arbitrage.py:1469-1541 | A chunked leg reports its fill honestly if and only if it is one order, or its first chunk fails, or every chunk below the total succeeds. |
| `Arbitrage.ChunkingIsHonestExactlyWhen` | app/arbitrage.py:1487-1525 | A leg is honest whatever its chunks do if and only if it is sent as one order. |
| `Arbitrage.ActsOnStreaks` | app/arbitrage.py:518-609 | Over any ticks without a trade, an entry (flat) or an exit (holding) is asked for if and only if the streak of favourable ticks is a positive multiple of the confirmations; favourable is told by the strategy's own settings. |
| `Arbitrage.LimitIsTightest` | app/arbitrage.py:194-246 | A positive quantity gets a limit if and only if the side holds it; without the buffer it is the tightest limit that fills the quantity; the buffer moves a buy's limit by that many ticks, and a sell's not at all. |
| `Arbitrage.ZeroQuantityDivides` | app/arbitrage.py:194-246 | A zero quantity is covered by any level and then divides by zero. |
| `ArbitrageEngine.OrdersCarryCoveringLimits` | app/arbitrage.py:756-899 | Whenever orders go out on published books, both limits cover the quantity within the slippage setting. |
| `ArbitrageEngine.SentOrdersAreCovered` | app/arbitrage.py:886-908 | Every order that an entry or an exit sends on published books carries a limit; the levels it admits hold the ordered quantity and average within the slippage setting of the mid price. |
| `ArbitrageEngine.ArbitrageEngine.ExecuteSingleLeg` | app/arbitrage.py:1329-1362 | A limit order, a chunked market order, an exception or a timeout gives the specified report and moves the exchange position by what filled. |
| `ArbitrageEngine.LegIsHonestExactlyWhen` | app/arbitrage.py:1393-1416 | For one fill by a truthful venue, a leg reports it if and only if nothing had filled by a timeout, a limit order was polled or not placed or filled as its report says, and a market order was whole or lost no chunk after the first. |
| `ArbitrageEngine.LegIsTrustworthyExactlyWhen` | app/arbitrage.py:1329-1416 | Whatever a truthful venue fills and answers to polls, a leg's report is honest, if and only if the engine waits for it, a limit order is not placed or is polled or replies the whole quantity traded, and a market order is whole or loses no chunk after the first. |
| `ArbitrageEngine.ArbitrageEngine.Evaluate` | app/arbitrage.py:501-609 | The method's action and counter are the confirmation step on the raw signal. |
| `ArbitrageEngine.ArbitrageEngine.ExecuteLegsParallel` | app/arbitrage.py:1364-1428 | Sends the two orders with their limits; both legs change the exchange position by what they really filled, a timeout or exception counting as a failure. |
| `ArbitrageEngine.ArbitrageEngine.UnwindLeg` | app/arbitrage.py:1430-1463 | A successful unwind moves the exchange position back, a failed one leaves the amount as residue. |
| `ArbitrageEngine.ArbitrageEngine.TradePair` | app/arbitrage.py:901-960 | The four success and failure combinations, with partial fills, leave the specified position and residue. |
| `ArbitrageEngine.ArbitrageEngine.SoftSyncAfterEntry` | app/arbitrage.py:368-410 | The position fields are erased exactly when no read shows a size. |
| `ArbitrageEngine.ArbitrageEngine.ExecuteEntry` | app/arbitrage.py:615-991 | Guards, orders, unwinds and the following read lead to the specified entry result; the orders sent carry the limits computed from the fetched books. |
| `ArbitrageEngine.ArbitrageEngine.ExecuteExit` | app/arbitrage.py:993-1323 | The same for the exit, which routes by the stored symbols. |
| `ArbitrageEngine.UnwindsCompose` | app/arbitrage.py:910-960 | The order of the two unwinds does not matter, and an unwind of nothing may be skipped. |
| `ArbitrageEngine.IncompletePairIsUndone` | app/arbitrage.py:910-960 | When a pair does not complete, the exchange position changes only by what failed unwinds left. |
| `ArbitrageEngine.CompletePairMoves` | app/arbitrage.py:901-910 | A completed pair moves exactly the quantity on each leg. |
| `ArbitrageEngine.ExitRoutesBackExactlyWhen` | app/arbitrage.py:1018-1064 | Exit orders reach the legs of the entry if and only if the instrument names differ. |
| `ArbitrageEngine.EntryKeepsBalance` | app/arbitrage.py:910-991 | An entry keeps the ledger balanced; a completed one if and only if the following reads show a position. |
| `ArbitrageEngine.ExitKeepsBalance` | app/arbitrage.py:1248-1323 | An exit keeps the ledger balanced and keeps the position recorded when it does not complete. |
| `ArbitrageEngine.PairBalances` | app/arbitrage.py:901-960 | Both cases together, for the legs as the venue plays them. |
| `ArbitrageEngine.LegChangeKeepsBalanceExactlyWhen` | app/job_manager.py:306-322 | The reset that follows a change of legs keeps the ledger balanced if and only if no position is recorded. |
| `ArbitrageEngine.EntryBuysTheCheaper` | app/arbitrage.py:670-685 | For every snapshot whose flag agrees with its mids, the buy order of an entry is on the leg with the lower mid and the sell order on the other one. |
| `ArbitrageEngine.EntryGoesLongTheCheaper` | app/arbitrage.py:670-991 | A completed honest live entry from flat adds the quantity on the cheaper instrument and takes it away on the dearer one, which is worth minus the quantity times the difference of the mids; the recorded long symbol is the cheaper instrument's. |
| `ArbitrageEngine.ExitUndoesEntry` | app/arbitrage.py:993-1323 | A completed honest exit after a completed honest entry brings the exchange back to where it was and forgets the position. |
| `ArbitrageEngine.SimulationNeverTrades` | app/arbitrage.py:695-728 | In simulation mode nothing is sent and the exchange does not change. |
| `ArbitrageEngine.EntryIsForgottenExactlyWhen` | app/arbitrage.py:368-410 | The position of a completed live entry is forgotten if and only if no read that is made shows a size. |
| `ArbitrageEngine.EntrySendsExactlyWhen` | app/arbitrage.py:636-899 | A live engine sends entry orders if and only if the spread is inside the strategy's range and the overall bound, both books were fetched, and the cheaper instrument can be bought and the dearer one sold. |
| `ArbitrageEngine.ExitSendsExactlyWhen` | app/arbitrage.py:1018-1247 | A live exit sends its orders if and only if both symbols are stored, both books were fetched, and the long symbol's leg can be sold and the short symbol's bought. |
| `Jobs.ArbJob.TickJob` | app/job_manager.py:435-558 | The method is the specified tick: evaluation, status, schedule, cooldowns, entry or exit. |
| `Jobs.TickKeepsBalance` | app/job_manager.py:435-558 | One tick keeps the ledger balanced. |
| `Jobs.LedgerStaysBalanced` | app/job_manager.py:435-558 | Over every run of ticks the exchange's net position per instrument is what the engine records plus what failed unwinds left. |
| `Jobs.TruthfulVenueKeepsLedger` | app/job_manager.py:435-558 | The same from what the venue does: over every run of ticks with truthful replies and legs whose reports tell their fill (polled limit orders, whole market orders), the ledger stays balanced. |
| `Jobs.TrustworthyLegsKeepLedger` | app/job_manager.py:435-558 | The same on conditions that can be told without knowing what the venue filled. |
| `Jobs.NoFailedUnwindNoResidue` | app/job_manager.py:435-558 | When no unwind fails, nothing is left over. |
| `Jobs.ConfirmedExitIsActedOnExactlyWhen` | app/job_manager.py:476-537 | A tick that confirms an exit of a tradable position attempts it if and only if the last failure is 60 seconds old and the strategy is delta-neutral, or no schedule applies, or the schedule is due and its spread bound holds. |
| `Jobs.JobManager.CreateJob` | app/job_manager.py:166-214 | A new id subscribes both legs; a known id is refused and changes nothing. |
| `Jobs.JobManager.DeleteJob` | app/job_manager.py:216-226 | Removes the job and the feeds no other job uses. |
| `Jobs.JobManager.UpdateJobConfig` | app/job_manager.py:237-326 | When a leg changes, moves the job's subscriptions and resets what it remembers of its position; otherwise leaves both. |
| `Jobs.JobManager.MaybeRemoveFeed` | app/job_manager.py:750-759 | The loop drops the feed exactly when no live job uses it. |
| `Jobs.OperationKeepsOwnership` | app/job_manager.py:166-326 | One operation keeps the running feeds equal to the legs of the live jobs. |
| `Jobs.FeedsAreOwned` | app/job_manager.py:166-326 | After any sequence of creates, deletes and updates no feed is missing and none is left behind. |
| `Jobs.ExitIsAttemptedExactlyWhen` | app/job_manager.py:476-537 | A tick attempts an exit of a tradable position if and only if the last failure is 60 seconds old and the strategy's exit condition, with or without a schedule, holds. |
| `Jobs.AttemptedExitLeaves` | app/job_manager.py:520-537 | After a successful exit the job is flat and monitors, without an entry time; after a failed one position, entry time and last success are as before. |
| `Jobs.ConfirmedEntryIsActedOnExactlyWhen` | app/job_manager.py:538-556 | A tick of an auto-trading flat job that confirms an entry which would succeed stamps the entry time and holds, if and only if the last successful exit is 120 seconds old. |
| `Jobs.TickLeavesTheDesk` | app/job_manager.py:435-558 | Nothing is traded without a snapshot, without auto-trading, with a missing symbol, or by a flat job that confirms no entry. |
| `Jobs.StatusMeans` | app/job_manager.py:455-482 | The status that a tick without a trade leaves, from the position, the schedule, the symbols and auto-trading. |
| `Jobs.NoEntryAfterExit` | app/job_manager.py:538-545 | Over any run of ticks within 120 seconds of the last successful exit, a flat job stays flat. |
| `Jobs.ExitAndEntryAreApart` | app/job_manager.py:527-545 | Over runs with a monotone clock at least 120 seconds lie between a successful exit and the next entry. |
| `Jobs.PatchTakesEffect` | app/job_manager.py:166-326 | An update or a create gives the job exactly the legs that the patch names, an update that changes them resets what is remembered, and other jobs stay. |
| `Jobs.DeleteRemovesOne` | app/job_manager.py:166-226 | A delete removes exactly its job; of an unknown job it changes nothing, like a create of a known one. |
| `ActivityForwarder.ActivityLogForwarder.Forward` | app/activity_forwarder.py:55-71 | Appends, and asks for a flush at the batch size. |
| `ActivityForwarder.ActivityLogForwarder.BeginFlush` | app/activity_forwarder.py:87-93 | Moves the oldest events, at most one batch, in flight. |
| `ActivityForwarder.ActivityLogForwarder.EndFlush` | app/activity_forwarder.py:95-108 | Posts the batch, puts it back in front below the limit, or drops it. |
| `ActivityForwarder.StepConserves` | app/activity_forwarder.py:55-108 | A step neither loses nor duplicates an event. |
| `ActivityForwarder.EventsAreConserved` | app/activity_forwarder.py:55-108 | Under any interleaving every forwarded event is in exactly one place: buffered, in flight, posted or dropped. |
| `ActivityForwarder.PostedInForwardOrder` | app/activity_forwarder.py:73-108 | With one flush in flight at a time, posted events are a subsequence of forward order. |
| `ActivityForwarder.OneAtATimeExactlyWhen` | app/activity_forwarder.py:87-93 | No flush that finds events begins beside another one if and only if no prefix of the run has two batches in flight. |
| `ActivityForwarder.TwoInFlightCanReorder` | app/activity_forwarder.py:87-108 | Whenever two batches of distinct events are in flight, one of the two orders in which they may be posted is not forward order. |
| `ActivityForwarder.OrderGuaranteedExactlyWhen` | app/activity_forwarder.py:87-108 | For distinct events: at every point of a run, however the flushes in flight end, posted order is forward order, if and only if flushes that find events never overlap. |
| `ActivityForwarder.ConcurrentFlushesCanReorder` | app/activity_forwarder.py:87-108 | A concrete interleaving of two flushes posts two events in inverted order. |
| `ActivityForwarder.FlushDisposes` | app/activity_forwarder.py:87-108 | A flush takes the oldest 50 events or all; a status 200 posts them, an exception puts them back when fewer than 500 wait, and anything else drops them. |
| `DnaBot.DNABot.SlotFree` | app/dna_bot.py:831-852 | The loop finds exactly whether a slot is left and no open position holds the token on either exchange. |
| `DnaBot.DNABot.IsTokenInCooldown` | app/dna_bot.py:753-771 | Answers from the map and evicts an expired entry it looks at. |
| `DnaBot.DNABot.PassesFilters` | app/dna_bot.py:880-909 | The exchange, threshold, client, price and quantity filters after the cooldown test. |
| `DnaBot.DNABot.HandleSignal` | app/dna_bot.py:788-937 | The method is the signal step: age, slots, exclusions, cooldown with its eviction, filters, opening. |
| `DnaBot.DNABot.ClosePosition` | app/dna_bot.py:1989-2117 | The method is the close step: status changes, cooldown after an automatic close, revert on failure. |
| `DnaBot.DNABot.DeletePosition` | app/dna_bot.py:2129-2141 | Only a closed position is dropped from the history; the others keep their order. |
| `DnaBot.DNABot.Reset` | app/dna_bot.py:363-378 | Positions go, cooldowns stay. |
| `DnaBot.StepKeepsSlots` | app/dna_bot.py:831-852 | A step keeps the position limit and never lets two open positions share a token on an exchange. |
| `DnaBot.StepRemembers` | app/dna_bot.py:753-786 | A step keeps the lazily evicted map true to the full close history. |
| `DnaBot.CooldownAnswersFromHistory` | app/dna_bot.py:753-771 | The map answers exactly as the full history of automatic closes would. |
| `DnaBot.RunsStaySound` | app/dna_bot.py:788-937 | Over every run with a monotone clock all three invariants hold. |
| `DnaBot.NoOpenWithinCooldown` | app/dna_bot.py:858-876 | No signal opens a token within the cooldown after any automatic close of it. |
| `DnaBot.NadoWalkAndValidate` | app/dna_bot.py:1033-1167 | The loop and the profit test give the specified verdict, also for non-positive quantities and a zero best price. |
| `DnaBot.WalkIsDownwardClosed` | app/dna_bot.py:1081-1167 | A smaller order passes whenever a larger one does. |
| `DnaBot.PassedWalkHasDepth` | app/dna_bot.py:1081-1108 | After a passed walk the Nado order on the same book cannot fail for lack of depth. |
| `DnaBot.SignalOpensExactlyWhen` | app/dna_bot.py:788-937 | A signal whose legs fill adds exactly one open position of its token and exchanges if and only if it is fresh, finds a slot, is neither excluded nor cooling down, names configured exchanges with clients, has positive prices and size, and its profit reaches the fee, half of it or the custom minimum by mode, and the general minimum; otherwise positions stay as they are. |
| `DnaBot.WantedExactlyWhen` | app/dna_bot.py:880-909 | The tests after the cooldown test accept exactly such exchanges, prices, sizes and profits. |
| `DnaBot.ConsideredExactlyWhen` | app/dna_bot.py:805-857 | The tests before it accept exactly the fresh signals with a free slot whose token is not excluded, slots counted as a multiset of open statuses. |
| `DnaBot.UnfilledOpensNothing` | app/dna_bot.py:1169-1200 | Without filled legs a signal opens nothing. |
| `DnaBot.QuantityIsAffordable` | app/dna_bot.py:893-909 | The quantity is worth at most the position size at the middle price, at most the signal's maximum, and reaches one of the two. |
| `DnaBot.ExpiredIsEvicted` | app/dna_bot.py:753-771 | A considered signal takes its token's expired cooldown out of the map. |
| `DnaBot.CloseCloses` | app/dna_bot.py:1989-2117 | A close with clients and filled legs closes that position alone, and if automatic its token cools down for the configured time; any other close changes neither positions nor cooldowns. |
| `DnaBot.OnlyClosedAreDeleted` | app/dna_bot.py:2129-2141 | A delete takes out a closed position and leaves everything else, in order; a reset takes out all positions and keeps the cooldowns. |
| `DnaBot.UpperIgnoresCase` | app/dna_bot.py:753-786 | Tokens that differ in the case of letters only share their cooldown and exclusion. |
| `DnaBot.WalkPassesExactlyWhen` | app/dna_bot.py:1081-1167 | On a published book a positive order passes the walk if and only if the side holds it, the profit exceeds the haircut, and its cost stays strictly within the rest of the profit from the best price. |
| `GoldSpread.TurnKeepsShape` | app/gold_spread_bot.py:1007-1598 | A turn of any loop records only positions whose tokens fit their direction and whose live legs are positive. |
| `GoldSpread.TurnKeepsControl` | app/gold_spread_bot.py:1007-1598 | A turn of the one live loop keeps: HOLDING implies a position, a position implies HOLDING or EXITING, and no position is recorded while an entry is under way. |
| `GoldSpread.TurnKeepsSound` | app/gold_spread_bot.py:1161-1598 | A turn also keeps, at every await, what the exchange holds at that await. |
| `GoldSpread.EntryMatchesExactlyWhenReported` | app/gold_spread_bot.py:1202-1324 | A reported entry from flat, through any branch and with successful unwinds, ends with the exchange holding what is recorded if and only if both legs report what they have filled. |
| `GoldSpread.ExitOrdersKeepMatched` | app/gold_spread_bot.py:1422-1475 | Close orders that report less than they do leave an exposure the following repair and sweep can deal with; only two reported closes of which one did not happen raise a fault. |
| `GoldSpread.TurnKeepsConfirming` | app/gold_spread_bot.py:588-627 | A turn keeps the newest history items aligned with the confirming ticks. |
| `GoldSpread.ConfirmedWindow` | app/gold_spread_bot.py:985-1003 | A confirmed ENTRY finds a full window of confirming ticks whose mean reaches the threshold. |
| `GoldSpread.ExitBoundsProfit` | app/gold_spread_bot.py:979-983 | For a well-shaped position EXIT is raised exactly when closing now earns at most the entry spread plus the exit setting. |
| `GoldSpread.PremiumRaisesExit` | app/gold_spread_bot.py:979-983 | With a non-negative exit setting every snapshot that still shows a premium raises EXIT. |
| `GoldSpread.ExitFarFromConvergence` | app/gold_spread_bot.py:1359-1365 | Entered at a spread of 10, setting 2: EXIT is raised at a spread of 48, at a loss of 38 per unit. |
| `GoldSpread.GateOfTwo` | app/gold_spread_bot.py:985-1003 | With a window of two and a mean, the stability gate blocks if and only if the two spreads differ by more than the limit times their sum, in absolute values. |
| `GoldSpread.GateOfAny` | app/gold_spread_bot.py:985-1003 | For any window with a mean, spreads that are all within the limit times the mean of it never block, and spreads that are all further away always do. |
| `GoldSpread.GateIsMonotone` | app/gold_spread_bot.py:1033-1046 | Raising the limit never blocks more. |
| `GoldSpread.GateIsOff` | app/gold_spread_bot.py:993-1003 | Without a positive limit, enough spreads or a mean that is not zero the gate never blocks. |
| `GoldSpread.SignalsOnStreaks` | app/gold_spread_bot.py:588-627 | Over any snapshots of a waiting bot, ENTRY (flat) or EXIT (holding) is returned if and only if the unbroken streak of favourable snapshots is at least as long as the confirmations. |
| `GoldSpread.BusyBotsAreSilent` | app/gold_spread_bot.py:609-627 | A bot that is entering, exiting or in error returns NONE and stays as it is. |
| `GoldSpread.HistoryKeepsNewest` | app/gold_spread_bot.py:462-466 | However many spreads are recorded, the history holds the newest 720 of all, in order. |
| `GoldSpread.ConfirmedEntryLeadsTo` | app/gold_spread_bot.py:1027-1101 | A confirmed ENTRY goes back to monitoring when the gate blocks; otherwise it holds a simulated hedge, ends in error without a client, or goes on to refresh prices. |
| `GoldSpread.EntryGateOfTwo` | app/gold_spread_bot.py:1033-1046 | With two confirmations a live entry goes on if and only if this spread and the one before differ by at most the limit times their sum. |
| `GoldSpread.SimulatedEntryCapturesSpread` | app/gold_spread_bot.py:1048-1090 | On consistent prices a simulated entry sells the premium token at its bid and buys the other at its ask, capturing exactly the snapshot's spread. |
| `GoldSpread.EntryOrdersGoOutExactlyWhen` | app/gold_spread_bot.py:1108-1148 | The orders go out if and only if there are fresh prices, their spread still reaches the threshold, and the quantity is worth at most the cap on both legs; in the direction of the fresh prices. |
| `GoldSpread.EntryIsRecordedExactlyWhen` | app/gold_spread_bot.py:1202-1324 | A reported entry records a position if and only if both legs report a fill at prices that leave the tolerated share of the threshold; with the reported quantities, those prices and the right tokens. |
| `GoldSpread.ConfirmedExitLeadsTo` | app/gold_spread_bot.py:1342-1399 | A confirmed EXIT of a live position goes on to close exactly it, keeps holding without a client, and drops a simulated one at once. |
| `GoldSpread.FinishedHandlersResume` | app/gold_spread_bot.py:1007-1598 | Every handler that ends without an exception leaves the bot holding if a position is recorded and monitoring if not. |
| `GoldSpread.RaisedHandlersAreStuck` | app/gold_spread_bot.py:467-477 | A handler that ends in an exception leaves the bot entering or exiting, and over any later ticks nothing is traded and neither state nor position changes. |
| `GoldSpreadRuns.StepKeepsShape` | app/gold_spread_bot.py:271-400 | Every event, with any number of loops, keeps all positions well shaped. |
| `GoldSpreadRuns.StepKeepsConfirming` | app/gold_spread_bot.py:335-400 | Every event, with any number of loops, keeps the confirmation window. |
| `GoldSpreadRuns.EntryWindowIsConfirmed` | app/gold_spread_bot.py:985-1003 | At any point of any run, when an entry handler is called with 2 to 720 confirmations, its volatility window is full and consists of the confirming ticks, all at or above the threshold, and so is their mean. |
| `GoldSpreadRuns.ExitSignalMeans` | app/gold_spread_bot.py:979-983 | At any point of any run, EXIT is raised exactly when closing now earns at most the entry spread plus the exit setting. |
| `GoldSpreadRuns.StepKeepsSound` | app/gold_spread_bot.py:271-350 | Every event that leaves at most one live loop keeps control and exposure. |
| `GoldSpreadRuns.RunKeepsSound` | app/gold_spread_bot.py:271-1598 | The same over every run with at most one live loop, however start and stop overlap. |
| `GoldSpreadRuns.ControlAlwaysHolds` | app/gold_spread_bot.py:271-350 | Over every such run HOLDING implies a position, and a position exists only in HOLDING or EXITING, in memory and on disk. |
| `GoldSpreadRuns.EntryNeverOverwrites` | app/gold_spread_bot.py:1007-1324 | Over every such run no position is recorded while an entry is under way or when a tick starts one. |
| `GoldSpreadRuns.ExposureMatchesPosition` | app/gold_spread_bot.py:1007-1598 | Over every such run, whenever no signal handler is running and no fault was raised, the exchange holds exactly the recorded legs, and nothing when there is no position. |
| `GoldSpreadRuns.TurnFaultsHaveACause` | app/gold_spread_bot.py:779-862 | A turn raises the fault mark only by entry orders that report something else than they fill, two reported closes of which one did not happen, a failed unwind or read, an exception after its orders went out, or a live position closed in simulation mode. |
| `GoldSpreadRuns.FaultsHaveACause` | app/gold_spread_bot.py:271-477 | Beyond that, only a stop or restart that interrupts a handler after its orders, a live position dropped by reset or an unreadable file, or a start that acts on an outdated read raises it. |
| `GoldSpreadRuns.StartRepairsExactlyWhen` | app/gold_spread_bot.py:864-932 | After a live start with a current read the exchange holds what is recorded if and only if it is flat, or holds a hedge while none is recorded, or already held what is recorded. |
| `GoldSpreadRuns.StartLeaves` | app/gold_spread_bot.py:271-313 | An accepted start runs and holds or monitors by the position, and waits for the exchange exactly when it is live with a client; a refused one changes nothing. |
| `GoldSpreadRuns.StopAndResetLeave` | app/gold_spread_bot.py:315-350 | A finished stop leaves no handle and the bot holding or idle by the position, in memory and on disk; a reset leaves no position, monitoring or idle by whether it runs. |
| `GoldSpreadRuns.AdoptionRecordsTheExchange` | app/gold_spread_bot.py:934-960 | A hedge found on the exchange is recorded with the exchange's sizes, direction and each token's own entry price, and held. |
| `GoldSpreadRuns.OtherReadsLeave` | app/gold_spread_bot.py:886-932 | A read that shows nothing drops a recorded position and goes back to monitoring; every other read without an unrecorded hedge changes nothing. |
| `GoldSpreadRuns.RestartLeaves` | app/gold_spread_bot.py:1624-1669 | A new process has what was persisted, does not run, and drops an unreadable position, with HOLDING if that was the state. |
| `GoldSpreadOverlaps.SecondLoopArises` | app/gold_spread_bot.py:304-306 | A step leads to a second live loop if and only if a start creates its loop while another one is alive. |
| `GoldSpreadOverlaps.StepKeepsClaims` | app/gold_spread_bot.py:271-333 | Unless a start overtakes, live loops and waiting starts together never exceed one. |
| `GoldSpreadOverlaps.StartAfterStopOvertakesExactlyWhen` | app/gold_spread_bot.py:315-333 | A start during a stop's await overtakes if and only if the stop found another waiting start, or a live loop that the handle no longer names. |
| `GoldSpreadOverlaps.OrderlyRunsHaveOneLoop` | app/gold_spread_bot.py:271-333 | When no start overtakes, there is never a second loop and no start acts on an outdated read; stops during a start and starts during a stop included. |
| `GoldSpreadOverlaps.SecondLoopExactlyWhen` | app/gold_spread_bot.py:271-333 | An accepted start can lead to two loops without any further call if and only if, at the call, a loop is alive or another start is waiting. |
| `GoldSpreadOverlaps.OrderlyExposureMatches` | app/gold_spread_bot.py:271-1598 | The exposure theorem for runs in which no start overtakes. |
| `GoldSpreadOverlaps.TwoLoopsCanDoubleTheExposure` | app/gold_spread_bot.py:442-477 | From every state of a running bot without a position that has two loops between ticks, a run in which both enter: one position is recorded, the exchange holds two. |
| `GoldSpreadOverlaps.OverlappingStartsCanDoubleTheExposure` | app/gold_spread_bot.py:271-333 | The same from a new bot by start, stop, start. |
| `GoldSpreadOverlaps.LoopComesToRest` | app/gold_spread_bot.py:1007-1598 | From every await a loop can end its handler without a fault. |
| `GoldSpreadOverlaps.TwoLoopsCanPart` | app/gold_spread_bot.py:442-477 | Two loops between ticks, with or without a position, can lead without a fault to an exposure that is not the record. |
| `GoldSpreadOverlaps.ExposureCanPartExactlyWhen` | app/gold_spread_bot.py:271-333 | Without any further call, an accepted start can lead to an exposure that is not the record, with no fault raised, if and only if, at the call, a loop is alive or another start is waiting. |
| `GoldSpreadBot.GoldSpreadBot.Start` | app/gold_spread_bot.py:271-313 | start() up to its await, or to its end in simulation mode or without a client; refused while running, accepted while a stop waits. |
| `GoldSpreadBot.GoldSpreadBot.ReadPositions` | app/gold_spread_bot.py:864-885 | A waiting start gets the exchange's positions of that moment. |
| `GoldSpreadBot.GoldSpreadBot.FinishStart` | app/gold_spread_bot.py:291-313 | A waiting start syncs on what it read, creates its loop and persists, whatever has happened meanwhile. |
| `GoldSpreadBot.GoldSpreadBot.SyncPositions` | app/gold_spread_bot.py:864-932 | A read clears, keeps or adopts a position as specified, and the fault mark follows. |
| `GoldSpreadBot.GoldSpreadBot.AdoptPosition` | app/gold_spread_bot.py:934-960 | Records the hedge found on the exchange. |
| `GoldSpreadBot.GoldSpreadBot.Stop` | app/gold_spread_bot.py:315-333 | stop() up to its await: cancels the loop its handle names, waits for one already cancelled, or ends at once; accepted while a start waits. |
| `GoldSpreadBot.GoldSpreadBot.FinishStop` | app/gold_spread_bot.py:315-333 | After the loop has ended the handle is dropped; IDLE without a position, HOLDING with one. |
| `GoldSpreadBot.GoldSpreadBot.Reset` | app/gold_spread_bot.py:335-350 | Forgets the position, whatever the exchange holds and whatever the loops are doing. |
| `GoldSpreadBot.GoldSpreadBot.UpdateConfig` | app/gold_spread_bot.py:354-400 | A change of configuration clears the signal counter. |
| `GoldSpreadBot.GoldSpreadBot.Evaluate` | app/gold_spread_bot.py:588-627 | The returned signal and counter are the confirmation step on the raw signal. |
| `GoldSpreadBot.GoldSpreadBot.CheckRunning` | app/gold_spread_bot.py:446-447 | A loop goes on or ends by the running flag of that moment. |
| `GoldSpreadBot.GoldSpreadBot.MonitorTick` | app/gold_spread_bot.py:442-479 | A tick evaluates, records the spread and dispatches. |
| `GoldSpreadBot.GoldSpreadBot.HandleEntrySignal` | app/gold_spread_bot.py:1027-1101 | Stability gate, simulated entry, or the start of a live one. |
| `GoldSpreadBot.GoldSpreadBot.EntryRefreshed` | app/gold_spread_bot.py:1108-1148 | Refreshed spread and notional guards; the orders go out. |
| `GoldSpreadBot.GoldSpreadBot.EntryOrdersReturned` | app/gold_spread_bot.py:1161-1316 | Nothing, one-sided, both, or a timeout that hides what filled; the branch follows the reports, the exchange the fills. |
| `GoldSpreadBot.GoldSpreadBot.EntryVerified` | app/gold_spread_bot.py:1241-1296 | A fill below the tolerated spread is unwound, otherwise the position is recorded. |
| `GoldSpreadBot.GoldSpreadBot.BadFillUnwound` | app/gold_spread_bot.py:1257-1277 | After both unwinds the bot is flat in its own books either way. |
| `GoldSpreadBot.GoldSpreadBot.OneSidedUnwound` | app/gold_spread_bot.py:1298-1316 | After the unwind of the one filled leg the bot is flat in its own books either way. |
| `GoldSpreadBot.GoldSpreadBot.HandleExitSignal` | app/gold_spread_bot.py:1342-1399 | Simulated exit, or the start of a live one. |
| `GoldSpreadBot.GoldSpreadBot.ExitRefreshed` | app/gold_spread_bot.py:1405-1412 | The close orders go out with or without fresh prices. |
| `GoldSpreadBot.GoldSpreadBot.ExitOrdersReturned` | app/gold_spread_bot.py:1422-1475 | Settled, repaired or swept, depending on what reports to have closed. |
| `GoldSpreadBot.GoldSpreadBot.ExitSettled` | app/gold_spread_bot.py:1477-1559 | The position is gone and persisted as gone. |
| `GoldSpreadBot.GoldSpreadBot.ExitRepaired` | app/gold_spread_bot.py:1561-1584 | Only the legs that did not report to have closed are fired again, reduce-only. |
| `GoldSpreadBot.GoldSpreadBot.SweepReturned` | app/gold_spread_bot.py:1586-1598 | After a sweep an exit clears the position regardless of the sweep's success. |
| `GoldSpreadBot.GoldSpreadBot.SweepAfterTimeout` | app/gold_spread_bot.py:818-862 | Unwinds a short found on one token and a long found on the other. |
| `GoldSpreadBot.GoldSpreadBot.HandlerFailed` | app/gold_spread_bot.py:467-477 | An exception ends the handler and leaves the state as it is. |
| `GoldSpreadBot.GoldSpreadBot.LoadState` | app/gold_spread_bot.py:1624-1669 | An unreadable position is dropped, and with it a HOLDING state. |
| `GoldSpreadBot.GoldSpreadBot.Reload` | app/gold_spread_bot.py:1624-1669 | A new process starts from the persisted copy, with no loop and no waiting call. |

## Left out

- Numbers: floats and Decimals are exact reals. Float rounding, the 28-digit Decimal context and the rounding of displayed fields are not modelled. The arbitrage snapshot is an input, already rounded as the code rounds the fields it decides on; its flag for the cheaper instrument comes from the unrounded mids, so the theorems about direction ask that flag and rounded mids do not contradict each other. The sizer's rounding to eight decimals is modelled.
- Standard deviation: the gold bot's volatility gate compares squares, because there is no square root; the two comparisons are equivalent for a positive limit.
- Levels whose price or size does not parse: every level carries two numbers.
- HTTP and WebSocket clients, reconnect timing, SSE, order signing, the web API, the user interfaces, cloud persistence, the journal, the funding monitor, telemetry, log texts and the risk manager: I/O, or easy members.
- app/engine.py and app/bot_registry.py: the TWAP state machine they drive is not part of this model.
- `is_synced` of the Nado and RISEx feeds: the code sets it unconditionally, so there is no replica guarantee to state.
- `ExtendedFeed.SyncedReplicaMirrorsExchange`: messages are numbered, deltas carry the cumulative size, and snapshots have both sides non-empty. The two lemmas named above show what happens otherwise. A delta entry of the cumulative form that does not parse raises in the code and is not modelled.
- `Jobs.LedgerStaysBalanced`: live mode, distinct instruments and a fixed job configuration; legs report their fills honestly, unwinds fill completely or not at all, and reads after an entry show a position. `Jobs.TruthfulVenueKeepsLedger` replaces the honest reports by the exact condition on the venue, and `ArbitrageEngine.LegChangeKeepsBalanceExactlyWhen` says what a change of legs does. The restart-time position sync is an input, and the job's PnL is not modelled.
- `Jobs.FeedsAreOwned`: starting and stopping a feed task is set insertion and deletion, and configuration values are not null.
- `ArbitrageEngine.ArbitrageEngine.ExecuteEntry`: the order book, minimum size and tick of each leg and the venue's replies are inputs; the liquidity, top-of-book and pre-trade guards are one predicate per leg. The ledger counts quantities, not money, so a limit bounds which levels an order admits and not the price it filled at.
- `Executor.ExecuteAggressiveLimitOrder`: waiting times are left out, and market orders are a function of three outcomes, because their result has no other state.
- `ArbitrageEngine.LegIsTrustworthyExactlyWhen`: a truthful venue got no order whose placement raised; in particular a first placement that is repeated after a connection error is taken not to have reached the venue. `Executor.LostPlacementIsHidden` says what happens when it did.
- Late order fills after a timeout or a cancellation: a sweep sees everything that will fill, and an order whose loop was cancelled counts as a fault. A sweep's read and its unwinds are one step of its loop, so with several loops nothing comes between them.
- Gold bot: a cancelled monitor loop runs no more code (a cancellation that a library call swallows is not modelled); a rebuilt bot object counts as a restart, without the old object's loops; an unwind that reports success has filled, and orders that close a leg fill completely or not at all; manual trades on the same account, realised PnL, fees and funding, and failures to write the state file.
- DNA bot: closes that are pending while a signal opens (a position being closed is not counted and may reopen), so signals and closes are handled one at a time; the pre-flight checks and the two leg orders are one flag of the signal; leg repair after a close, quantity harmonisation, a restart, which loses the cooldown map, and the quantity and prices a position is recorded with (`DnaBot.QuantityIsAffordable` is about the quantity a signal asks for). Upper-casing is ASCII.
- `DnaBot.DNABot.ClosePosition`: the position is named by its index instead of its id.
- `NadoClient.PlacedLimitFillsTheOrder`: on the sell side the lower bound is stated for bands up to 100 percent.
