# Verified model of the cross-venue arbitrage machine

A Dafny model of the decision logic of a two-venue (Kalshi and Polymarket) arbitrage
system, with proofs about it. `dafny verify dfyconfig.toml` checks everything.

Prices, sizes and money are real numbers; fees are rounded exactly where the program
rounds them. What a venue, a socket, a file system or a clock answers is an input, so a
statement holds for every answer. Code that updates state is a class or a loop, proved
against a specification function; the properties are lemmas about that function.

| files | about |
|---|---|
| `Ladders`, `VenueFees` | price ladders, greedy fills by shadow-price duality, fee curves and their rounding |
| `BasketWalk`, `BasketOptimality`, `MergedLegs`, `BasketPayoffs` | the N-legged walk: its loop, its optimality, legs that merge venues, what its baskets pay in every world |
| `ComplementaryWalk`, `AnalyzerWalk`, `Lockstep`, `OverlapWalk` | the two-legged walks, when they agree, the walk that draws levels twice |
| `Repricing`, `RoundingLosses` | repricing at averages, and what rounding costs |
| `MockExecution`, `Slippage` | simulated fills and the slippage estimate |
| `CircuitBreaking`, `KillSwitching`, `OrderTypes`, `VenueGateway`, `ExecutionEngine` | breaker, durable halt, outcome construction, the retry loop |
| `EngineProtocol`, `Hedges`, `Executor` | all interleavings of engine calls; the hedge; two legs at once and whole runs |
| `ConfirmedPnl`, `PnlTracker` | the profit ledger, receipts, replay and settlement |
| `BookMirror`, `WsClients`, `MirrorRefinement`, `BookFeed` | the live book mirror against a replay of its messages, and what wakes the monitor |
| `Monitor`, `EpisodeMonitor` | the pricing rotation and the episode ledger |

## Where the code and its promises part

Each of these is proved, by a concrete input or an exact condition and mostly by both.

- The same-outcome walk reduces a copy of a level and never writes it back, so one ask can
  be sold into several bids (`OverlapWalk.LevelSoldTwice`; `WithinBookIff`).
- A leg merged from two venues is sorted by raw price, not by price plus fee, and can hide
  a profit (`MergedLegs.MergedLegHidesProfit`; `SoloOptimalIff`, `WalkedOptimallyIff`,
  `OptimalBesideAllIff`).
- Under rounded fees the probe stops at a small unprofitable slice that the analyzer walks
  past (`AnalyzerWalk.RoundingHidesTrades`; `Lockstep.WalksRecordAlikeIff`), and at a zero Polymarket rate the analyzer
  charges its flat fallback where the probe charges nothing (`AgreeEverywhereIff`).
- The complementary walk can return a negative net after repricing, although its description
  promises none: on every pair of venues and rates but free Polymarket books
  (`RoundingLosses.NetAlwaysPositiveIff`; the loss is below the roundings by
  `Repricing.ChargedNetFloor`). The same rounding can make it stop in front of any amount
  of profit (`RoundingLosses.ChargedWalkLeavesAny`).
- Closing or resetting a breaker keeps its failure timestamps, so the next call can reopen
  it (`CircuitBreaking.RecoveryIsUndone`, `ResetIsUndone`; `ClosedGateIsACount`).
- The halt is read once per call: a call under way keeps posting after a trip
  (`EngineProtocol.InFlightCallsKeepPosting`; never one that started under the halt, by
  `HaltedCallsNeverPost`).
- A fractional imbalance unwound in full on Kalshi can trip the halt
  (`Hedges.FractionalUnwindTrips`; `KalshiUnwindTripsIff`).
- An unwind that reports more than it was for passes the residual test, whose sign is not
  checked (`Hedges.OverReportedUnwind`; `HedgeContains`, `ModestUnwindContained`).
- The per-leg notional cap is taken at the price of the buying leg alone
  (`Executor.OtherLegIsNotCapped`; `BothLegsCappedIff`).
- The scan after an ambiguous Polymarket order counts fills of other orders
  (`VenueGateway.PhantomFill`; `AmbiguousIsOwnIff`).
- A fee lookup that raises after the post (kalshi_arbitrage/mock_execution.py:99, on an
  answer that is not an object), or an unreadable price beside a matched size, makes the
  engine post a filled order again, one of unknown fate included
  (`ExecutionEngines.AmbiguousDoublesOrder`, `MatchedDoublesOrder`;
  `VenueGateway.AmbiguousRetriedIff`, `MatchedIsRetriedIff`, `FilledIsRetriedIff`).
- A receipt whose fill id is already known realizes nothing, so executor and ledger differ
  by the whole net (`PnlTracker.ExecutorAndLedgerAgree`). A receipt without a strategy
  writes that over the stored one of a known execution, which changes its profit
  (`EmptyStrategyFlipsProfit`; `StrategyKeptIff`).
- Increments that would take a Kalshi level below zero are clamped and lost, leaving the
  level too high by exactly the overdraft (`MirrorRefinement.KalshiExactIff`); a ticker
  nobody subscribed to stays served after a disconnect (`StrayTickerStaysServed`;
  `ServedAsLiveIff`).
- When two pairs share a token, a move of it wakes only the later one
  (`BookFeed.SharedTokenSleeps`; `TokenWakesIff`).
- Pairs may share a Kalshi ticker, by which the monitor tells deferred ones: an episode of a
  pair the sweep did not price is closed when another pair of its ticker was priced
  (`EpisodeMonitors.TwinTickerCloses`; `UnpricedSurvivesIff`). They then also share a key,
  and the later result of a sweep hides a better one (`OverwrittenPeak`; `AllNotedIff`,
  `Monitor.SweepNotesMostIff`).
- In paper mode pre-flight lets a trade through although execution is disabled, but the
  engine still halts both legs, so nothing is posted (`Executor.PaperPassesWhileHalted`,
  `RunArbitrage`); the comment at kalshi_arbitrage/arbitrage_executor.py:180-184 says
  otherwise. The code is followed.

## Model

| member | source | states |
|---|---|---|
| `VenueFees.FeeBracket` | venue_fees.py:93-178 | The charged fee against the quadratic curve: Kalshi rounds up by less than a cent, Polymarket by at most half a quantum (a whole one at its minimum); a positive raw fee is never charged as zero, nor a zero one as positive |
| `VenueFees.KalshiSchedule` | venue_fees.py:93-106 | In the schedule's own figures: a taker is charged the least number of whole cents that covers seven hundredths of size times price times its complement |
| `VenueFees.KalshiMakerSchedule` | venue_fees.py:109-120 | A maker, on a series that charges them, that of seven four-hundredths times the multiplier of the series |
| `VenueFees.PolymarketSchedule` | venue_fees.py:149-178 | The whole number of hundred-thousandths nearest to so many ten-thousandths of that product, ties up, one when it rounds to none, and nothing at a rate of zero or below |
| `VenueFees.EffectiveMonotone` | venue_fees.py:93-106 | Price plus raw fee increases with price on [0,1] when the rate is at most one: the fact both walks rely on when they stop at the first unprofitable unit |
| `VenueFees.RawFeeLinear` | venue_fees.py:149-178 | Price and raw fee together are the effective price times the size, so profitability of a unit does not depend on the slice |
| `VenueFees.MakerBelowTaker` | venue_fees.py:109-120 | A resting order pays at most what a taking one of the same series pays, and nothing on a taker-only series |
| `Ladders.SortCorrect` | kalshi_arbitrage/mock_execution.py:169-180 | The stable sort gives an ascending permutation of the levels |
| `Ladders.FillsTotal` | kalshi_arbitrage/mock_execution.py:169-180 | A greedy fill consumes exactly the smaller of target and depth, in positive fills |
| `Ladders.WeakDuality` | kalshi_arbitrage/mock_execution.py:169-180 | No allocation of a ladder costs less than a shadow price times its size less the ladder surplus at that price |
| `Ladders.StrongDuality` | kalshi_arbitrage/mock_execution.py:169-180 | The greedy fill attains that bound at the price of the last level it touches |
| `Ladders.GreedyIsCheapest` | kalshi_arbitrage/mock_execution.py:169-180 | Every feasible allocation of the same size, over the levels in any listing order, costs at least the greedy fill of the sorted ladder |
| `Ladders.AverageNeverFalls` | kalshi_arbitrage/risk_engine.py:200-214 | The average price of a greedy fill never falls as the size grows |
| `Ladders.TruncateOfFill` | kalshi_arbitrage/mock_execution.py:195-206 | Filling T and truncating to f <= T gives exactly the fills of filling f |
| `BasketWalk.Walk` | kalshi_arbitrage/live_probe.py:590-610 | The slices a basket walk accepts: one level of every leg each, positive size, positive margin after fees |
| `BasketWalk.StepShrinks` | kalshi_arbitrage/live_probe.py:590-610 | Every round, buying or skipping, finishes some level: the walk ends on any ladders |
| `BasketWalk.ResidueGoes` | kalshi_arbitrage/live_probe.py:606-610 | A level is finished once a billionth of a contract or less is left of it |
| `BasketWalk.AdvancePastEmpty` | kalshi_arbitrage/live_probe.py:593-597 | The index update of a round that meets an empty level is the skip of the specification |
| `BasketWalk.BuySlice` | kalshi_arbitrage/live_probe.py:606-610 | Costs, remaining sizes and indices of every leg after one slice, in terms of the remaining ladders before it |
| `BasketWalk.WalkBasket` | kalshi_arbitrage/live_probe.py:572-619 | The loop over copied ladders and indices returns the report of the walk: size, cost, net, net edge and average prices |
| `BasketWalk.NetIsSumOfMargins` | kalshi_arbitrage/live_probe.py:598-614 | Payout less leg costs less accumulated fees is the sum of the marginal nets the walk accepted, mixed-venue legs included |
| `BasketWalk.ReportIffSlice` | kalshi_arbitrage/live_probe.py:611-619 | A basket is returned exactly when some slice was accepted, with positive size and net: the two later None tests never decide on their own |
| `BasketWalk.ReportCoheres` | kalshi_arbitrage/live_probe.py:611-619 | Average price times size gives back the cost of each leg; cost, net and fees add up to the payout; net edge times cost gives back the net |
| `BasketOptimality.WalkBeatsEverySize` | kalshi_arbitrage/live_probe.py:572-619 | No basket size nets more than the walk, even with each leg bought as cheaply as its book allows |
| `BasketOptimality.WalkAttainsItsSize` | kalshi_arbitrage/live_probe.py:572-619 | Whatever fees steer it, the walk pays on every leg the cheapest price of its size |
| `BasketOptimality.GreedyOptimality` | kalshi_arbitrage/live_probe.py:572-619 | With one venue per leg, whole lots and fees before rounding, every equal-size basket with any choice of levels nets at most the walk |
| `BasketOptimality.OptimumAttained` | kalshi_arbitrage/live_probe.py:572-619 | The walk itself is such a basket, given level by level: the bound is the maximum |
| `BasketOptimality.ChargedWalkBelowOptimum` | kalshi_arbitrage/live_probe.py:598-603 | The walk on rounded fees reports at most the unrounded optimum plus half a fee quantum per leg and slice |
| `MergedLegs.OptimalWhenDearerLater` | kalshi_arbitrage/live_probe.py:572-632 | Merged or not, legs whose levels ascend after fees are walked optimally over every equal-size basket and choice of levels |
| `MergedLegs.SoloOptimalIff` | kalshi_arbitrage/live_probe.py:590-610 | One leg of any venues and sizes at one payout: no choice of levels beats the walk if and only if no live level below the payout stands behind a live one at or above it |
| `MergedLegs.WalkedOptimallyIff` | kalshi_arbitrage/live_probe.py:627-632 | One leg at every payout: if and only if the live levels of the merged ladder ascend after fees |
| `MergedLegs.OptimalBesideIff` | kalshi_arbitrage/live_probe.py:590-610 | Two legs, any ladder beside one deep Kalshi level: no equal-size basket beats the walk if and only if nothing is hidden at what that level leaves of the payout |
| `MergedLegs.OptimalBesideAllIff` | kalshi_arbitrage/live_probe.py:627-632 | At a payout of one dollar, beside every such companion: if and only if the live levels ascend after fees; a leg that does not has a companion, found by bisecting its effective price, with which the walk is beaten |
| `MergedLegs.MergedLegHidesProfit` | kalshi_arbitrage/live_probe.py:627-632 | A merged leg, charged as the code charges, on which the walk returns nothing while a slice it never looks at earns a cent |
| `BasketPayoffs.EarnsReportedIff` | kalshi_arbitrage/live_probe.py:613-619 | What was bought earns at least the reported net in exactly those worlds where one set pays the promised payout |
| `BasketPayoffs.PriceDutch` | kalshi_arbitrage/live_probe.py:745-748 | Which payout a YES-dutch and a NO-dutch are walked with |
| `BasketPayoffs.DutchProfitIff` | kalshi_arbitrage/live_probe.py:563-567 | A priced dutch earns its positive reported net exactly when at least one outcome happens (YES) or at most one does (NO) |
| `BasketPayoffs.LadderCoversIff` | kalshi_arbitrage/live_probe.py:766-773 | YES of one rung and NO of another pay at least a dollar at every underlying value if and only if the rungs are in order |
| `BasketPayoffs.SortRungsSorted` | kalshi_arbitrage/live_probe.py:804-804 | The rungs are sorted by threshold, then ask, then bid |
| `BasketPayoffs.ScreenSubject` | kalshi_arbitrage/live_probe.py:802-814 | The double loop over sorted rungs keeps a genuine violation that no pair of rungs of the subject, in any listing order, exceeds, and gives up the best so far only for a pair of these rungs that violates by more |
| `BasketPayoffs.PriceLadder` | kalshi_arbitrage/live_probe.py:843-845 | A ladder candidate is walked as two legs for a payout of one dollar |
| `BasketPayoffs.LadderProfit` | kalshi_arbitrage/live_probe.py:763-852 | A screened pair, once priced, earns its positive reported net at every underlying value |
| `ComplementaryWalk.WalkComplementary` | kalshi_arbitrage/live_probe.py:60-109 | The two-pointer loop accepts the slices of the two-leg basket walk and reports them repriced once at their averages |
| `ComplementaryWalk.PairReportCoheres` | kalshi_arbitrage/live_probe.py:101-109 | Averages times the size give back the costs of the legs; the net is the payout less both costs and one fee a leg, on its own venue at its average; edge times cost gives back the net |
| `ComplementaryWalk.NoCrossNoWalk` | kalshi_arbitrage/live_probe.py:90-91 | Two ladders whose positive levels never sum below a dollar are walked to nothing, under any fees |
| `ComplementaryWalk.UnifiedBookCannotArb` | kalshi_arbitrage/live_probe.py:126-132 | When every yes bid plus every no bid is at most one, both walks over the complemented ladders return None at all sizes and depths |
| `AnalyzerWalk.ComplementaryVolume` | kalshi_arbitrage/market_analyzer.py:1777-1870 | The loop with write-back records the specified trades up to the cap, with minimum volume, slippage and venue fees |
| `AnalyzerWalk.EstimateIsFee` | kalshi_arbitrage/market_analyzer.py:1989-2009 | Below a combined dollar the estimate equals the probe fee if and only if the leg is on Kalshi, the rate or the price makes no difference, or the flat fallback is not positive |
| `AnalyzerWalk.EstimateSchedule` | kalshi_arbitrage/market_analyzer.py:1989-2009 | The estimate in the venues' own figures, at any price up to a dollar: Kalshi's cents, Polymarket's hundred-thousandths, or the flat fallback on the notional when its rate is not positive or the price is a dollar |
| `AnalyzerWalk.SlippageIs` | kalshi_arbitrage/market_analyzer.py:1817-1823 | Nothing on real books; on synthetic ones a tenth of a percent and a hundredth of the share taken of the larger level, at most five percent |
| `AnalyzerWalk.TradeFigures` | kalshi_arbitrage/market_analyzer.py:1825-1850 | The smaller of two levels at both slipped prices: a dollar a contract less both, less the estimate of each leg on its own venue |
| `AnalyzerWalk.UnprofitableTail` | kalshi_arbitrage/market_analyzer.py:1803-1868 | After the first unit that loses before rounding the analyzer, which never stops, records nothing more |
| `AnalyzerWalk.WalksAgree` | kalshi_arbitrage/market_analyzer.py:1803-1868 | The slices of the probe are a prefix of the trades of the analyzer under charged fees and all of them under unrounded fees, at any Polymarket rate whose fallback is idle |
| `AnalyzerWalk.ProbeAndAnalyzerAgree` | kalshi_arbitrage/market_analyzer.py:1777-1870 | The same for the results of the two methods on the same two books, whichever legs the fallback cannot reach |
| `AnalyzerWalk.AgreeEverywhereIff` | kalshi_arbitrage/market_analyzer.py:1989-2009 | On all pairs of books of two venues the two methods agree if and only if no leg is a Polymarket leg at a zero rate with a positive fallback |
| `AnalyzerWalk.RoundingHidesTrades` | kalshi_arbitrage/live_probe.py:90-91 | Two books on which the prefix is strict: the probe stops at a sliver whose fee rounds to a cent, the analyzer goes on to a profitable hundred contracts |
| `Lockstep.WalkIsPrefix` | kalshi_arbitrage/live_probe.py:79-100 | Pair the two ladders off level by level, fees aside, while the prices sum below a dollar: the probe takes the leading slices of that pairing that pay, up to the first that does not |
| `Lockstep.TradesAreOnes` | kalshi_arbitrage/market_analyzer.py:1803-1868 | The analyzer records exactly the slices of the same pairing that pay, wherever they stand |
| `Lockstep.WalksRecordAlikeIff` | kalshi_arbitrage/market_analyzer.py:1803-1868 | So under any fees, charged or not, the two walks record the same trades if and only if no slice of the pairing pays behind one that does not |
| `Lockstep.ResultsAlikeIff` | kalshi_arbitrage/market_analyzer.py:1777-1870 | The same for the two methods on the same two books of any two venues, at any rate whose fallback is idle |
| `OverlapWalk.OverlappingVolume` | kalshi_arbitrage/market_analyzer.py:2011-2119 | The same-outcome loop, which reduces a copy of each level and never writes it back, records the specified crossings |
| `OverlapWalk.CrossingFigures` | kalshi_arbitrage/market_analyzer.py:2074-2101 | Asks slipped up and bids down, each side's estimate on its own venue at its own slipped price; fee-inclusive prices times the volume give back the money and the fee |
| `OverlapWalk.WithinBookIff` | kalshi_arbitrage/market_analyzer.py:2104-2110 | No level is drawn for more than it holds if and only if equal levels pair off until one that holds all the opposite depth still crossing it |
| `OverlapWalk.DrawsCross` | kalshi_arbitrage/market_analyzer.py:2058-2074 | Every pair drawn crosses after the flat rates of both venues and gives the smaller of its two levels, at least the minimum volume; a pair that does not cross ends the walk |
| `OverlapWalk.DrawnWithinDepth` | kalshi_arbitrage/market_analyzer.py:2045-2110 | Total drawn is at most the sum of both depths on any books, and at most the smaller depth when the condition above holds |
| `OverlapWalk.RecordedWithinDepth` | kalshi_arbitrage/market_analyzer.py:2045-2119 | The recorded volume is then really in both books |
| `OverlapWalk.CrossingsAreRecorded` | kalshi_arbitrage/market_analyzer.py:2087-2101 | The recorded trades are, one by one, the crossings of the recorded draws |
| `OverlapWalk.RecordedWithinLevels` | kalshi_arbitrage/market_analyzer.py:2045-2119 | Level by level: when the condition above holds no trade list, capped or filtered, takes more of a level than it holds |
| `OverlapWalk.RecordedWithinLevelsIff` | kalshi_arbitrage/market_analyzer.py:2045-2119 | And when every crossing nets something and none is cut off, only then |
| `OverlapWalk.LevelSoldTwice` | kalshi_arbitrage/market_analyzer.py:2104-2110 | One ask of a hundred sold into two bids of sixty: 120 recorded |
| `OverlapWalk.AccurateArbitrage` | kalshi_arbitrage/market_analyzer.py:1712-1755 | The summary of the recorded crossings, its division errors, and its margin between threshold and cap |
| `OverlapWalk.OpportunityIsExact` | kalshi_arbitrage/market_analyzer.py:1737-1755 | Reported profit is the difference of the two averages times the volume, whatever slippage and fees went in; it is reported exactly when it lies between the two shares of the outlay; a zero outlay divides by zero |
| `Repricing.WeightedSquares` | kalshi_arbitrage/live_probe.py:103-107 | Cauchy-Schwarz for fills: the squared notional is at most total size times the sum of size times squared price |
| `Repricing.AverageFeeIsLarger` | kalshi_arbitrage/live_probe.py:103-106 | The raw fee at the average price is at least the sum of the raw fees of the fills |
| `Repricing.RepriceSandwich` | kalshi_arbitrage/live_probe.py:86-109 | Before rounding, the reported net is positive, at least size times the last accepted unit margin, and at most the sum of the marginal nets |
| `Repricing.RepriceNeverFlatters` | kalshi_arbitrage/live_probe.py:86-109 | With charged fees the reported net exceeds the sum of the marginal nets by less than one cent per Kalshi leg and slice plus the Polymarket rounding terms |
| `Repricing.ChargedNetFloor` | kalshi_arbitrage/live_probe.py:101-109 | With charged fees the reported net is at least the worst accepted raw unit margin times the size, less one rounding per leg, and positive once that product exceeds the roundings |
| `RoundingLosses.BothAccepted` | kalshi_arbitrage/live_probe.py:79-100 | Two levels of one leg against a deep level of the other, on either side, each paying after charged fees: the walk accepts exactly these two slices |
| `RoundingLosses.KalshiBesideKalshi` | kalshi_arbitrage/live_probe.py:101-109 | Two Kalshi levels whose fees are a cent each and three cents together, beside a Kalshi leg: two accepted slices, reported at a loss |
| `RoundingLosses.KalshiBesidePolymarket` | kalshi_arbitrage/live_probe.py:101-109 | Beside a Polymarket leg at any rate up to one, on either side, some price of it gives a loss too |
| `RoundingLosses.PolymarketBesidePolymarket` | kalshi_arbitrage/live_probe.py:101-109 | And so do two Polymarket legs at any positive rate, by rounding to the quantum alone |
| `RoundingLosses.NetAlwaysPositiveIff` | kalshi_arbitrage/live_probe.py:69-73 | Over all books of two given venues at a given rate from zero to one, the complementary walk reports a positive net whenever it accepts something if and only if both legs are on Polymarket at a zero rate |
| `RoundingLosses.ChargedWalkLeavesAny` | kalshi_arbitrage/live_probe.py:590-610 | For every amount there are two ladders on which the charged walk buys nothing while the walk before rounding earns more than that amount: nothing bounds the charged walk from below |
| `MockExecution.GreedySellsDearest` | kalshi_arbitrage/mock_execution.py:182-193 | No way of selling the same size into the bids brings in more than the greedy fill |
| `MockExecution.FillFromAsks` | kalshi_arbitrage/mock_execution.py:169-180 | Fills are the greedy fill of the sorted asks; filled size is the smaller of target and depth |
| `MockExecution.FillFromBids` | kalshi_arbitrage/mock_execution.py:182-193 | The same for bids, dearest first |
| `MockExecution.TruncateFills` | kalshi_arbitrage/mock_execution.py:195-206 | The loop cuts a list of fills to a size, first fills first |
| `MockExecution.KalshiFillFees` | kalshi_arbitrage/mock_execution.py:276-293 | Kalshi fees of a leg, fill by fill: each fill rounded up by less than a cent |
| `MockExecution.PolymarketFillFees` | kalshi_arbitrage/mock_execution.py:276-293 | Polymarket fees of a leg, each fill rounded to the nearest hundred-thousandth, at least one; none on an unknown platform |
| `MockExecution.ExecuteMarket` | kalshi_arbitrage/mock_execution.py:215-327 | Which refusal or execution results; both legs end with the same filled size, the smaller of the request and the two depths, and gross and net are theirs |
| `MockExecution.GrossIsBest` | kalshi_arbitrage/mock_execution.py:248-300 | Buying and selling that size from any levels a trader picks grosses no more than the simulated trade |
| `Slippage.WalkOrderbook` | kalshi_arbitrage/risk_engine.py:187-218 | The loop returns the estimate of the specification, division by a zero best price included |
| `Slippage.WalkedIsFill` | kalshi_arbitrage/risk_engine.py:200-210 | On non-negative sizes the walk costs what the greedy fill costs and consumes the smaller of trade and depth |
| `Slippage.EstimateIsGap` | kalshi_arbitrage/risk_engine.py:187-218 | The estimate is the gap of the average price of that fill from the best price as a share of it; five percent when nothing is there to take; a division by zero on a free best level |
| `Slippage.SlippageMonotone` | kalshi_arbitrage/risk_engine.py:187-218 | On a sorted book, asks or bids, the slippage never falls as a positive trade grows; depth consumed is the smaller of trade and book |
| `CircuitBreaking.CircuitBreaker.BeforeCall` | kalshi_arbitrage/circuit_breaker.py:64-93 | The locked section of a call: rate check, recovery test, refusal, as the step that `RefusedIff` and `NoCallBeforeRecovery` are about |
| `CircuitBreaking.CircuitBreaker.CallSucceeded` | kalshi_arbitrage/circuit_breaker.py:102-113 | State after a success |
| `CircuitBreaking.CircuitBreaker.CallFailed` | kalshi_arbitrage/circuit_breaker.py:115-135 | State after a failure: append, prune, count, transition |
| `CircuitBreaking.CircuitBreaker.CheckRate` | kalshi_arbitrage/circuit_breaker.py:137-159 | The two-reading failure-rate check |
| `CircuitBreaking.CircuitBreaker.ManualReset` | kalshi_arbitrage/circuit_breaker.py:227-233 | State after an operator reset |
| `CircuitBreaking.BreakerInvariant` | kalshi_arbitrage/circuit_breaker.py:64-187 | After any interleaving of admissions, results and resets: counters never both positive, below their thresholds in CLOSED and HALF_OPEN, total is successes plus failures |
| `CircuitBreaking.EdgesOnly` | kalshi_arbitrage/circuit_breaker.py:161-187 | CLOSED to OPEN, OPEN to HALF_OPEN, HALF_OPEN to OPEN or CLOSED are the only edges apart from a reset, each stamped with the reading it was taken at |
| `CircuitBreaking.RefusedIff` | kalshi_arbitrage/circuit_breaker.py:79-93 | A call is refused exactly when the circuit was open, or its own rate check opened it, less than the recovery timeout ago; an admitted one finds it closed, half-open, or half-opened now |
| `CircuitBreaking.EngineThresholds` | kalshi_arbitrage/execution/single_leg.py:62-65 | As the engine configures it: two minutes open, opened by the fourth failure in a row, closed by the third success on trial, failures kept for five minutes |
| `CircuitBreaking.NoCallBeforeRecovery` | kalshi_arbitrage/circuit_breaker.py:161-163 | Over any run under a non-decreasing clock: after the event that opened the circuit, with no reset since, no call is let through before the recovery timeout has passed, and the first one later is |
| `CircuitBreaking.FailureOpensIff` | kalshi_arbitrage/circuit_breaker.py:115-135 | A failure opens a closed circuit exactly when it completes the threshold of failures since the last success or reset, a half-open one always, stamped with its reading; an open one keeps its stamp |
| `CircuitBreaking.TrialCloses` | kalshi_arbitrage/circuit_breaker.py:102-113 | A half-opened circuit closes at exactly the threshold of successes |
| `CircuitBreaking.CountersCount` | kalshi_arbitrage/circuit_breaker.py:95-187 | Over any run the counters are the numbers of successes, failures and openings, and the failures in a row those since the last success or reset |
| `CircuitBreaking.WindowAgrees` | kalshi_arbitrage/circuit_breaker.py:115-135 | Under a non-decreasing clock the pruned timestamps agree with the whole failure history inside the window |
| `CircuitBreaking.ClosedGateIsACount` | kalshi_arbitrage/circuit_breaker.py:137-159 | The rate is never below one: a call passes a closed circuit only with fewer than the threshold of failures in the window, and exactly then when both readings coincide |
| `CircuitBreaking.RecoveryIsUndone` | kalshi_arbitrage/circuit_breaker.py:165-171 | Closing clears no timestamps: a circuit recovered by its successes refuses the next call while the old burst is in the window |
| `CircuitBreaking.ResetIsUndone` | kalshi_arbitrage/circuit_breaker.py:227-233 | An operator reset is undone the same way |
| `OrderTypes.RoundHalfEvenNear` | kalshi_arbitrage/execution/venue_gateway.py:218-232 | Rounding half to even moves a number by at most one half, and from a tie to an even number |
| `OrderTypes.NothingReported` | kalshi_arbitrage/execution/order_types.py:111-125 | A failed and a halted outcome report no fill, price, fee or id |
| `VenueGateway.KalshiWellFormed` | kalshi_arbitrage/execution/venue_gateway.py:74-162 | Every Kalshi placement failed exactly when it filled nothing, given non-negative reported counts |
| `VenueGateway.KalshiReports` | kalshi_arbitrage/execution/venue_gateway.py:135-162 | A terminal order is reported with the venue's count, its average in cents or else the limit, the cents its fill owes, and as filled from the whole contracts of the order on |
| `VenueGateway.KalshiRefusals` | kalshi_arbitrage/execution/venue_gateway.py:74-133 | Everything else fills nothing and costs nothing, and only an order that may have filled unseen is not to be posted again |
| `VenueGateway.KalshiCentsNearest` | kalshi_arbitrage/execution/venue_gateway.py:85-85 | The limit goes out as the nearest whole cent, or the end of the tradeable range beyond it |
| `VenueGateway.FindRecentFill` | kalshi_arbitrage/execution/venue_gateway.py:322-368 | The scan sums the matching recent trades; the average times the size is their notional |
| `VenueGateway.PolymarketPlace` | kalshi_arbitrage/execution/venue_gateway.py:204-285 | The reply to a placement for every kind of answer and of fee lookup: it raises on an unreadable price beside a matched size, and, once something filled, when the lookup raises |
| `VenueGateway.PmWellFormed` | kalshi_arbitrage/execution/venue_gateway.py:204-320 | Every Polymarket placement of a positive size that returns failed exactly when it filled nothing |
| `VenueGateway.AcceptedReports` | kalshi_arbitrage/execution/venue_gateway.py:370-423 | Shares and money of an accepted order: a matched size at its price or the limit; amounts taken and made, as shares against dollars by the side of the order; the dollars sent on a bare success of a marketable buy; the whole order on any other; else nothing |
| `VenueGateway.AcceptedFees` | kalshi_arbitrage/execution/venue_gateway.py:425-429 | Its fee is what the looked-up rate owes on those shares at that price, to the nearest hundred-thousandth |
| `VenueGateway.FoundReports` | kalshi_arbitrage/execution/venue_gateway.py:305-316 | A fill found for an order of unknown fate is reported at its own size, money and fee |
| `VenueGateway.ScanCounts` | kalshi_arbitrage/execution/venue_gateway.py:335-358 | The scan counts exactly the trades of the token, not of the other side, not older than the cutoff, with a positive size and a price |
| `VenueGateway.DollarsToTheCent` | kalshi_arbitrage/execution/venue_gateway.py:229-229 | The dollars sent for a marketable buy are its notional to the nearest cent |
| `VenueGateway.AmbiguousRetriedIff` | kalshi_arbitrage/execution/venue_gateway.py:291-320 | An order of unknown fate is offered for another post, by a raise, if and only if the scan found a fill for it and the fee lookup raises |
| `VenueGateway.AmbiguousIsOwnIff` | kalshi_arbitrage/execution/venue_gateway.py:322-368 | With every recent trade marked as of this order or not: unless a fill was found and the fee lookup raises, the reported fill is never less than the own fill, and equals it if and only if no other order traded that token on that side in the window |
| `VenueGateway.PhantomFill` | kalshi_arbitrage/execution/venue_gateway.py:291-320 | An order that never landed, with one earlier trade of its size, is reported filled in full |
| `VenueGateway.ModestReport` | kalshi_arbitrage/execution/venue_gateway.py:370-423 | An answer that claims no more than the order is reported as at most half a share more, if it is reported at all |
| `VenueGateway.CentRoundingDust` | kalshi_arbitrage/execution/venue_gateway.py:218-232 | On a bare success whose fee lookup answers, the shares derived from cents differ from the size by at most half, and times the price give back the dollars sent |
| `KillSwitching.KillSwitch.IsActive` | kalshi_arbitrage/execution/kill_switch.py:51-59 | Active and the reason given, from configuration, flag and sentinel |
| `KillSwitching.KillSwitch.TripNow` | kalshi_arbitrage/execution/kill_switch.py:61-72 | A trip halts at once whether or not the sentinel could be written |
| `KillSwitching.KillSwitch.ResetNow` | kalshi_arbitrage/execution/kill_switch.py:74-84 | A reset clears the flag whether or not the sentinel could be removed |
| `KillSwitching.KillSwitch.Apply` | kalshi_arbitrage/execution/kill_switch.py:51-84 | What an operator, a restart, another process or the file system does to the halt from outside, the sentinel placed or removed included |
| `KillSwitching.LiftsIff` | kalshi_arbitrage/execution/kill_switch.py:51-84 | Which events take a halt that is up down: exactly a reset that leaves no file, a restart that finds none, and the removal of the file where no trip is remembered |
| `KillSwitching.SentinelSurvives` | kalshi_arbitrage/execution/kill_switch.py:51-84 | With the sentinel on disk, no sequence of trips, restarts and configuration changes without a reset or a removal of the file lifts the halt |
| `KillSwitching.TripDurableIff` | kalshi_arbitrage/execution/kill_switch.py:61-72 | A trip survives a restart exactly when the file exists after it or execution is disabled |
| `KillSwitching.ResetLiftsIff` | kalshi_arbitrage/execution/kill_switch.py:74-84 | A reset lifts the halt exactly when execution is enabled and no file stays behind |
| `ExecutionEngines.ExecutionEngine.Execute` | kalshi_arbitrage/execution/single_leg.py:73-151 | Under a halt an opening order posts nothing; a risk-reducing one always posts; one client id, each placement but the last a retryable failure, and a call that ends in one used up its attempts; the outcome is that of the last placement and reports exactly the total filled; every reply is what the gateway of the venue makes of some answer, or a raise; the breaker of the venue went through the gates and replies of these placements, in order and on an advancing clock, and no other breaker moved; the halt is only ever tripped |
| `ExecutionEngines.ExecutionEngine.TryOnce` | kalshi_arbitrage/execution/single_leg.py:93-135 | One pass of the retry loop: it posts exactly when the gate leaves the circuit not open, and its reply is then counted; a refusal trips the halt with the reason of its venue; risk reduction leaves the breaker alone |
| `ExecutionEngines.BreakerCountsReplies` | kalshi_arbitrage/execution/single_leg.py:97-103 | The breaker of an opening order gains one success for each placement that came back not failed and one failure for each that failed or raised, and its failures in a row are those of the replies |
| `ExecutionEngines.AmbiguousIsLast` | kalshi_arbitrage/execution/single_leg.py:93-151 | A Polymarket answer that leaves the order unknown is the last placement of its call, unless the scan found a fill and the fee lookup raised |
| `ExecutionEngines.AmbiguousDoublesOrder` | kalshi_arbitrage/execution/single_leg.py:122-148 | In that case one call posts the order twice, the first of them landed and found, and reports the second fill alone |
| `ExecutionEngines.MatchedIsRetriedIff` | kalshi_arbitrage/execution/venue_gateway.py:384-393 | An accepted Polymarket order that reports a matched size is offered for another post if and only if the price beside it cannot be read or the fee lookup raises |
| `ExecutionEngines.FilledIsRetriedIff` | kalshi_arbitrage/execution/venue_gateway.py:425-429 | However its fill was read, an accepted order that filled something is offered for another post if and only if the fee lookup raises |
| `ExecutionEngines.MatchedDoublesOrder` | kalshi_arbitrage/execution/single_leg.py:122-148 | On either failure one call posts the matched order twice and reports the second fill alone |
| `ExecutionEngines.OnlyLastFills` | kalshi_arbitrage/execution/single_leg.py:106-151 | What a call filled is what its last placement filled |
| `ExecutionEngines.PostRecorded` | kalshi_arbitrage/execution/single_leg.py:120-151 | One more reply keeps placements orderly and the reported fill equal to the sum of all replies |
| `EngineProtocol.RunSound` | kalshi_arbitrage/execution/single_leg.py:73-151 | From any sound state, every interleaving of calls, answers, cancellations, trips and resets keeps: breakers sound, placements bounded, every finished call reports what its placements filled |
| `EngineProtocol.EveryReachableState` | kalshi_arbitrage/execution/single_leg.py:73-151 | The same from the initial state of a process: every reachable state is sound |
| `EngineProtocol.BreakersCountReplies` | kalshi_arbitrage/execution/single_leg.py:97-119 | In every reachable state of any interleaving, the successes and failures of each breaker are those of all replies to opening orders on its venue |
| `EngineProtocol.StartEnds` | kalshi_arbitrage/execution/single_leg.py:73-92 | A call starts ready unless the halt stops it or its venue has no gateway |
| `EngineProtocol.GatewayAnswersArePossible` | kalshi_arbitrage/execution/single_leg.py:97-103 | Every reply a gateway makes of an answer is one the interleavings allow |
| `EngineProtocol.AttemptEnds` | kalshi_arbitrage/execution/single_leg.py:106-121 | An attempt of an opening call posts exactly when its gate leaves the circuit not open; otherwise it halts everything and ends the call halted |
| `EngineProtocol.AnswerEnds` | kalshi_arbitrage/execution/single_leg.py:122-151 | A call goes on exactly after a reply that may be retried with attempts left, and otherwise ends with that reply |
| `EngineProtocol.HaltedCallsNeverPost` | kalshi_arbitrage/execution/single_leg.py:73-92 | An opening call that starts while the halt is up never reaches a gateway, not even after a later reset |
| `EngineProtocol.OnlyOperatorsLift` | kalshi_arbitrage/execution/single_leg.py:73-151 | No step of any call takes a halt down: one that is up is down after an event if and only if the event is one of those that lift it |
| `EngineProtocol.RiskReducingPasses` | kalshi_arbitrage/execution/single_leg.py:73-119 | A risk-reducing call reaches its gateway under any halt and any breaker state, and moves neither |
| `EngineProtocol.InFlightCallsKeepPosting` | kalshi_arbitrage/execution/single_leg.py:73-119 | A run in which a call already started posts again after a trip: the halt is read once per call |
| `EngineProtocol.CallsPersist` | kalshi_arbitrage/execution/single_leg.py:73-91 | No step of any other call changes the request, client id or halt reading of a call |
| `Hedges.HedgeContains` | kalshi_arbitrage/arbitrage_executor.py:364-419 | A hedge leaves an exposure small in magnitude (at most 1e-6, under one contract, or at most one percent of the imbalance), or trips the halt, or else its unwind reported a contract and a percent more than it was for: the three cases are exact |
| `Hedges.UnwindReverses` | kalshi_arbitrage/arbitrage_executor.py:421-440 | The unwind takes the other side of the same instrument for exactly the excess, bypasses the halt, and gives up exactly two cents of the fill price, or of the limit when there is none, within the tradeable band |
| `Hedges.UnwindCrossesInCents` | kalshi_arbitrage/execution/venue_gateway.py:85-85 | In the whole cents sent to Kalshi the unwind gives up between a cent and a half and two and a half of the fill price, or stands at an end of the band |
| `Hedges.KalshiUnwindTripsIff` | kalshi_arbitrage/arbitrage_executor.py:396-419 | The unwind order of an imbalance on Kalshi, filled in full, trips the halt if and only if 99 times the fraction of the imbalance exceeds its whole part; never from 99 contracts on |
| `Hedges.FractionalUnwindTrips` | kalshi_arbitrage/arbitrage_executor.py:396-419 | Five contracts against 2.3 shares: the unwind order fills in full and the halt is tripped |
| `Hedges.FullPairIsDust` | kalshi_arbitrage/arbitrage_executor.py:375-394 | A pair of n contracts filled in full on both venues, whose fee lookup answers, is never unwound and never trips the halt; if the lookup raises the second leg is not reported at all |
| `Hedges.ModestUnwindContained` | kalshi_arbitrage/arbitrage_executor.py:404-408 | An answer of either venue that claims no more than the unwind order never makes it over-report |
| `Hedges.OverReportedUnwind` | kalshi_arbitrage/arbitrage_executor.py:404-408 | Five shares unwound with an ambiguous answer after five hundred sold earlier: left 495 short, neither small nor halted |
| `Executor.CappedVolumeIsLargest` | kalshi_arbitrage/arbitrage_executor.py:455-475 | The largest whole number of contracts within the depth and, at the price of the buying leg, within the position limit and in live mode the notional one, up to a billionth before the floor |
| `Executor.BothLegsCappedIff` | kalshi_arbitrage/arbitrage_executor.py:462-475 | The cap config.py calls per-leg holds for the other leg of a complementary pair, at every depth and cap, if and only if that leg is not dearer than the buying one |
| `Executor.OtherLegIsNotCapped` | kalshi_arbitrage/arbitrage_executor.py:462-475 | A complementary pair under a five-dollar cap whose second leg costs over forty: the cap is taken at the price of one leg |
| `Executor.LegsMatch` | kalshi_arbitrage/arbitrage_executor.py:286-338 | Legs exist exactly when a whole contract fits: one opening order on each venue, at the price and instrument of that venue, for the same size; the second is a buy exactly for complementary pairs |
| `Executor.PreFlightPassesIff` | kalshi_arbitrage/arbitrage_executor.py:179-221 | A trade passes exactly when no halt is up, or only a disabled execution in paper mode, and every gate is open: day's loss, minimum profit, risk gate and, in live mode, approval, concurrency and balance; a refusal names a gate that is shut, with those before it open |
| `Executor.PaperPassesWhileHalted` | kalshi_arbitrage/arbitrage_executor.py:179-221 | With execution disabled pre-flight passes exactly in paper mode with the other gates open, while the halt the engine reads is active |
| `Executor.TradeEnds` | kalshi_arbitrage/arbitrage_executor.py:364-419 | A hedged trade is contained, tripped the halt, or over-reported its unwind, and over-reports exactly when it is neither of the others |
| `Executor.WhatTradesReport` | kalshi_arbitrage/arbitrage_executor.py:156-174 | A trade is executed exactly when both legs filled, for the smaller of the two, at the two averages, gaining a dollar a pair less both or the difference of the two, less both fees |
| `Executor.ArbitrageExecutor.Leg` | kalshi_arbitrage/arbitrage_executor.py:341-362 | One leg with its placements: reported as its engine call ended or, cancelled by the timeout, as nothing; nothing under a halt, and it posts or halts otherwise |
| `Executor.ArbitrageExecutor.BothLegs` | kalshi_arbitrage/arbitrage_executor.py:131-154 | Two legs in either order, the later on an early or late reading of the halt; the logs gain exactly their placements, none when the halt was up at the start, and some when it was not, unless a breaker halts |
| `Executor.ArbitrageExecutor.Hedge` | kalshi_arbitrage/arbitrage_executor.py:364-419 | An imbalance of a contract or more, and no other, is unwound by the reverse of the leg that filled more, for the excess, under any halt; the residual is what the unwind did not report, and trips the halt above the tolerance; an over-reported unwind is in a gateway log |
| `Executor.ArbitrageExecutor.RunArbitrage` | kalshi_arbitrage/arbitrage_executor.py:106-185 | The legs go out exactly when no halt is in the way, every gate is open after the day's roll-over and a whole contract fits; otherwise nothing moves. What went out, in which logs, and the trade and daily loss reported are those of the two leg calls and the unwind; a finished trade is contained, or the halt is up, or a gateway over-reported its unwind |
| `Executor.ArbitrageExecutor.RunAll` | kalshi_arbitrage/arbitrage_executor.py:96-185 | A run of opportunities, each with its own day and gate answers, among trips, resets, restarts, sentinel files coming and going, and configuration changes: one record per step, each of the kind RunArbitrage and the halt allow |
| `Executor.OnlyClearedTradesPost` | kalshi_arbitrage/arbitrage_executor.py:179-221 | Over any such run, whatever posted or finished was a trade with no halt up and every gate open: loss below the limit, enough profit, no risk objection and, in live mode, approved, within the concurrency limit and not short of balance |
| `Executor.ClearedTradesGoOut` | kalshi_arbitrage/arbitrage_executor.py:112-138 | And every such trade places an order, unless a breaker halts everything |
| `Executor.LossLimitHolds` | kalshi_arbitrage/arbitrage_executor.py:186-189 | Once the loss of a day has reached the limit nothing more is placed that day and the loss stays as it is, until a restart |
| `Executor.LossIsNetOfDay` | kalshi_arbitrage/arbitrage_executor.py:272-276 | From the first trade of a day past the halt on, the running loss is what the executed trades of that day netted, turned round |
| `Executor.HaltedTradesPostNothing` | kalshi_arbitrage/arbitrage_executor.py:179-185 | Over any such run, once the halt is up no later trade posts or finishes until an event that lifts it, as `LiftsIff` lists them |
| `Executor.EveryTradeContained` | kalshi_arbitrage/arbitrage_executor.py:364-419 | Over any such run in which no gateway over-reports an unwind, every trade is contained or the halt was up when it finished |
| `ConfirmedPnl.PnlIgnoresOrder` | kalshi_arbitrage/confirmed_pnl.py:53-118 | Realized profit is the same for every order of the fills |
| `ConfirmedPnl.PnlIgnoresSplits` | kalshi_arbitrage/confirmed_pnl.py:53-118 | And when one fill is reported as two at the same price |
| `ConfirmedPnl.ComplementaryPaysEitherWay` | kalshi_arbitrage/confirmed_pnl.py:88-118 | A balanced complementary pair realizes payout less cost and fees in both worlds |
| `ConfirmedPnl.PnlIsPerContract` | kalshi_arbitrage/confirmed_pnl.py:84-118 | The profit of legs of any sizes is that of one contract, at the average cost or proceeds of each leg after its fees, times the matched size; nothing when either leg is empty |
| `ConfirmedPnl.RunKeepsRegistry` | kalshi_arbitrage/confirmed_pnl.py:130-249 | Every operation keeps the id set exactly the set of stored fill ids, each stored once |
| `ConfirmedPnl.RegistryAlwaysExact` | kalshi_arbitrage/confirmed_pnl.py:124-249 | So in every state reachable from an empty tracker |
| `ConfirmedPnl.RerecordingIsIdle` | kalshi_arbitrage/confirmed_pnl.py:156-213 | Recording a known id again, on any execution and leg, after any operations in between, changes nothing |
| `ConfirmedPnl.RecordFillIs` | kalshi_arbitrage/confirmed_pnl.py:156-213 | A fill is stored exactly on a known execution, with a positive size and an id not seen before, the venue's own or else a generated one; as given but for negative prices and fees; confirming its own leg only when asked to |
| `ConfirmedPnl.ReconcileIs` | kalshi_arbitrage/reconcile.py:224-257 | A reconciled fill takes the venue's fee, if there is one, and is no longer simulated; id, price and size stay |
| `ConfirmedPnl.BucketsDisjoint` | kalshi_arbitrage/confirmed_pnl.py:405-422 | No execution is both locked in and realized |
| `ConfirmedPnl.BucketsHold` | kalshi_arbitrage/confirmed_pnl.py:405-422 | Each bucket holds exactly the executions with both legs confirmed and, unless simulations count, no simulated fill: the settled ones, from a time on if one is given, or the others |
| `ConfirmedPnl.SettlementConserves` | kalshi_arbitrage/confirmed_pnl.py:233-249 | Settling moves exactly the realized profit of a locked-in execution from one total to the other, and nothing otherwise |
| `ConfirmedPnl.SettleIs` | kalshi_arbitrage/confirmed_pnl.py:233-249 | A settlement that asks for confirmation marks exactly an execution with both legs confirmed |
| `ConfirmedPnl.SettlingConserves` | kalshi_arbitrage/confirmed_pnl.py:233-249 | Any number of settlements in any order keeps the sum of the two totals |
| `PnlTracker.ConfirmedPnLTracker.RegisterExecution` | kalshi_arbitrage/confirmed_pnl.py:130-154 | The tracker after a registration is the ledger operation |
| `PnlTracker.ConfirmedPnLTracker.RecordFillOn` | kalshi_arbitrage/confirmed_pnl.py:156-213 | After a fill, with its status: unknown execution, known id, empty size or stored |
| `PnlTracker.ConfirmedPnLTracker.MarkLegConfirmed` | kalshi_arbitrage/confirmed_pnl.py:215-231 | After a leg confirmation; an unknown execution raises and changes nothing |
| `PnlTracker.ConfirmedPnLTracker.MarkSettled` | kalshi_arbitrage/confirmed_pnl.py:233-249 | After a settlement: refused without confirmed legs, raised for an unknown execution |
| `PnlTracker.ConfirmedPnLTracker.RecordExecutionReceipt` | kalshi_arbitrage/confirmed_pnl.py:251-339 | Registration, both fills, confirmations and settlement of one receipt, none of which can raise for an unknown execution; a strategy entry of the metadata, empty or not, is written over the stored one |
| `PnlTracker.StrategyKeptIff` | kalshi_arbitrage/confirmed_pnl.py:130-154 | A receipt for a known execution leaves its accounting as it was if and only if it brings no strategy entry or an equal one |
| `PnlTracker.EmptyStrategyFlipsProfit` | kalshi_arbitrage/market_analyzer.py:1247-1252 | An opportunity without a strategy, booked for a known complementary execution with both fills known, moves its realized profit from ten cents to thirty |
| `PnlTracker.BookedKeepsRegistry` | kalshi_arbitrage/confirmed_pnl.py:251-339 | A receipt keeps the registry exact |
| `PnlTracker.BookedExecution` | kalshi_arbitrage/confirmed_pnl.py:251-339 | The fills, confirmation and settlement times a receipt stores, including the leg dropped when its id is known or both legs share one |
| `PnlTracker.ExecutorAndLedgerAgree` | kalshi_arbitrage/arbitrage_executor.py:477-494 | The net profit of a result, of either strategy type, equals the realized profit of its receipt when both fill ids are new; otherwise the receipt realizes nothing |
| `PnlTracker.ReceiptBucket` | kalshi_arbitrage/market_analyzer.py:1278-1284 | A receipt not marked settled is locked in, one marked settled is realized |
| `PnlTracker.TrackerFromCapture` | kalshi_arbitrage/reconcile.py:35-84 | The replayed tracker holds the receipts of the exchange rows with positive volume, in order |
| `PnlTracker.ReplayKeepsRegistry` | kalshi_arbitrage/reconcile.py:35-84 | Replay keeps the registry exact |
| `PnlTracker.ReplayedIsExact` | kalshi_arbitrage/reconcile.py:35-84 | A tracker rebuilt from any capture has an exact registry |
| `PnlTracker.ReplayLocksIn` | kalshi_arbitrage/reconcile.py:35-84 | A tracker rebuilt from rows with ids of their own has locked in exactly what the exchange rows earned, by their own strategy, prices and fees |
| `PnlTracker.ReconcileSettlements` | kalshi_arbitrage/reconcile.py:162-171 | The pass settles what is due and returns how many executions became settled |
| `PnlTracker.SettleOne` | kalshi_arbitrage/reconcile.py:126-134 | One execution is settled exactly when it is unsettled, confirmed and resolved on both venues; no other changes |
| `PnlTracker.ReconcileConserves` | kalshi_arbitrage/reconcile.py:162-171 | A settlement pass keeps the sum of locked-in and realized profit |
| `PnlTracker.ReconcileSettlesExactly` | kalshi_arbitrage/reconcile.py:126-134 | Each execution ends settled now if it was listed and due, and as it was otherwise |
| `BookMirror.SortedLevels` | kalshi_arbitrage/ws_books.py:60-65 | Exactly the positive levels of a book, strictly ascending |
| `BookMirror.LadderUnique` | kalshi_arbitrage/ws_books.py:60-65 | A book has only one such ladder |
| `BookMirror.AsksExact` | kalshi_arbitrage/ws_books.py:219-227 | A published ask is the complement of a positive opposite bid, with its size, and every such bid is there |
| `BookMirror.Mirror.SetAsks` | kalshi_arbitrage/ws_books.py:60-65 | Ladder, stamp and dirty flag of one key |
| `BookMirror.Mirror.Drop` | kalshi_arbitrage/ws_books.py:67-70 | Ladder and stamp go, the dirty set stays |
| `BookMirror.Mirror.Clear` | kalshi_arbitrage/ws_books.py:72-75 | All ladders and stamps go, the dirty set stays |
| `BookMirror.Mirror.PopDirty` | kalshi_arbitrage/ws_books.py:85-89 | Returns the dirty keys and starts over |
| `BookMirror.Mirror.GetAsks` | kalshi_arbitrage/ws_books.py:77-83 | The held ladder exactly when present and no older than the limit |
| `WsClients.PMWsClient.HandleMessage` | kalshi_arbitrage/ws_books.py:117-152 | Books and mirror after a snapshot or a list of changes |
| `WsClients.PMWsClient.Disconnected` | kalshi_arbitrage/ws_books.py:185-187 | A dropped connection clears the whole shared mirror |
| `WsClients.KalshiWsClient.PublishTicker` | kalshi_arbitrage/ws_books.py:219-227 | Both ask ladders of a ticker |
| `WsClients.KalshiWsClient.HandleMessage` | kalshi_arbitrage/ws_books.py:229-250 | Books and mirror after a snapshot or an increment |
| `WsClients.KalshiWsClient.Disconnected` | kalshi_arbitrage/ws_books.py:287-291 | A dropped connection clears the books and the ladders of the subscribed tickers only |
| `MirrorRefinement.PmRefines` | kalshi_arbitrage/ws_books.py:117-152 | After any messages of both clients, a token has a ladder exactly when its last snapshot was not invalidated, and its book shows the last absolute size at every price |
| `MirrorRefinement.PmLadderIsReplay` | kalshi_arbitrage/ws_books.py:60-83 | So the served ladder holds exactly the positive sizes a full replay gives |
| `MirrorRefinement.KalshiBooksRefine` | kalshi_arbitrage/ws_books.py:229-250 | Every level equals the last snapshot plus all later increments, raised by how far that total has been below zero |
| `MirrorRefinement.KalshiShelfRefines` | kalshi_arbitrage/ws_books.py:219-227 | Both ladders of a subscribed ticker are held exactly when a message came since the last disconnect of either client, and are the complements of the books |
| `MirrorRefinement.KalshiLadderIsReplay` | kalshi_arbitrage/ws_books.py:219-250 | The served ladder in terms of the message history alone |
| `MirrorRefinement.SnapshotInCents` | kalshi_arbitrage/ws_books.py:219-238 | Right after a snapshot, the ask served at a hundred less so many cents is the positive size it lists last for a bid of so many on the other side |
| `MirrorRefinement.WholeCentsOnly` | kalshi_arbitrage/ws_books.py:219-250 | And after any messages no ask is ever served between cents |
| `MirrorRefinement.KalshiExactIff` | kalshi_arbitrage/ws_books.py:244-249 | The level is the true total exactly when no increment since the snapshot left it negative |
| `MirrorRefinement.ServedAsLiveIff` | kalshi_arbitrage/ws_books.py:287-291 | For any ticker the mirror serves what it should if and only if the ticker is subscribed or no disconnect left its ladders behind |
| `MirrorRefinement.StrayTickerStaysServed` | kalshi_arbitrage/ws_books.py:287-291 | A message about a ticker nobody subscribed to leaves a ladder that outlives the disconnect |
| `BookFeed.WsBookFeed.constructor` | kalshi_arbitrage/ws_books.py:310-326 | Token map and ticker list of the watched pairs, over one empty mirror |
| `BookFeed.WsBookFeed.Receive` | kalshi_arbitrage/ws_books.py:117-152 | Every message steps the shared state of both clients |
| `BookFeed.WsBookFeed.DirtyPairs` | kalshi_arbitrage/ws_books.py:352-360 | Exactly the pairs of the keys set since the last call |
| `BookFeed.DirtyIsExact` | kalshi_arbitrage/ws_books.py:60-89 | Over any messages and drains a key is flagged if and only if some message set its ladder since the last drain, whatever became of the ladder |
| `BookFeed.RunFlags` | kalshi_arbitrage/ws_books.py:60-89 | In particular every ladder that is new or changed since the last drain is flagged |
| `BookFeed.OnlyMessagesFlag` | kalshi_arbitrage/ws_books.py:60-89 | And nothing is flagged that no message named |
| `BookFeed.TokenMapIsLast` | kalshi_arbitrage/ws_books.py:315-324 | A token belongs to the last pair that lists it |
| `BookFeed.ClobIdsAre` | kalshi_arbitrage/ws_books.py:315-324 | The tokens the feed subscribes to are the non-empty ids without the us: prefix |
| `BookFeed.SetsWake` | kalshi_arbitrage/ws_books.py:352-360 | Every ladder set since the last drain wakes the pair of its ticker or the last pair listing its token |
| `BookFeed.MovesWake` | kalshi_arbitrage/ws_books.py:352-360 | So does every ladder that is new or changed |
| `BookFeed.TokenWakesIff` | kalshi_arbitrage/ws_books.py:315-324 | A move of a token wakes a pair that lists it if and only if the last pair that lists it has the same ticker |
| `BookFeed.SharedTokenSleeps` | kalshi_arbitrage/ws_books.py:315-324 | With two pairs on one token, a move of that token leaves the earlier pair asleep |
| `Monitor.RoundPricesAll` | tools/monitor_arb.py:286-296 | With n > 15 pairs fixed, any ceil(n/15) consecutive sweeps price the pair at every position, from any offset and whatever tickers pairs share |
| `Monitor.RoundIsTight` | tools/monitor_arb.py:286-296 | No fewer will do: the pair just behind the offset is deferred until the last of them |
| `Monitor.DeferredIff` | tools/monitor_arb.py:296-296 | A ticker is deferred if and only if some pair has it and no priced pair does |
| `Monitor.LiveIsLast` | tools/monitor_arb.py:298-308 | Of the results a sweep accepts for one key, only the last is kept |
| `Monitor.SweepNotesMostIff` | tools/monitor_arb.py:298-308 | So what it notes of a key is the maximum net it accepted for it if and only if the last is as good as every earlier one |
| `Monitor.RowsAreEpisodes` | tools/monitor_arb.py:310-348 | Whatever was observed of a key, its flushed rows are its episodes in order, each with the maximum net and edge, the number of sightings and the duration |
| `Monitor.OneRowPerOpening` | tools/monitor_arb.py:310-348 | As many rows after the flush as episodes opened |
| `Monitor.SpanStaysOpen` | tools/monitor_arb.py:310-333 | From its opening until a sweep that priced its ticker and missed the key, an episode stays open under the ticker of its first sighting, summarising all sightings so far |
| `EpisodeMonitors.EpisodeMonitor.HandleSweep` | tools/monitor_arb.py:286-348 | One sweep, for all keys at once: last accepted result noted, missing and priced keys closed, offset advanced, totals kept |
| `EpisodeMonitors.EpisodeMonitor.HandleTick` | tools/monitor_arb.py:398-430 | A drain of the live feed opens and raises episodes, and closes none |
| `EpisodeMonitors.EpisodeMonitor.CloseGone` | tools/monitor_arb.py:331-348 | Which episodes a sweep closes, and their rows |
| `EpisodeMonitors.EpisodeMonitor.Flush` | tools/monitor_arb.py:432-453 | Open episodes get their rows; the headline is the sum of all peaks; one row per opening |
| `EpisodeMonitors.UnpricedSurvivesIff` | tools/monitor_arb.py:283-296 | The episode of a pair a sweep did not price survives being missing from it if and only if no priced pair has its ticker |
| `EpisodeMonitors.TwinTickerCloses` | tools/monitor_arb.py:283-333 | Sixteen pairs, the first and the last of one ticker: the last is not priced and its episode is closed all the same |
| `EpisodeMonitors.AllNotedIff` | tools/monitor_arb.py:298-325 | Over a whole run the loop notes everything it accepted for a key if and only if no sweep accepted two results for it |
| `EpisodeMonitors.OverwrittenPeak` | tools/monitor_arb.py:298-325 | Two accepted results of one key in one sweep, the better one first: the row carries the lesser net |
| `EpisodeMonitors.Run` | tools/monitor_arb.py:275-454 | A whole run: for every key the ledger is exactly the episodes of what was observed |
| `EpisodeMonitors.VanishedGapCloses` | tools/monitor_arb.py:286-333 | An episode whose gap is no longer found is closed within one round of sweeps, rate-limited or not |

## Left out

- IEEE floating point: all arithmetic is on reals. The residue test at 1e-9 is kept as
  written and is exact once sizes come in lots larger than it, which the optimality and
  agreement results assume.
- Optimality under rounded fees, where the bound of `ChargedWalkBelowOptimum` holds and, by
  `ChargedWalkLeavesAny`, none from below.
- BasketOptimality.GreedyOptimality: one venue per leg (merged legs are in `MergedLegs`), prices in [0,1] and sizes on a common lot grid, which the residue test needs.
- OverlapWalk.RecordedWithinLevels: for trades the net-profit filter or the cap has thinned, the condition is sufficient; it is exact when neither removes any (`RecordedWithinLevelsIff`).
- MirrorRefinement.KalshiLadderIsReplay: for subscribed tickers; `ServedAsLiveIff` says exactly when an unsubscribed one is served rightly.
- Monitor.RoundPricesAll: the watch list is fixed over the round; a refresh may change it.
- Connection loops, HTTP, signing, vendor SDKs, logging, JSONL and the dashboard: input and
  output only.
- Title matching, verifiers, and the exhaustiveness expressions: `Honoured` worlds and
  ordered rungs stand for what they decide.
- Top-of-book dutch screens: sums against a threshold; only the ladder screen is modelled.
- Nearest-miss tracking, completeness statistics, cache ages and synthetic books.
- Resting GTC and GTD Polymarket orders and their polling; the executor uses FOK and FAK.
- A leg cancelled by the execution timeout counts only as reported. The two legs of a trade
  share only the halt, so the executor runs them in either order with an early or a late
  reading of it; finer interleavings, of any calls, are in `EngineProtocol`.
- A run is sequential from trade to trade; operator events fall between trades there, and
  anywhere in `EngineProtocol`.
- Which error texts count as a post of unknown fate: the kind of answer is an input.
- Simulated gateways and the live-trading lock: the lock is an input that arms a gateway.
- The limit on concurrent live positions as an invariant: check and increment are separated
  by an await.
- The reading a failure is pruned by also stamps the opening it causes, where the code reads
  the clock again.
- Breaker notification handlers, last-success and last-failure times, and the order and
  attempt identifiers of an outcome.
- Execution records are values in a map; fills reached through two references to one record
  are not modelled.
- Trade-tape matching, and the hourly rates of `summarize`. Overwriting fees from venue
  records is in the ledger operations and keeps the registry; it changes profit, so the
  conservation results are about settlement passes alone.
- A Kalshi increment with an unknown side, which only creates an empty book; prices that
  are not whole cents (Kalshi) or whole millionths (Polymarket); malformed messages other
  than an unparseable price change. A Kalshi increment before any snapshot publishes a
  partial book, as the code does.
- Rounding of ledger peaks to four and five decimals, snapshot rows, and the watch-list
  refresh of the monitor.
- The square-root impact, volatility and gas models, and the scoring in the risk engine.
