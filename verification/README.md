# Verified model of the Qlib platform's portfolio, simulation, data and protocol cores

A Dafny 4.11 project that states what the hardest parts of the platform compute and proves what they are
relied on for. `dafny verify dfyconfig.toml` checks all of it.

Code that the platform runs step by step is a `method` or a `class` here, proved against a function on values;
the theorems are lemmas about those functions. Money and weights are exact `real`s, shares and dates are `int`s,
data frames are sequences and maps. The square root is any function that is non-negative and monotone on
non-negative numbers. Digests are arbitrary functions; the lemmas that need it assume that they are injective,
as is expected of SHA-256 (section 6.2 of FIPS 180-4).

| file | what it models |
|---|---|
| `Basics.dfy`, `Sorting.dfy` | results, Python slices, string trimming, exact sums, a stable sort and its uniqueness |
| `WaterFilling.dfy`, `Proportions.dfy`, `Turnover.dfy` | target construction: allocation under caps, how it follows the signal, turnover blend, minimum position |
| `Quotes.dfy`, `TopkDropout.dfy`, `TopkDropoutActions.dfy`, `RankBuffer.dfy`, `RankBufferChoices.dfy` | the two selection rules, whole runs of them, which names they pick, and the two rank-buffer implementations |
| `MarketRules.dfy`, `TradingCosts.dfy`, `CashFitting.dfy` | board sizes, the fee schedule, fill prices, the cash-fitting search, when it finds the largest quantity and what its price means |
| `AShareLedger.dfy`, `AShareInvariants.dfy`, `AShareCash.dfy`, `OrderOutcomes.dfy`, `OrderRows.dfy`, `AShareSimulator.dfy` | the day-stepped simulator as a value, its invariants and its cash floor over every run, what its orders get and its rows say, and the mutable state that computes it |
| `ExchangeGuard.dfy`, `GuardedBuys.dfy` | the second T+1 ledger, on Qlib's adjusted amounts |
| `Fundamentals.dfy`, `PublicFundamentals.dfy` | the point-in-time fold and as-of join, and its table from the announcement dates alone |
| `Execution.dfy`, `ExecutionProofs.dfy`, `WorkerHistory.dfy` | the local and worker backends, refinement, safety, and what records say about past operations |
| `Checkpoints.dfy`, `CheckpointIntegrity.dfy` | the certified checkpoint pass of the resumable sync |
| `AuditLog.dfy`, `AuditHistory.dfy` | the hash-chained audit log, and the calls it records |
| `TargetInstruction.dfy`, `TargetInstructionProofs.dfy`, `InstructionMeaning.dfy` | the version 3 target-instruction canonicaliser |
| `TieCheck.dfy`, `TieCounts.dfy` | the audit's tolerance for tied scores |

## Where the code differs from its description, or from what one would expect

The model follows the code. Each of these is proved with an exact condition or a concrete input:

- A group at its cap scales down what the position cap has already cut, so two of its names can end out of the ratio of their signals although neither is at the position cap (`Proportions.SharedGroupExactlyWhen`, `Proportions.FullGroupOutOfRatio`); a group that is not full never does (`Proportions.OpenNamesFollowSignal`).
- The turnover cap fails in two ways: a cap of zero switches it off, and under a positive cap the clip of a holding above the position cap trades on top of it (`Turnover.TurnoverCapHoldsExactlyWhen`, `Turnover.BlendedTurnoverIsCapPlusClip`, `Turnover.ZeroCapIsNoCap`, `Turnover.ClipBreaksTheCap`).
- Without the tradable filter, an oversized TopkDropout portfolio may still buy, because both slice ends turn negative (`TopkDropout.SizeHoldsExactlyWhen`, `TopkDropout.OversizedPortfolioStillBuys`).
- The rank-buffer replay checks tradability even when `only_tradable` is off; the strategy that says it mirrors the replay does not, and it never raises for a missing ranking or missing quotes (`RankBuffer.SidesAgreeExactlyWhen`, `RankBuffer.SidesCanDisagree`).
- The fill price includes the impact of the board quantity and is not recomputed when the quantity is cut to the cash: a cut buy pays at least the price of what it got, and on one input strictly more (`CashFitting.BuyPaysForItsBoardQuantity`, `CashFitting.CutBuyPaysMore`).
- The tolerance of `is_legal_buy_quantity` is 1e-8 above a board size but only 1e-9 below it, because the quantity is rounded down first (`GuardedBuys.LegalExactlyWhen`, `GuardedBuys.ToleranceIsOneSided`).
- The worker's `cancel` validates the quota for an unknown job and the local one does not (`ExecutionProofs.WorkerRefinesLocalExactlyWhen`, `ExecutionProofs.CancelOverQuotaDiverges`); the worker's `deliver` reruns a failed job (`ExecutionProofs.FailedJobsRunOnDelivery`).
- An older checkpoint without a contract is re-certified before its input is compared, so it survives even when a predecessor was invalidated in the same pass (`Checkpoints.UpgradedSurvives`, `Checkpoints.UpgradedSurvivesItsPredecessor`).
- A commission floor can make a sell cost more than it brings in, so cash can turn negative, by at most one floor per sell (`MarketRules.SellCoversFeesExactlyWhen`, `AShareCash.CashFallsAtMostByFloors`, `AShareCash.CoveringRowsKeepCash`, `AShareCash.FloorDrivesCashNegative`).
- A row may carry a negative spread or a negative upper price limit; then the price of a buy can be negative, and the cash-fitting search, which says it returns the largest quantity that fits, finds it, when the rounded request fits, only if the first size it tries fits too (`CashFitting.FitIsLargestExactlyWhen`, `CashFitting.SearchMissesLargest`, `AShareSimulator.BuyPriceNonNegative`). What it finds may still be bought, and the simulator's invariants hold on such rows too (`MarketRules.FitToCashFacts`).

## Model

| member | source | states |
|---|---|---|
| `WaterFilling.BoundedAllocate` | src/qlib_platform/backtesting/portfolio.py:92-141 | the allocation is feasible (every name in [0, position cap], every group at most the group cap, total at most `desired`), no feasible allocation has a larger total by more than 1e-12 per name, and the loop ends only because the budget is spent or nobody is eligible, after at most one round per name |
| `WaterFilling.OneRound` | src/qlib_platform/backtesting/portfolio.py:122-136 | the loops of one round compute the additions of the reference definition of a round |
| `WaterFilling.RoundFeasible` | src/qlib_platform/backtesting/portfolio.py:125-140 | a round from a feasible allocation yields a feasible allocation and only adds weight |
| `WaterFilling.RoundProgress` | src/qlib_platform/backtesting/portfolio.py:111-140 | an unfinished round moves more than the tolerance, and spends the rest or strictly shrinks the eligible set |
| `WaterFilling.FeasibleAtMostCapacity` | src/qlib_platform/backtesting/portfolio.py:100-108 | every feasible allocation totals at most the exposure and the sum over groups of the smaller of group cap and names times position cap |
| `WaterFilling.HeldIsCountTimes` | src/qlib_platform/backtesting/portfolio.py:108 | a group whose names all weigh the same weighs its number of names, counted in the list of groups, times that weight |
| `WaterFilling.StopIsNearlyOptimal` | src/qlib_platform/backtesting/portfolio.py:110-121 | either way the loop may stop leaves a total within 1e-12 per name of that bound |
| `WaterFilling.GroupsPartition` | src/qlib_platform/backtesting/portfolio.py:113 | group totals add up to the portfolio total |
| `Proportions.OpenNamesFollowSignal` | src/qlib_platform/backtesting/portfolio.py:97-141 | names that end with room of their own and in their groups weigh in the ratio of their raw weights, negative ones counting as zero; equal ones weigh the same |
| `Proportions.GroupKeepsOrder` | src/qlib_platform/backtesting/portfolio.py:122-136 | in one group a larger raw weight never weighs less, unless it fills the position cap |
| `Proportions.SharedGroupExactlyWhen` | src/qlib_platform/backtesting/portfolio.py:122-136 | two names of one group that end with room of their own are in the ratio of their raw weights if and only if those are equal, one of them is zero or less, or the position cap never cut a proposal of either |
| `Proportions.FullGroupOutOfRatio` | src/qlib_platform/backtesting/portfolio.py:125-136 | raw weights of three and one in a full group end as two tenths and one tenth, both below the position cap |
| `Proportions.WideCapKeepsRatio` | src/qlib_platform/backtesting/portfolio.py:125-136 | under a position cap of at least the exposure, names of one group with room of their own are always in ratio |
| `Proportions.ShareExactlyWhenItFits` | src/qlib_platform/backtesting/portfolio.py:97-141 | the exposure split in proportion to the raw weights (equally when none is positive) is the result if and only if it respects every cap, and exposure and caps exceed 1e-12 |
| `Turnover.BlendClipsNothing` | src/qlib_platform/backtesting/portfolio.py:205-209 | when current and target weights lie inside the position cap the clip of the blend is a no-op |
| `Turnover.BlendedTurnoverIsCapPlusClip` | src/qlib_platform/backtesting/portfolio.py:157-217 | for every non-negative current portfolio, the turnover of a blend, computed by `portfolio_turnover` itself, is the cap plus half of what the clip at the position cap cuts off |
| `Turnover.BlendedTurnoverIsCap` | src/qlib_platform/backtesting/portfolio.py:160-165 | with every current weight inside the position cap the turnover of a blend equals the turnover cap exactly |
| `Turnover.NothingClippedExactlyWhen` | src/qlib_platform/backtesting/portfolio.py:208-209 | the clip cuts nothing off if and only if no blended weight lies above the position cap |
| `Turnover.TurnoverCapHoldsExactlyWhen` | src/qlib_platform/backtesting/portfolio.py:201-209 | for every non-negative current portfolio the blend keeps turnover within the cap if and only if the cap is zero and the target gives every name its current weight, or it is positive and no blended weight lies above the position cap |
| `Turnover.ZeroCapIsNoCap` | src/qlib_platform/backtesting/portfolio.py:204 | an input with cap zero whose turnover is one half |
| `Turnover.ClipBreaksTheCap` | src/qlib_platform/backtesting/portfolio.py:209 | an input with a positive cap and a holding above the position cap whose turnover is twice the cap |
| `Turnover.MinimumPositionTurnover` | src/qlib_platform/backtesting/portfolio.py:220 | for any weights and any current portfolio, dropping small positions adds at most half the minimum position per name to the turnover, never adds weight, and leaves no weight strictly between zero and the minimum |
| `Turnover.BlendTotal` | src/qlib_platform/backtesting/portfolio.py:205-217 | for every non-negative current portfolio the blend totals at most the larger of the current portfolio and the target |
| `Turnover.TradedTargetBounds` | src/qlib_platform/backtesting/portfolio.py:201-220 | for every non-negative current portfolio the traded target keeps the position cap, the minimum position, a total at most the current total or the exposure limit, and under a positive cap a turnover of at most the cap, half of what the clip cuts off and half the minimum per name |
| `Turnover.ReindexTotal` | src/qlib_platform/backtesting/portfolio.py:161-164 | reindexing weights onto a larger universe keeps their total |
| `Turnover.ConstructTarget` | src/qlib_platform/backtesting/portfolio.py:144-220 | the end of the construction: the allocation of the loop as a feasible, nearly optimal target, the clipped current weights, then the blend and the minimum-position step; the result keeps all bounds of a traded target, and an empty selection gives an empty target |
| `TopkDropout.FirstN` | src/qlib_platform/backtesting/topk_dropout.py:222-233 | the loop returns the first `n` tradable names in order, and still one name when `n` is zero or negative; without flags it is the Python slice, negative ends included |
| `TopkDropout.LastN` | src/qlib_platform/backtesting/topk_dropout.py:236-239 | the reversed search returns the last `n` tradable names in their order |
| `TopkDropout.SellsAndBuys` | src/qlib_platform/backtesting/topk_dropout.py:273-281 | theoretical sells are exactly the holdings among the bottom `n_drop` tradable names; buys are distinct unheld entrants |
| `TopkDropout.PlannedSize` | src/qlib_platform/backtesting/topk_dropout.py:281 | from at most `topk + n_drop` holdings the planned buys fit under that size even if no sell executes |
| `TopkDropout.OversizedBuys` | src/qlib_platform/backtesting/topk_dropout.py:265-281 | how many names an oversized portfolio buys, through both negative slice ends, from the unheld names, the excess and the entrants among the bottom names |
| `TopkDropout.SizeHoldsExactlyWhen` | src/qlib_platform/backtesting/topk_dropout.py:265-281 | the size bound holds for any portfolio if and only if the tradable filter is on, the portfolio is not oversized, or the unheld names are at most twice the excess plus the entrants among the bottom names |
| `TopkDropout.OversizedPortfolioStillBuys` | src/qlib_platform/backtesting/topk_dropout.py:265-281 | three unscored holdings against a target of one: without the filter a buy is still planned |
| `TopkDropout.DayKeepsSize` | src/qlib_platform/backtesting/topk_dropout.py:297-314 | one day keeps the size bound whichever sells and buys fill |
| `TopkDropout.RunKeepsSize` | src/qlib_platform/backtesting/topk_dropout.py:242-314 | every run from at most `topk + n_drop` holdings stays at most that size after every day |
| `TopkDropout.NeverDowngrades` | src/qlib_platform/backtesting/topk_dropout.py:273-281 | with a full candidate list the slice end is not negative and each planned buy scores at least as high as each planned sell, unscored holdings lowest |
| `TopkDropout.BuysAreEntrantsOutsideBottom` | src/qlib_platform/backtesting/topk_dropout.py:273-281 | with distinct entrant scores the buys are exactly the entrants outside the bottom `n_drop` tradable names |
| `TopkDropout.BetterNameReplaces` | src/qlib_platform/backtesting/topk_dropout.py:271-281 | a day on which a better name replaces the one holding |
| `TopkDropout.BottomIsFull` | src/qlib_platform/backtesting/topk_dropout.py:236-275 | with a full candidate list the bottom has exactly `n_drop` names |
| `Quotes.TradesExactlyWhen` | src/qlib_platform/backtesting/topk_dropout.py:197-219 | with quotes a name must be quoted and not paused; an upper limit stops buying and a lower one selling, both stop candidates, and both stop everything when trading at a limit is forbidden; without quotes everything trades |
| `TopkDropoutActions.BottomExactlyWhen` | src/qlib_platform/backtesting/topk_dropout.py:236-274 | a name is among the bottom if and only if it takes part and fewer than `n_drop` names behind it do |
| `TopkDropoutActions.SellExactlyWhen` | src/qlib_platform/backtesting/topk_dropout.py:297-305 | a name is sold if and only if it is held, for at least `hold_thresh` days, sellable by its quote, and among the bottom, by counting |
| `TopkDropoutActions.BuyExactlyWhen` | src/qlib_platform/backtesting/topk_dropout.py:300-309 | a name is bought if and only if it is a planned buy that its quote lets be bought; it is then scored and not held |
| `RankBuffer.RankBufferDecision` | src/qlib_platform/backtesting/topk_dropout.py:374-428 | the replay raises exactly on an empty ranking and when quotes are required and absent; otherwise its two loops compute the selection definition, a breached holding is sold or has a blocked reason, and each reason is the true one |
| `RankBuffer.RefillSlots` | src/qlib_platform/backtesting/topk_dropout.py:415-428 | the refill loop takes the best buyable names within the entry rank, up to the open slots and the replacement cap |
| `RankBuffer.RankBufferStrategySelect` | src/qlib_platform/backtesting/qlib_strategies.py:94-129 | the sell and buy loops of the Qlib strategy compute the selection that asks the exchange only under `only_tradable` |
| `RankBuffer.SidesAgreeExactlyWhen` | src/qlib_platform/backtesting/qlib_strategies.py:18-23 | the replay answers with the ordered sells and buys of the strategy, whatever order each lists holdings in, if and only if there is a ranking and either `only_tradable` is set and there are quotes, or it is not set and everything due is tradable |
| `RankBuffer.SidesAgreeWithoutQuotes` | src/qlib_platform/backtesting/qlib_strategies.py:97-129 | with a ranking, without quotes and without `only_tradable`, the two sides always agree |
| `RankBuffer.SidesCanDisagree` | src/qlib_platform/backtesting/topk_dropout.py:411 | a paused holding outside a non-empty ranking that the replay keeps and the strategy sells |
| `RankBuffer.CandidatesIgnoreOrder` | src/qlib_platform/backtesting/qlib_strategies.py:97-105 | the sell candidates do not depend on the order in which holdings are listed |
| `RankBuffer.FirstSurvivors` | src/qlib_platform/backtesting/topk_dropout.py:404-428 | the first `n` survivors of a filter are the first `n` if and only if all of those survive |
| `RankBuffer.DayReducesPending` | src/qlib_platform/backtesting/topk_dropout.py:395-428 | every filled order lowers (holdings past the buffer) + (unheld names within the entry rank) by exactly one |
| `RankBuffer.RunQuiesces` | src/qlib_platform/backtesting/topk_dropout.py:127-131 | over a run with an unchanged ranking, filled orders plus what is still pending equal what was pending at the start |
| `RankBuffer.SettledNeverTrades` | src/qlib_platform/backtesting/topk_dropout.py:395-428 | a settled name is never traded again |
| `RankBuffer.NoNameTradesTwice` | src/qlib_platform/backtesting/topk_dropout.py:395-428 | with an unchanged ranking no name trades twice, in either direction |
| `RankBuffer.FilledPlanSize` | src/qlib_platform/backtesting/topk_dropout.py:415-428 | filling a plan keeps holdings within the larger of their number and the target size |
| `RankBufferChoices.SoldExactlyWhen` | src/qlib_platform/backtesting/topk_dropout.py:395-414 | a holding is sold if and only if it is ranked behind `exit_rank` or not at all, held for `hold_thresh` days and sellable by its quote, and fewer such holdings than the replacement cap are worse |
| `RankBufferChoices.BoughtExactlyWhen` | src/qlib_platform/backtesting/topk_dropout.py:415-428 | a name is bought if and only if it is within `entry_rank`, not held and buyable by its quote, and the better ones leave an open slot and room under the replacement cap |
| `MarketRules.RoundBuyIsLargestLegal` | src/qlib_platform/backtesting/ashare_rules.py:153-166 | rounding a buy gives the largest legal board size not above the request, or zero when there is none, STAR minimum and increment included |
| `MarketRules.LegalExactlyFixed` | src/qlib_platform/backtesting/ashare_rules.py:153-166 | a size is legal if and only if it rounds to itself |
| `MarketRules.SellKeepsOddLots` | src/qlib_platform/backtesting/ashare_rules.py:169-185 | for every requested amount, a sell stays within the request (up to the rounding tolerance) and the sellable shares and is whole lots or closes an odd lot |
| `OrderOutcomes.SellIsLargestLegal` | src/qlib_platform/backtesting/ashare_rules.py:169-185 | a sell is rounded to the largest legal size within the request: whole lots, any size from the STAR minimum on, or the whole of a smaller position |
| `OrderOutcomes.StarMarketExactlyWhen` | src/qlib_platform/backtesting/ashare_rules.py:121-125 | which codes belong to the STAR market |
| `MarketRules.ScheduleIsExact` | src/qlib_platform/backtesting/market_rule_set.py:62-183 | the production schedule has exactly one regime for a venue and date if and only if the date is not before the first day of the venue |
| `MarketRules.ScheduleRates` | src/qlib_platform/backtesting/market_rule_set.py:86-183 | all rates are non-negative and sum to at most 15.4 basis points |
| `MarketRules.FeesMonotone` | src/qlib_platform/backtesting/ashare_costs.py:9-35 | total fees grow with the notional, commission floor included |
| `MarketRules.FeesWithinNotionalAndFloor` | src/qlib_platform/backtesting/ashare_costs.py:9-35 | with rates summing to at most one, a sell costs at most its notional and one commission floor |
| `MarketRules.SellCoversFeesExactlyWhen` | src/qlib_platform/backtesting/ashare_costs.py:9-35 | with rates summing to at most one, the fees of a sell are within its notional if and only if the commission floor is within what the statutory rates leave of the notional |
| `MarketRules.ImpactHurts` | src/qlib_platform/backtesting/ashare_costs.py:67-87 | a larger order never gets a better price; buys pay at least, sells receive at most, the clamped reference |
| `MarketRules.SellPriceAtLeastWorst` | src/qlib_platform/backtesting/ashare_costs.py:67-87 | no sell receives less than one that takes the whole volume, whatever the spread and limits |
| `MarketRules.SellPriceNonNegative` | src/qlib_platform/backtesting/ashare_costs.py:67-87 | when half the spread, slippage and full impact stay within the price and the upper limit is not negative, a sell never receives less than nothing |
| `TradingCosts.PriceInsideLimits` | src/qlib_platform/backtesting/ashare_costs.py:67-87 | a fill price is not below the lower limit, and not above the upper one unless it is the lower one |
| `TradingCosts.LimitsOnlyCut` | src/qlib_platform/backtesting/ashare_costs.py:67-87 | limits change only a price outside them, and to one of the limits |
| `TradingCosts.RoundTripCost` | src/qlib_platform/backtesting/ashare_costs.py:67-87 | without limits the prices of buying and selling a quantity lie evenly around the reference and differ by the spread, twice the slippage and twice the impact at the root of the share of the volume |
| `TradingCosts.FeesAreRatesOrFloor` | src/qlib_platform/backtesting/ashare_costs.py:9-45 | fees are the larger of the commission floor and the commission, and the other rates of the side |
| `TradingCosts.SellerPaysStampDuty` | src/qlib_platform/backtesting/ashare_costs.py:9-45 | a seller pays the stamp duty more than a buyer |
| `TradingCosts.SplittingNeverSaves` | src/qlib_platform/backtesting/ashare_costs.py:9-45 | splitting a trade costs between nothing and one commission floor more, and nothing if and only if there is no floor or both parts earn their commission |
| `TradingCosts.EachRateChargesItsOwn` | src/qlib_platform/backtesting/ashare_costs.py:9-45 | each part of the fees is its own rate on the notional, stamp duty for sellers alone |
| `TradingCosts.ScheduleHistory` | src/qlib_platform/backtesting/market_rule_set.py:86-183 | the rates of the production schedule by date and venue: when stamp duty, transfer fee and handling fees changed, and to what |
| `MarketRules.FitsCashDownward` | src/qlib_platform/backtesting/ashare_engine.py:59-67 | what fits the cash at a size fits it at every smaller size, for a price that is not negative |
| `MarketRules.BestAffordableIsLargest` | src/qlib_platform/backtesting/ashare_engine.py:36-45 | the exhaustive reference: the largest legal size within the request whose cost fits cash plus 1e-9, or zero |
| `MarketRules.FitToCashFacts` | src/qlib_platform/backtesting/ashare_engine.py:36-72 | for any price the quantity is legal, affordable and within the request; for a price that is not negative it is what the exhaustive search returns |
| `MarketRules.FitBuyToCash` | src/qlib_platform/backtesting/ashare_engine.py:36-72 | the loop of the binary search computes that quantity |
| `CashFitting.FitIsLargestExactlyWhen` | src/qlib_platform/backtesting/ashare_engine.py:36-72 | for every quantity and price, the search finds the largest legal quantity that fits if and only if the price is not negative, the rounded request is nothing or does not fit, or the first size the search tries fits |
| `CashFitting.SearchMissesLargest` | src/qlib_platform/backtesting/ashare_engine.py:121-156 | a row with a negative upper limit on which a thousand shares are legal and fit the cash, and the buy is rejected for insufficient cash |
| `CashFitting.BuyPaysForItsBoardQuantity` | src/qlib_platform/backtesting/ashare_engine.py:133-156 | for every spread and limit, a filled buy pays the price of its board quantity, which is at least the price of the quantity it got |
| `CashFitting.CutBuyPaysMore` | src/qlib_platform/backtesting/ashare_engine.py:133-156 | a buy of four hundred cut to one hundred that pays 10.05 where one hundred cost 10.025, for any root with the values of the square root at 1/4 and 1/16 |
| `AShareSimulator.BuyPriceNonNegative` | src/qlib_platform/backtesting/ashare_engine.py:133-156 | on a row whose spread and upper limit are not negative, the price the engine passes to the search is not negative |
| `OrderOutcomes.BoardQuantityIsLargest` | src/qlib_platform/backtesting/ashare_engine.py:97-131 | the board quantity is the largest legal size within the request that keeps the trading of the day in the name within the participation rate times the volume |
| `OrderOutcomes.FillExactlyWhen` | src/qlib_platform/backtesting/ashare_engine.py:89-159 | when an order fills, at which quantity, price and fee regime: on an open row, with a board size, within its limit price, and for a buy with cash |
| `OrderOutcomes.RejectionIsTrue` | src/qlib_platform/backtesting/ashare_engine.py:88-159 | every rejection has a reason that holds; a missing size or cash means that no legal size fits |
| `OrderOutcomes.RoundTripOnRow` | src/qlib_platform/backtesting/ashare_engine.py:29-31 | on a row without limits, buying and selling a quantity cost the spread of the row, or the default one, twice the slippage and twice the impact |
| `AShareSimulator.SimulationState.ReleaseTPlusOne` | src/qlib_platform/backtesting/ashare_state.py:47-49 | the queue of the day is popped and each entry becomes available |
| `AShareSimulator.SimulationState.Reject` | src/qlib_platform/backtesting/ashare_state.py:64-89 | one rejection row and one count |
| `AShareSimulator.SimulationState.CountDemand` | src/qlib_platform/backtesting/ashare_engine.py:97-105 | demand, remaining capacity and the once-per-row capacity notional |
| `AShareSimulator.SimulationState.MoveShares` | src/qlib_platform/backtesting/ashare_engine.py:160-183 | cash, position and unlock queue after a fill |
| `AShareSimulator.SimulationState.BookFill` | src/qlib_platform/backtesting/ashare_engine.py:160-221 | cash, position, unlock queue, used volume and fill row after a fill |
| `AShareSimulator.SimulationState.TryFill` | src/qlib_platform/backtesting/ashare_engine.py:133-221 | price, order limit, fee regime and cash fit of a known board quantity: which rejection or error, or which fill |
| `AShareSimulator.SimulationState.ExecuteOrder` | src/qlib_platform/backtesting/ashare_engine.py:75-221 | every branch of an order: which rejection, or which fill; the price is the one computed before the cash fit |
| `AShareSimulator.SimulationState.ApplyCorporateActions` | src/qlib_platform/backtesting/ashare_corporate_actions.py:70-122 | dividends and share multipliers in order; a fractional result raises |
| `AShareSimulator.RunDay` | src/qlib_platform/backtesting/ashare_simulator.py:152-164 | release, corporate actions, orders, mark: the state after the day is the ledger after the day |
| `AShareSimulator.SimulateAShareOrders` | src/qlib_platform/backtesting/ashare_simulator.py:113-165 | the whole simulation equals the ledger definition, calendar checks and raised errors included |
| `AShareSimulator.FailureIsFinal` | src/qlib_platform/backtesting/ashare_simulator.py:152-164 | an error on a day is the result of the run |
| `AShareInvariants.ReachableKeeps` | src/qlib_platform/backtesting/ashare_simulator.py:150-165 | at every point of every day of every run: total minus available is what was bought that day and 0 <= available <= total (no queue on the last day), available plus sold equals the opening total, replaying the rows rebuilds cash and positions, counters match rows, volume within participation, cash at least -1e-9 less what sells have cost beyond their proceeds, and each processed order has exactly one outcome |
| `AShareInvariants.SellsWithinOpening` | src/qlib_platform/backtesting/ashare_engine.py:118-182 | what is sold of a name during a day never exceeds its holding at the open |
| `AShareInvariants.SimulationAccountsForEveryOrder` | src/qlib_platform/backtesting/ashare_simulator.py:155-165 | a finished simulation has exactly one fill or rejection per order, rows that rebuild its accounts, and an empty unlock queue |
| `OrderOutcomes.TradedWithinVolume` | src/qlib_platform/backtesting/ashare_engine.py:100-131 | over every run, what trades of a name on a date is at most the participation rate times its volume, and nothing without a row |
| `OrderRows.RowsComeFromOrders` | src/qlib_platform/backtesting/ashare_engine.py:75-221 | over every run each fill row is of an order of the input: its own fields, at most its quantity, an open row, a price within its limit and those of the row, quantity times price, the fees of a regime of its day; each rejection row has the fields of its order; the filled notional is their sum |
| `OrderRows.CountersAddUp` | src/qlib_platform/backtesting/ashare_engine.py:97-105 | over every run the requested notional sums the orders on trading rows, and each trading row that an order names counts its capacity once |
| `OrderRows.FillRowShowsLedger` | src/qlib_platform/backtesting/ashare_engine.py:160-221 | a fill row shows the cash and position it leaves, and cash moved by its notional and fees |
| `OrderRows.ActionRowShowsLedger` | src/qlib_platform/backtesting/ashare_corporate_actions.py:83-122 | a corporate-action row shows cash and position before and after; a dividend pays for every share held, locked ones included |
| `OrderRows.ScaledExactlyWhen` | src/qlib_platform/backtesting/ashare_corporate_actions.py:60-67 | a scaled quantity is the whole number within 1e-9 of the product, or fails |
| `OrderRows.HeldNamesHaveRows` | src/qlib_platform/backtesting/ashare_simulator.py:30-47 | a day that ends has a row for each name it ends with |
| `AShareCash.CashFallsAtMostByFloors` | src/qlib_platform/backtesting/ashare_engine.py:147-183 | over every run, with rates within the notional and rows on which a sell cannot receive less than nothing, cash is at least -1e-9 less one commission floor per sell |
| `AShareCash.CoveringRowsKeepCash` | src/qlib_platform/backtesting/ashare_engine.py:147-183 | over every run, with rates within the notional and rows on which one share sold at the worst price of the row pays the commission floor and the statutory rates, each sell covers its fees and cash is at least -1e-9 |
| `AShareCash.FloorDrivesCashNegative` | src/qlib_platform/backtesting/ashare_engine.py:172-183 | a complete two-day run at the production fee schedule that ends with negative cash because of a commission floor |
| `AShareCash.ScheduleIsWithinPrice` | src/qlib_platform/backtesting/market_rule_set.py:86-183 | the production schedule with a commission of at most 9984.6 basis points has rates within the notional |
| `AShareInvariants.DecideFacts` | src/qlib_platform/backtesting/ashare_engine.py:89-159 | a fill is on a tradable row, within request and remaining capacity, affordable for a buy and settled for a sell |
| `AShareInvariants.ReleaseUnlocksAll` | src/qlib_platform/backtesting/ashare_state.py:47-49 | after the release of a day everything held is available |
| `AShareInvariants.SettleKeepsTPlusOne` | src/qlib_platform/backtesting/ashare_engine.py:168-182 | a fill keeps T+1 exact: a buy is locked and queued, a sell takes settled shares only |
| `AShareInvariants.ActionKeepsAvailable` | src/qlib_platform/backtesting/ashare_corporate_actions.py:83-101 | a corporate action applied after the release keeps everything available |
| `AShareInvariants.SettleConserves` | src/qlib_platform/backtesting/ashare_engine.py:168-221 | replaying one more fill row gives the new cash and positions |
| `AShareInvariants.ActionConserves` | src/qlib_platform/backtesting/ashare_corporate_actions.py:83-122 | replaying one more corporate action gives the new cash and positions |
| `ExchangeGuard.AShareQlibExchangeGuard.CalcTradeInfo` | src/qlib_platform/backtesting/ashare_qlib.py:126-143 | sells pass through; a buy is booked only at a legal board size and is zeroed otherwise |
| `ExchangeGuard.AShareQlibExchangeGuard.DealOrder` | src/qlib_platform/backtesting/ashare_qlib.py:145-171 | refuses exactly on an unknown position, an unsettled sell, a missing factor or an illegal buy; otherwise only positive account buys are added to the locked shares |
| `ExchangeGuard.LockedIsBoughtToday` | src/qlib_platform/backtesting/ashare_qlib.py:164-170 | folding the lock updates of the guard over the fills of the simulator gives the shares bought today by the fill rows, in adjusted units |
| `ExchangeGuard.GuardMeasuresSimulator` | src/qlib_platform/backtesting/ashare_qlib.py:97-115 | on the same fills and at any positive factor the settled amount equals the available shares of the simulator in adjusted units, and the guard refuses a sell of whole shares if and only if they exceed those by more than the tolerance times the factor |
| `ExchangeGuard.GuardAgreesWithSimulator` | src/qlib_platform/backtesting/ashare_qlib.py:97-115 | the corollary at factors below 1e9: the guard refuses a sell of whole shares if and only if they exceed the available shares of the simulator |
| `ExchangeGuard.GuardedSellsWithinOpening` | src/qlib_platform/backtesting/ashare_qlib.py:97-171 | over every chronological run of calls the guard lets through, with mixed names, dates and positions, an account sells of a name on a date at most what it held of it when the date opened, up to the tolerance of each sell order |
| `ExchangeGuard.SettledIsOpeningLessSold` | src/qlib_platform/backtesting/ashare_qlib.py:97-115 | during a date, what an account holds and the guard has not locked is its opening holding less what it sold |
| `ExchangeGuard.AccountLocksAreTheGuards` | src/qlib_platform/backtesting/ashare_qlib.py:164-170 | the locks of such a run are the lock updates of the guard, call by call |
| `GuardedBuys.LegalExactlyWhen` | src/qlib_platform/backtesting/ashare_rules.py:188-192 | a raw quantity is legal if and only if it is at most 1e-8 above or 1e-9 below a size the board accepts |
| `GuardedBuys.BuyPassesExactlyWhen` | src/qlib_platform/backtesting/ashare_qlib.py:117-153 | a buy passes if and only if the check of Qlib fails, nothing is asked for, or its raw quantity under a positive factor is that near a board size |
| `GuardedBuys.ToleranceIsOneSided` | src/qlib_platform/backtesting/ashare_rules.py:188-192 | five billionths below a lot is refused and the same above it is legal |
| `Fundamentals.FoldEvents` | src/qlib_platform/data/fundamentals.py:89-105 | the incremental fold yields one event per effective day, in order, each showing the greatest period known that day in its latest restatement |
| `Fundamentals.ExpandSecurity` | src/qlib_platform/data/fundamentals.py:85-117 | fold and as-of join give exactly the rows of a naive recomputation for each open day |
| `Fundamentals.BuildPitFundamentals` | src/qlib_platform/data/fundamentals.py:46-133 | the table holds exactly the rows that the naive recomputation shows on open days, grouped by code |
| `Fundamentals.JoinIsNaive` | src/qlib_platform/data/fundamentals.py:106-116 | on every day the joined row is the naive row |
| `Fundamentals.KnownShows` | src/qlib_platform/data/fundamentals.py:91-96 | the naive recomputation finds the record with the greatest period in its latest restatement |
| `Fundamentals.ShowsUnique` | src/qlib_platform/data/fundamentals.py:86-96 | at most one record fits that description |
| `Fundamentals.ShowsAfterSort` | src/qlib_platform/data/fundamentals.py:86-88 | sorting and dropping duplicates never shows a record that the full set does not |
| `Fundamentals.EffectiveTimeIsFirst` | src/qlib_platform/data/fundamentals.py:78-81 | a report becomes effective on the first open day after its announcement |
| `Fundamentals.NoLookAhead` | src/qlib_platform/data/fundamentals.py:46-52 | a row of a day up to `cutoff` does not depend on reports announced on or after `cutoff` |
| `Fundamentals.TableRow` | src/qlib_platform/data/fundamentals.py:85-120 | a row is in the table if and only if its day is open and the naive recomputation shows it |
| `Fundamentals.TableHasNoLookAhead` | src/qlib_platform/data/fundamentals.py:46-133 | adding or changing reports announced on or after `cutoff` changes no row of a day up to `cutoff` |
| `PublicFundamentals.EffectiveExactlyWhen` | src/qlib_platform/data/fundamentals.py:67-81 | a report takes effect on the first open day after both its announcement dates, and never when there is none |
| `PublicFundamentals.TableRowExactlyWhen` | src/qlib_platform/data/fundamentals.py:67-120 | the table holds a row if and only if its day is open, its report is the latest restatement of the latest period among the reports of its security whose announcement dates have all passed, it has a value, and its effective day is the last on which a report became public |
| `PublicFundamentals.RowsFollowAnnouncements` | src/qlib_platform/data/fundamentals.py:46-52 | no row shows a report on or before its announcement or final announcement date |
| `Execution.LocalExecutionBackend.Submit` | src/qlib_platform/control_plane/execution.py:183-189 | known jobs are returned, others validated, queued and run |
| `Execution.LocalExecutionBackend.Run` | src/qlib_platform/control_plane/execution.py:211-233 | attempt count, running record, then the failed or succeeded one |
| `Execution.LocalExecutionBackend.Cancel` | src/qlib_platform/control_plane/execution.py:191-199 | records a cancellation also for an unknown job, without the quota |
| `Execution.LocalExecutionBackend.Resume` | src/qlib_platform/control_plane/execution.py:201-209 | reruns failed and cancelled jobs within the quota |
| `Execution.FakeWorkerExecutionBackend.Submit` | src/qlib_platform/control_plane/execution.py:252-259 | known jobs are returned, others validated and queued |
| `Execution.FakeWorkerExecutionBackend.Deliver` | src/qlib_platform/control_plane/execution.py:261-289 | submits an unknown job, returns succeeded and cancelled ones, runs any other, failed ones included |
| `Execution.FakeWorkerExecutionBackend.Cancel` | src/qlib_platform/control_plane/execution.py:291-297 | submits an unknown job first, so the quota applies |
| `Execution.FakeWorkerExecutionBackend.Resume` | src/qlib_platform/control_plane/execution.py:299-306 | queues failed and cancelled jobs within the quota |
| `ExecutionProofs.OperationAgreesExactlyWhen` | src/qlib_platform/control_plane/execution.py:183-306 | one operation of the driven worker has the records (up to delivery ids), reply and handler calls of the local backend if and only if it is not a cancel of an unknown job over quota |
| `ExecutionProofs.WorkerRefinesLocalExactlyWhen` | src/qlib_platform/control_plane/execution.py:167-306 | over any operation sequence and handler, the driven worker answers every call like the local backend if and only if no cancel of an unknown job is over quota, and then ends with the same records |
| `ExecutionProofs.WorkerSettles` | src/qlib_platform/control_plane/execution.py:261-289 | between driven operations nothing is active and only succeeded records carry artifacts or a digest |
| `ExecutionProofs.CancelOverQuotaDiverges` | src/qlib_platform/control_plane/execution.py:191-196 | an input where the local backend records the cancellation and the worker raises |
| `ExecutionProofs.OperationShape` | src/qlib_platform/control_plane/execution.py:252-306 | a worker operation changes nothing, or stores one record at its own key: never over a succeeded one, attempts raised exactly when the handler ran, active only with quota room |
| `ExecutionProofs.RunIsSafe` | src/qlib_platform/control_plane/execution.py:47-59 | over every operation sequence, duplicate deliveries included, attempts equal handler calls per job and active jobs stay within `max_concurrency` |
| `ExecutionProofs.EveryRunIsSafe` | src/qlib_platform/control_plane/execution.py:236-306 | the same for every run that starts with an empty store |
| `ExecutionProofs.SucceededIsFinal` | src/qlib_platform/control_plane/execution.py:266-269 | once a job has succeeded its record never changes and its handler never runs again |
| `WorkerHistory.CancelledIsFinal` | src/qlib_platform/control_plane/execution.py:261-306 | a cancelled job that nobody resumes is never run again and its record never changes, over every operation sequence |
| `WorkerHistory.EveryRecordIsExplained` | src/qlib_platform/control_plane/execution.py:236-306 | over every run from the empty store a record was admitted within its quota, holds what its handler returned or raised for one of its deliveries, is cancelled only by a cancel, and is never left running |
| `WorkerHistory.CalledExactlyWhen` | src/qlib_platform/control_plane/execution.py:261-289 | an operation calls the handler if and only if it is a delivery with an id of a job neither succeeded nor cancelled, or of a new job that the quota admits |
| `WorkerHistory.SubmitRefusedExactlyWhen` | src/qlib_platform/control_plane/execution.py:47-59 | either backend refuses a new job if and only if it is over a budget or the project has no room for another active job |
| `Checkpoints.AuditedResumableDailySyncService.CertifyRecord` | src/qlib_platform/data/audited_daily_sync.py:123-134 | the five certificate fields of a succeeded record |
| `Checkpoints.AuditedResumableDailySyncService.FinishStep` | src/qlib_platform/data/audited_daily_sync.py:136-138 | the record is replaced by a succeeded one and certified |
| `Checkpoints.AuditedResumableDailySyncService.VerifyRawPromoteOutput` | src/qlib_platform/data/audited_daily_sync.py:140-160 | raises exactly when a complete change names a partition whose content differs |
| `Checkpoints.AuditedResumableDailySyncService.VerifyCheckpointRecord` | src/qlib_platform/data/audited_daily_sync.py:162-201 | upgrade, invalidation, each exception, or reusable |
| `Checkpoints.AuditedResumableDailySyncService.ValidateExistingCheckpoints` | src/qlib_platform/data/audited_daily_sync.py:203-209 | the ordered loop is the pass over the ten steps; an exception ends it |
| `Checkpoints.PassIsTheResolution` | src/qlib_platform/data/audited_daily_sync.py:162-209 | a pass that does not raise yields the only state in which each step has its fate under the digests of that same state; it raises if and only if a survivor of that state fails to verify |
| `Checkpoints.ResolutionIsUnique` | src/qlib_platform/data/audited_daily_sync.py:162-183 | survival does not depend on how it is computed |
| `Checkpoints.PassEndsSound` | src/qlib_platform/data/audited_daily_sync.py:203-209 | after a pass every succeeded step is certified, hashes the surviving predecessors, and verifies |
| `Checkpoints.SoundExactlyWhenFixed` | src/qlib_platform/data/audited_daily_sync.py:203-209 | a state is sound if and only if a pass over it raises nothing and changes nothing |
| `Checkpoints.SecondPassChangesNothing` | src/qlib_platform/data/audited_daily_sync.py:203-209 | a second pass, in any later attempt, changes nothing while the files stay the same |
| `Checkpoints.SurvivesExactlyWhen` | src/qlib_platform/data/audited_daily_sync.py:177-184 | with an injective digest a certified step survives if and only if what it hashed is what it would hash after the pass |
| `Checkpoints.InvalidationCascades` | src/qlib_platform/data/audited_daily_sync.py:68-88 | a certified step whose hashed predecessors include a step not reusable after the pass is invalidated in the same pass |
| `Checkpoints.UpgradedSurvives` | src/qlib_platform/data/audited_daily_sync.py:168-175 | an older checkpoint without a contract survives the pass that upgrades it |
| `Checkpoints.UpgradedSurvivesItsPredecessor` | src/qlib_platform/data/audited_daily_sync.py:168-184 | a state in which, whatever the digests and files, the pass invalidates a step and upgrades a later one that stays reusable, unless the stale digest in the state happens to be the true one |
| `Checkpoints.FinishKeepsSoundExactlyWhen` | src/qlib_platform/data/audited_daily_sync.py:136-138 | with an injective input digest, finishing a step keeps a sound state sound if and only if a raw promotion agrees with the stored partitions and, when a later step is finished, the step was finished before with an output of the same digest |
| `CheckpointIntegrity.QuietPassIsIntact` | src/qlib_platform/data/audited_daily_sync.py:162-209 | after a pass that does not raise every finished step has the digest of its output, the stored digest for each file of its manifest, for a raw promotion the expected content of each complete change, and the digest of its input |
| `CheckpointIntegrity.PassRaisesExactlyWhen` | src/qlib_platform/data/audited_daily_sync.py:162-209 | a pass raises if and only if a step that survives it violates one of these |
| `CheckpointIntegrity.DamageIsDetected` | src/qlib_platform/data/audited_daily_sync.py:184-200 | a certified step that violates one of these makes the pass raise, or is invalidated because its input changed |
| `CheckpointIntegrity.FinishRecordsEverything` | src/qlib_platform/data/audited_daily_sync.py:90-138 | finishing a step records its output, attempt, digests and exactly the files under the roots of that step |
| `CheckpointIntegrity.ChangedFileIsDetected` | src/qlib_platform/data/audited_daily_sync.py:186-196 | a file that a finished step covers and that has changed or gone makes a later pass raise, or the step is invalidated because its input changed |
| `CheckpointIntegrity.SameInputExactlyWhen` | src/qlib_platform/data/audited_daily_sync.py:68-88 | with an injective digest two inputs agree if and only if plan, step and the output digests of the earlier finished steps do |
| `CheckpointIntegrity.PlanChangeInvalidates` | src/qlib_platform/data/audited_daily_sync.py:64-88 | under another plan a pass that does not raise leaves no certified step reusable |
| `CheckpointIntegrity.InvalidatedKeepsEvidence` | src/qlib_platform/data/audited_daily_sync.py:177-183 | an invalidated step keeps its output, digests, files and attempt, with the reason |
| `CheckpointIntegrity.UpgradeKeepsOutput` | src/qlib_platform/data/audited_daily_sync.py:123-134 | an upgrade keeps the output and the recorded attempt |
| `AuditLog.TamperEvidentAuditLog.AppendEvent` | src/qlib_platform/auth/audit.py:87-161 | refuses blank fields, sensitive metadata and duplicate ids or hashes; otherwise one row chained to the last |
| `AuditLog.TamperEvidentAuditLog.Verify` | src/qlib_platform/auth/audit.py:188-212 | accepts exactly the logs whose every link holds and whose head is the expected one, and reports length and head |
| `AuditLog.BuiltLogVerifies` | src/qlib_platform/auth/audit.py:87-161 | every log built by append verifies, keeps the table constraints and only grows, failed calls included |
| `AuditLog.HashFixesPrefix` | src/qlib_platform/auth/audit.py:119-129 | with a collision-free digest, an event hash determines its row, its place and everything before it |
| `AuditLog.AnchorAcceptsOnlyItsLog` | src/qlib_platform/auth/audit.py:58-63 | against the head of a verifying log, verify accepts that log and no other |
| `AuditLog.TruncationNeedsTheAnchor` | src/qlib_platform/auth/audit.py:61-62 | a truncated log verifies without the anchor and fails with it |
| `AuditLog.AppendFailsExactlyWhen` | src/qlib_platform/auth/audit.py:107-145 | on a verifying log append fails if and only if a field is blank, metadata is sensitive, or the id is taken |
| `AuditLog.AcceptsExactlyWhen` | src/qlib_platform/auth/audit.py:188-212 | a log is accepted if and only if its rows are numbered from one, each hash is the digest of its row, each row names the digest of the row before, and the last digest is the expected head |
| `AuditHistory.LogIsItsCalls` | src/qlib_platform/auth/audit.py:87-161 | with a collision-free digest the log of any run of calls has exactly one row for each complete call without secrets and with a new id, in order, and each row holds the fields of its call |
| `TargetInstruction.ScanTargets` | src/qlib_platform/artifacts/artifact_contract_v3.py:185-228 | the accumulating row loop computes the row-by-row definition, first error included |
| `TargetInstruction.CanonicalizeTargetInstructionV3` | src/qlib_platform/artifacts/artifact_contract_v3.py:136-316 | the whole canonicalisation, over all four instruction types |
| `TargetInstructionProofs.ScanExactlyWhen` | src/qlib_platform/artifacts/artifact_contract_v3.py:185-228 | rows are accepted if and only if each is readable and no instrument repeats; gross and net are then the exact sums |
| `TargetInstructionProofs.RowOrderIsIrrelevant` | src/qlib_platform/artifacts/artifact_contract_v3.py:185-316 | the same rows in any order are accepted or refused alike, with the same canonical form |
| `TargetInstructionProofs.CanonicalFormIsStable` | src/qlib_platform/artifacts/artifact_contract_v3.py:136-316 | canonicalising is idempotent: for every observer the canonical form reads exactly like the instruction it came from |
| `TargetInstructionProofs.ExecutabilityIsStable` | src/qlib_platform/artifacts/artifact_contract_v3.py:319-327 | the executable-at check answers alike on an instruction and its canonical form |
| `TargetInstructionProofs.ExecutableExactlyWhen` | src/qlib_platform/artifacts/artifact_contract_v3.py:319-327 | an acceptable instruction is executable if and only if it is a target or cash instruction, already produced, and inside its trading window |
| `TargetInstructionProofs.AcceptedIsSound` | src/qlib_platform/artifacts/artifact_contract_v3.py:185-316 | accepted targets are distinct and sorted, weights within [-1, 1], FX evidence exactly for foreign currency and neither stale nor later than the as-of time, exposures exact and within risk limits |
| `InstructionMeaning.RowExactlyWhen` | src/qlib_platform/artifacts/artifact_contract_v3.py:185-228 | a row reads as an item if and only if the item has its instrument, weight, currency and score and, for a foreign currency, its FX evidence, all within bounds |
| `InstructionMeaning.PatternsExactlyWhen` | src/qlib_platform/artifacts/artifact_contract_v3.py:17-20 | which texts are currencies, digests, artifact ids and instrument ids |
| `InstructionMeaning.HeaderExactlyWhen` | src/qlib_platform/artifacts/artifact_contract_v3.py:136-180 | which headers are accepted, and what each field of the result says |
| `InstructionMeaning.CanonicalExactlyWhen` | src/qlib_platform/artifacts/artifact_contract_v3.py:136-316 | the result is the one form whose header, rows and type read as the instruction says, with its rows sorted and its exposures summed; without such a form it is refused |
| `TieCheck.PopMatches` | src/qlib_platform/backtesting/strategy_audit.py:108-126 | popping the first match of each value decides multiset inclusion and leaves the difference |
| `TieCheck.SideIsTied` | src/qlib_platform/backtesting/strategy_audit.py:128-135 | comparing sorted scores decides multiset equality of finite scores |
| `TieCheck.ShortfallIsExplained` | src/qlib_platform/backtesting/strategy_audit.py:99-127 | a SELL shortfall is accepted exactly when requested scores are included in planned ones and the rest in the scores of other holdings below `hold_thresh` |
| `TieCheck.OrdersMatchOrTieEquivalent` | src/qlib_platform/backtesting/strategy_audit.py:80-136 | accepts exactly: known actions, and equal orders or (unless the policy is rank-buffer) tied buys and tied or explained sells |
| `TieCheck.WithoutTiesOnlyEquality` | src/qlib_platform/backtesting/strategy_audit.py:88-95 | without ties among traded and held names the check is equality of the orders, whatever the policy |
| `TieCheck.ToleranceKeepsSizes` | src/qlib_platform/backtesting/strategy_audit.py:96-103 | a tolerated substitution has as many buys as planned and never more sells |
| `TieCounts.EquivalentExactlyWhen` | src/qlib_platform/backtesting/strategy_audit.py:80-136 | accepts if and only if actions are known and the orders are equal or, except under rank-buffer, each score is bought as often as planned, and sold as often or less often by at most its holdings too young to sell |

## Left out

- Float rounding, NaN and infinities: arithmetic is exact; missing values are options, and fill ratio and capacity utilisation are not bounded because fills and capacity use different prices.
- Frame normalisers, dtype coercion, `infer_price_limit_pct` and `resolve_limits`: a market row arrives with its price limits and lifecycle rejection already resolved.
- Raw weight signals and `_normalise_selection`: the allocation is proved for every signal vector.
- `_mark_account` equity and cost columns, `record_positions`, summaries: single-formula reports; only the error for a held name without a row is modelled.
- The check that corporate actions need a raw price basis: a configuration guard.
- Row tables of the decisions (columns other than the action, and the reasons of blocked buys), reports, exposure overlays and strategy descriptors.
- Order sizing in `RankBufferStrategy.generate_trade_decision` and the A-share strategy wrappers: amounts come from Qlib's exchange; only the selection is modelled.
- Qlib's own `check_order`, `deal_order` and price calculation: their results are parameters of the guard.
- ExchangeGuard.GuardAgreesWithSimulator: assumes an adjustment factor below 1e9 for the name and date, because the guard's absolute tolerance of 1e-9 is then less than one share; ExchangeGuard.GuardMeasuresSimulator has no such bound.
- ExchangeGuard.GuardedSellsWithinOpening: one account per guard, and Qlib deals between zero and the ordered amount; calls on other positions are part of the run but do not move the account.
- AShareCash.CashFallsAtMostByFloors: assumes rates within the notional and rows on which a sell cannot receive less than nothing, both readable from the input (for AShareCash.CoveringRowsKeepCash, rows that cover the fees of one share); without them AShareInvariants.ReachableKeeps bounds the fall of cash by what sells cost beyond their proceeds.
- MarketRules.FitBuyToCash: its own clause states equality with the exhaustive search for prices that are not negative; CashFitting.FitIsLargestExactlyWhen says when it holds for all prices.
- The input errors of `topk_dropout_decision` (no scores, no quotes when required): its days are those that pass these checks.
- Handlers that themselves use the store, and `ExecutionRequest` field checks: the handler is a function of the request, and the business id a function of it too.
- Checkpoint timestamps and `_save_apply_state`: files and clocks; a state whose `steps` or records are not objects is treated as having none, and step names outside the ten are not represented (the pass ignores them).
- `apply_plan` of the parent services: only the checkpoint pass and `_finish_step` are modelled.
- Artifact discovery: the files under a step's roots are given by a root set per path; resolving the active dataset is a parameter.
- SQLite transactions, locks and `events()` parsing: the table is the sequence of its rows in order, with its UNIQUE constraints; the sequence number is its primary key.
- Timestamp and number parsing: instants are integers in microseconds, and unreadable values are explicit; shape errors of the JSON (a list where an object is expected) are not.
- TargetInstruction.CanonicalizeTargetInstructionV3: upper-casing and trimming are those of ASCII text.
- TargetInstructionProofs.RowOrderIsIrrelevant: acceptance and output are independent of row order; the message of a refusal is not, since it names the first bad row.
- `negotiate_contract_version`, artifact identities, object and metadata stores, RBAC, tokens, settings, CLI: easy or mostly declarative members.
