# Verified model of the client trading core

This project models the live trading core of one client container: the runner that turns
SuperTrend flips into sliced exit and entry legs and rolls its position from one futures contract
to the next, the indicator it follows, the calendar and contract choice behind rollovers, the
watchdog that reconciles targets with the broker, the order gateway, and the token, rate-limit and
crash-recovery protocols around them.

The broker, the clock, the price feed and crashes are inputs: a script that fixes the outcome of
the n-th order, a list of clock readings, a list of events. Safety theorems quantify over all of
them; the few that promise progress (tracking the trend, a due rollover, convergence) ask for orders
that are accepted and say so in their row. An order outcome is accepted, refused, unknown (timed out,
and it may or may not have landed), or a crash while the order was being sent; a process may also die
between the legs of a rollover and the write of the contract pointer. The gateway and the watchdog
work on the broker's replies to single orders instead.

Code that changes state step by step is modelled by classes and loops (`Runner.SuperTrendRunner`,
`SuperTrend.LiveChart`, `Reconcile.Watchdog`, `TokenBucket.RateLimiter`, `Recovery.SignalStore`, the
slice, indicator, cutoff and order loops). Each method is proved to compute a specification
function of its old state, and the theorems are about those functions. Single flight and crash
recovery are interleaving state machines.

## How the pieces fit

- `Slicing`, `Gateway`, `ErrorText`: cutting a quantity at the freeze limit, posting the slices, one
  repetition after a session error, and what the texts of errors are taken for. They justify the
  outcomes the runner's specification works with, and the watchdog's slices go through them.
- `RunnerModel` (specification), `Runner` (object), `RunnerLedger` (accounting of a leg),
  `RunnerSafety` (flip and synchronisation), `RunnerRuns` (rollover and whole runs), `RunnerTotals`
  (conservation over all contracts), `RunnerProgress` (when it must trade, retry and
  complete), `RunnerLimits` (where bookkeeping stops being exact, with the condition).
- `Indicator`, `SuperTrend`: the indicator over exact reals, its loops, and the live chart.
- `Tracking`: the runner driven by the indicator.
- `Calendar`, `FrontMonth`: rollover cutoff, resolution of a continuous symbol, forward-only
  rollover of runs.
- `Reconcile` (one pass of the watchdog), `ReconcileDrift` (what it does to the drift),
  `ReconcileHistory` (latch and backoff over runs).
- `TokenBucket`, `SingleFlight`, `Recovery`, `TickSize`: the protocols and rounding.

## Where the code does not meet a stated intention

Each point is a theorem with the exact condition, and a concrete failing input.

- A rollover retry re-sends the full quantity, and a failed entry calls the position zero whatever
  its slices did. A rollover keeps the ledger for every broker iff the position is one slice
  (`RolloverKeepsLedgerIff`, inputs in `OverExitBreaksLedger` and `FailedEntryIsWrittenOff`), and all
  runs keep it iff the configured quantity is one slice (`RunsKeepLedgerIff`, `OversizedRunMisbooks`).
- The entry leg of a rollover persists the new lots under the old contract; a process that dies
  before the pointer is written books them on the wrong contract (`RollStepKeepsLedgerIff`,
  `RestartBeforePointerMisbooks`, `RestartWitness`).
- A flip whose first entry is refused for margin and whose retry is accepted completes with the runner
  enabled but still marked as paused for margin until its next evaluation, so that the watchdog
  stands aside meanwhile (`FlipCompletesIff`).
- Synchronisation on demand ignores the active contract (`SyncKeepsLedgerIff`, `SyncWitness`).
- The expiry guard of a fixed contract records a zero position whatever its exit did
  (`ExpiryIsExactIff`, `ExpiryWitness`).
- The slicing comment promises freeze-compliant, lot-aligned chunks: a lot above the limit is sent
  whole, and an unaligned quantity stays unaligned (`FreezeCompliance`, `LotAlignment`).
- The engine and the gateway cut with their own lot size and limit. The engine's lot size starts
  from the configuration (client/supertrend_engine.py:378) and is refreshed only by an evaluation
  (1054), so synchronisation can send a slice that the gateway cuts again; a partial failure of it
  is then counted in full (`LegComposesIff`, `LegIsAllOrNothingIff`, `StaleLotSizeWitness`).
- The retry logic looks for 502, 503 and 504 in the message of a partial failure, which holds two
  quantities of the client's own: such a part is recorded as failed while it is on the exchange
  (`PartIsRecordedFailedIff`, `MisreadWitness`).
- An error that landed but reads like a lost session is sent twice (`SliceLandsTwiceIff`,
  `LandsTwiceWitness`).
- When every contract of a root is past rollover the resolution falls back to the earliest
  (`PickMovesForwardIff`, `FallbackWitness`).
- The engine's ratchet differs from the Pine script it names when a close sits exactly on a band
  (`PineParityIff`, `TieWitness`).
- The watchdog acts on a report fetched before its checks and on a target read after them, cuts with
  a limit the configuration does not define (client/supertrend_engine.py:2511) and counts a partial
  failure as filled: when all slices count it ends at the target iff the report tells the lots held
  and the largest slice passes the gateway uncut (`FullAcceptanceHitsTargetIff`, `StaleReportWitness`,
  `PartFillWitness`). What it sends respects the safety cap iff the late target does
  (`BatchRespectsCapIff`, `MovedTargetWitness`).
- A refusal behind a booked part of a slice, for margin or not, neither latches nor backs off
  (`PartHidesRefusalIff`, `PartFillWitness`).
- An order that lands behind a session-like error makes the correction overshoot (`NoOvershootIff`,
  `BlindRepeatOvershoots`).
- The margin breaker gives every runner of a symbol the same reported lots
  (`BreakerRemovesDriftIff`, `BreakerWitness`).
- The rejection history lives in the process: a restart, like an enabling toggle, ends a latch and a
  backoff at once (`LatchHoldsIff`, `SuppressionHoldsIff`, `ResetRepeatsAtOnce`).
- A broker status in neither recovery list re-queues a signal that had begun (`SecondExecutionIff`,
  `SecondExecutionWitness`).
- A tick above one with a fraction is rounded off the tick grid (`SnapIsMultipleIff`).

## Model

| member | source | states |
|---|---|---|
| Slicing.SliceQuantityForFreeze | client/xts_api.py:1350-1370 | the slice loop conserves the quantity in positive slices and computes the specified cut |
| Slicing.SlicesConserve | client/xts_api.py:1350-1370 | slices add up to the quantity for all limits and lot sizes |
| Slicing.SlicesAreFewest | client/xts_api.py:1363-1370 | no cutting into pieces within the effective freeze uses fewer pieces |
| Slicing.FreezeCompliance | client/xts_api.py:1353-1363 | all slices respect the limit iff nothing was cut or one lot fits under it |
| Slicing.LotAlignment | client/xts_api.py:1354-1363 | slices are whole lots iff the quantity is |
| Slicing.LegComposesIff | client/xts_api.py:1428-1490 | every slice of a leg is one gateway order iff the largest engine slice fits the gateway, for any limit and lot size on either side |
| Slicing.SliceIsOneOrderIff | client/xts_api.py:1350-1370 | lots times lot size pass uncut iff they fit; otherwise the first piece is a proper part |
| Slicing.EngineSliceIsOneOrder | client/supertrend_engine.py:1674-1676 | with one limit and lot size on both sides every engine slice is one gateway order, even for a lot above the freeze limit |
| Slicing.LegUnits | client/xts_api.py:1430-1431 | units of all orders of a leg equal lots times lot size |
| Slicing.FreezeLotsMeaning | client/supertrend_engine.py:1674-1675 | without a limit a leg of up to 100000 lots is one slice; with one, as many lots as fit under it |
| Gateway.PlaceOrder | client/xts_api.py:1489-1702 | the posting loop stops at the first reply that is no booking and reports the booked prefix |
| Gateway.ExecuteTradeWithRetry | client/xts_api.py:1288-1320 | only a session error of the first attempt is sent again; a partial failure of the first attempt whose text holds a gateway code becomes a time-out |
| Gateway.SentAgainIff | client/xts_api.py:1288-1320 | for every broker an order is posted again iff the first reply is declined, garbled or dropped with a session-like text; a time-out, a rate limit or a rejection ends the dispatch after one posting |
| Gateway.LandedBehindAuthErrorIff | client/xts_api.py:1303-1315 | an order lands behind a session-like error iff its reply was garbled or dropped with such a text after it landed |
| Gateway.SizeCapsIff | client/xts_api.py:1441-1448 | a booking broker gets an order iff it is within the caps on lots and on units; else nothing is posted |
| ErrorText.ReadsAsTimeoutIff | client/xts_api.py:1291-1303 | the message of a partial failure holds 502, 503 or 504 iff the decimal digits of one of its two quantities do |
| ErrorText.DecimalHasCodeIff | client/xts_api.py:1693 | the decimal text of a number holds such a code iff three consecutive digits of the number are one |
| Gateway.PlaceReportsPrefix | client/xts_api.py:1674-1702 | success means all units landed, partial failure a proper booked prefix, a rejection none |
| Gateway.EngineSliceIsAllOrNothing | client/main.py:410-423 | a slice that fits the gateway is done or failed, and counted iff its last attempt was booked in full |
| Gateway.LegIsAllOrNothingIff | client/supertrend_engine.py:1704-1725 | no broker makes a slice of a leg recorded as a partial failure iff every slice the gateway takes fits it |
| Gateway.LegLandsWholeIff | client/xts_api.py:1574-1702 | for every broker each attempt at a slice of a leg lands whole or not at all, whatever is recorded, iff every slice the gateway takes fits it |
| Gateway.PartIsRecordedFailedIff | client/xts_api.py:1295-1306 | a part booked at the first attempt is recorded as failed iff the message about it holds a gateway code, else as a partial failure |
| Gateway.MisreadWitness | client/xts_api.py:1303-1306 | forty-two lots of which 23 land while the signal is recorded as failed |
| Gateway.ExecuteLands | client/xts_api.py:1288-1320 | for every broker a dispatch lands at most twice its units, at least its units when done, something when partial, and never too much unless an order landed behind a session-like error |
| Gateway.LandedIsLots | client/xts_api.py:1489-1702 | whatever lands is a whole number of lots |
| Gateway.MatchingLegIsAllOrNothing | client/supertrend_engine.py:1674-1676 | with one limit and lot size on both sides no slice of a leg is recorded or lands in part |
| Gateway.CutSliceEndsPartially | client/supertrend_engine.py:1704-1725 | any slice that is taken and does not fit ends partially for some broker, and a flip counts all of it |
| Gateway.CutSliceLandsInPart | client/xts_api.py:1574-1702 | refused behind its first order, such a slice lands that order only, recorded as partial or, when the text misleads, as failed |
| Gateway.StaleLotSizeWitness | client/supertrend_engine.py:378 | fifty lots cut with a lot size of one are counted in full though part of them landed |
| Gateway.SliceLandsTwiceIff | client/xts_api.py:1303-1315 | a fitting slice lands at most once, except exactly when the first attempt landed behind a session-like error and the second landed too |
| Gateway.LandsTwiceWitness | client/xts_api.py:1303-1315 | replies for which one lot lands twice |
| Gateway.OutcomeIsFaithfulIff | client/supertrend_engine.py:1704-1725 | the outcome of a fitting slice is accepted iff counted, and tells the units landed exactly iff no attempt landed behind a session-like error or the second one failed without a verdict |
| Runner.SuperTrendRunner.SaveRow | client/main.py:286-303 | the row takes the position and keeps the stored contract when the runner has none |
| Runner.SuperTrendRunner.DispatchSlice | client/supertrend_engine.py:1786-1819 | one slice: order logged, position and row updated only when accepted |
| Runner.SuperTrendRunner.ExecuteLeg | client/supertrend_engine.py:1652-1837 | exit and entry legs: size guard, slices until the first failure |
| Runner.SuperTrendRunner.FlipTo | client/supertrend_engine.py:1479-1565 | the flip with one retry per leg recomputing the rest |
| Runner.SuperTrendRunner.RollTo | client/supertrend_engine.py:1105-1200 | the rollover legs with full-quantity retries, then the pointer |
| Runner.SuperTrendRunner.CheckRollover | client/supertrend_engine.py:1062-1242 | contract check: first assignment, flat switch, closed market, opening buffer, rollover |
| Runner.SuperTrendRunner.EvaluateBar | client/supertrend_engine.py:1376-1567 | order check, closed market, stale guard, duplicate-bar guard, flip |
| Runner.SuperTrendRunner.EvaluateCycle | client/supertrend_engine.py:1021-1567 | one evaluation cycle; it keeps the accounting invariant when its rollover fits |
| Runner.SuperTrendRunner.Handle | client/supertrend_engine.py:383-412 | one event of a run, a dying process included; it keeps the accounting invariant when its rollover fits |
| Runner.SuperTrendRunner.SetEnabled | client/supertrend_engine.py:2076-2089 | a toggle changes the enabled state and status, enabling forgets the margin error |
| Runner.SuperTrendRunner.SyncToTrend | client/supertrend_engine.py:838-937 | synchronisation on demand |
| Runner.SuperTrendRunner.SquareOffExpired | client/supertrend_engine.py:1253-1266 | expiry guard of a fixed contract |
| Runner.SuperTrendRunner.RestartFromRow | client/supertrend_engine.py:383-406 | a new process resumes from the persisted row |
| RunnerLedger.LegAddsPrefix | client/supertrend_engine.py:1678-1743 | a leg adds a signed prefix of its slices and reports success iff all were accepted |
| RunnerLedger.LegBooks | client/supertrend_engine.py:1770-1837 | broker lots change as the position does plus what landed unseen; the row follows every slice |
| RunnerLedger.LegSends | client/supertrend_engine.py:1770-1797 | orders of a leg carry its slices in order, none sent behind the starting position |
| RunnerSafety.FlipReachesTarget | client/supertrend_engine.py:1479-1565 | any outcomes: completes at max(position, quantity) or its mirror, or is disabled in between; no entry while on the other side |
| RunnerSafety.SyncReachesTarget | client/supertrend_engine.py:838-937 | synchronisation that succeeds reaches the same target |
| RunnerProgress.TradesIff | client/supertrend_engine.py:1021-1567 | against an accepting broker an evaluation with nothing to roll sends something iff the runner is enabled and not paused, its orders are clear, the market is open, the bar carries a flip that is neither processed nor swallowed at start-up, and the position is short of the target, which it then reaches |
| RunnerProgress.TradesOnlyWhen | client/supertrend_engine.py:1376-1477 | for every broker and state those conditions are necessary |
| RunnerProgress.OpenOrdersSilence | client/supertrend_engine.py:1376-1380 | with an order of its own still open an evaluation sends nothing and moves nothing |
| RunnerProgress.FlipCompletesIff | client/supertrend_engine.py:1479-1565 | one-slice legs, any outcomes but a crash: paused as exit failed iff two exit orders are not accepted, paused flat iff two entry orders are not, else complete at the target |
| RunnerProgress.OneFailureIsHealed | client/supertrend_engine.py:1483-1546 | any number of slices: a flip in which at most one order fails completes at the target |
| RunnerProgress.RolloverCompletesIff | client/supertrend_engine.py:1105-1215 | one-slice legs, any outcomes but a crash: given up iff two exit orders are not accepted, flat and paused on the new contract iff three entry orders in a row are not, else complete |
| RunnerProgress.AcceptedSyncIsSynced | client/supertrend_engine.py:838-937 | against an accepting broker synchronisation reports success at the target |
| RunnerProgress.SyncSucceedsIff | client/supertrend_engine.py:838-937 | one-slice legs are tried once each; what is left and whether the runner pauses in each case of failure |
| RunnerProgress.SizeGuardIff | client/supertrend_engine.py:1655-1668 | an accepting broker fills a leg iff its size is positive and at most five times the quantity or fifty |
| RunnerProgress.QueuedRollover | client/supertrend_engine.py:1071-1098 | a due rollover outside market hours or in the opening minute is marked pending and keeps everything else; an unknown old contract pauses the runner |
| RunnerProgress.IdleEvaluations | client/supertrend_engine.py:1021-1045 | disabled, paused or unresolved evaluations change nothing but the status |
| RunnerProgress.WaitingEvaluations | client/supertrend_engine.py:1382-1423 | without data, outside market hours, on a forming bar or without a fresh flip an evaluation changes the status only; a bar swallowed at start-up is remembered as processed |
| RunnerProgress.ToggleChangesOnly | client/supertrend_engine.py:2081-2088 | what a toggle changes, and nothing else |
| RunnerProgress.RestartForgetsOnly | client/supertrend_engine.py:383-412 | what a restart forgets, and nothing else |
| RunnerProgress.ExpiryPauses | client/supertrend_engine.py:1253-1266 | after the expiry guard the runner is paused as expired with a zero row |
| RunnerRuns.RolloverKeepsInv | client/supertrend_engine.py:1105-1200 | a single-slice rollover keeps the accounting invariant |
| RunnerRuns.RolloverKeepsBooks | client/supertrend_engine.py:1105-1200 | a single-slice rollover keeps the ledger, whatever the orders become |
| RunnerRuns.StepKeepsInv | client/supertrend_engine.py:1021-1567 | every event, crash and restart keeps the accounting invariant, if a rollover in it is one slice whose pointer gets written (exact by RunnerLimits.RollStepKeepsLedgerIff) |
| RunnerRuns.EveryRunIsAccounted | client/supertrend_engine.py:1062-1242 | over all runs with such rollovers and all brokers: lots per contract are the persisted position on its contract plus exactly the orders that landed unseen; never two contracts booked (exact by RunnerLimits.RunsKeepLedgerIff) |
| RunnerRuns.AllLotsInActiveContract | client/supertrend_engine.py:466-478 | in such runs without unseen landings all lots sit in the active contract and equal position and row |
| RunnerRuns.PointerLeavesEmptyContract | client/supertrend_engine.py:1194-1231 | with a single-slice rollover the pointer leaves a contract only when nothing is booked on it, and only for the resolved one |
| RunnerRuns.SmallQuantityRollsFit | client/supertrend_engine.py:1108-1134 | a quantity within the freeze limit makes every rollover of every run a single slice |
| RunnerTotals.EveryLotIsPositionOrWrittenOff | client/supertrend_engine.py:1062-1242 | for every broker and every run, crashes at any point and rollovers of any number of slices included: lots booked over all contracts are the position plus exactly what failed rollover entries wrote off |
| RunnerTotals.TotalIsSumOverContracts | client/supertrend_engine.py:1770-1837 | all accepted lots are the sum over any contracts that cover the orders |
| RunnerTotals.OneSliceWritesNothingOff | client/supertrend_engine.py:1164-1182 | a rollover of one slice writes nothing off |
| RunnerLimits.RunsKeepLedgerIff | client/supertrend_engine.py:1062-1242 | for every broker and every run whose pointers get written the ledger stays true, iff the configured quantity is one slice |
| RunnerLimits.OversizedRunMisbooks | client/supertrend_engine.py:1124-1134 | a run of two bars that misbooks a larger quantity |
| RunnerLimits.RolloverKeepsLedgerIff | client/supertrend_engine.py:1105-1200 | a rollover, both legs and pointer, keeps the ledger for every broker iff the position is one slice |
| RunnerLimits.OverExitBreaksLedger | client/supertrend_engine.py:1124-1134 | a refused second exit slice leaves lots on the old contract |
| RunnerLimits.FailedEntryIsWrittenOff | client/supertrend_engine.py:1153-1182 | a failed entry with one accepted slice records zero while that slice stays on the new contract |
| RunnerLimits.RolloverIsExactIffOneSlice | client/supertrend_engine.py:1124-1134 | success of the exit empties the position for every broker iff the leg is one slice or too large to be sent |
| RunnerLimits.RollStepKeepsLedgerIff | client/supertrend_engine.py:1094-1231 | an evaluation that rolls keeps the ledger for every broker iff the position is one slice and the process lives until the pointer is written |
| RunnerLimits.RestartBeforePointerMisbooks | client/supertrend_engine.py:1195-1200 | an accepted rollover whose process dies before the pointer write books the lots on the old contract |
| RunnerLimits.RestartWitness | client/supertrend_engine.py:1195-1200 | a reachable runner of one lot to which this happens |
| RunnerLimits.SyncKeepsLedgerIff | client/supertrend_engine.py:838-937 | synchronisation keeps the ledger for every broker iff resolved and active contract agree or the position is the target already |
| RunnerLimits.SyncWitness | client/supertrend_engine.py:845-886 | a reachable runner whose ledger it breaks |
| RunnerLimits.AcceptedSyncMoves | client/supertrend_engine.py:839-886 | against an accepting broker it always reaches the target |
| RunnerLimits.ExpiryIsExactIff | client/supertrend_engine.py:1253-1266 | the position after the expiry guard is what is booked iff the size was permitted and every exit slice is accepted, or the process dies in the leg |
| RunnerLimits.ExpiryWitness | client/supertrend_engine.py:1253-1266 | a reachable runner whose refused exit is recorded as zero |
| RunnerLimits.DueRolloverCompletes | client/supertrend_engine.py:1094-1215 | with orders accepted, a due rollover of any number of slices completes in that cycle with the position preserved on the resolved contract |
| Indicator.BandsAreCausal | client/supertrend_engine.py:226-300 | average, bands and trend of a bar depend on bars up to it only |
| Indicator.NonRepainting | client/supertrend_engine.py:180-300 | results on a prefix of the feed are the first results on the whole, in both modes, through the filter |
| Indicator.FlipIffTrendChanges | client/supertrend_engine.py:302-311 | a flip is reported iff the last two trends differ and names the new one |
| Indicator.SeedFromCandles | client/supertrend_engine.py:240-273 | the first bands and trend, from the candles: middle of the bar plus and minus the multiplier times the mean true range, up iff the close is not below the lower one |
| Indicator.OneBarTrend | client/supertrend_engine.py:291-298 | a close beyond a band of the bar before decides the trend of the bar, both at once turn it, none keeps it |
| Indicator.TrendIsLastBreak | client/supertrend_engine.py:267-298 | on any series without closes beyond both bands the trend is up iff the last break was upwards, or none went down and the seed was up |
| Indicator.OrderedBandsBreakOnce | client/supertrend_engine.py:291-298 | while the bands are in order no close lies beyond both |
| Indicator.OneBarRatchet | client/supertrend_engine.py:279-289 | a band tightens with the basic one and starts afresh after a close beyond it |
| Indicator.UpTrendLastsIff | client/supertrend_engine.py:291-298 | an up trend lasts iff no close falls below the lower band of the bar before |
| Indicator.DownTrendLastsIff | client/supertrend_engine.py:291-298 | the dual for a down trend |
| Indicator.BandsCrossIff | client/supertrend_engine.py:279-289 | bands in order cross exactly on gap bars |
| Indicator.TrueRangeIsSpan | client/supertrend_engine.py:227-236 | the true range is the span of the bar and the previous close |
| Indicator.TrueRangeOfFirst | client/supertrend_engine.py:231-232 | the first true range is the height of the bar |
| Indicator.SettingsAreSane | client/supertrend_engine.py:177-178 | period and multiplier are raised to one and a tenth, and only when below |
| Indicator.InsufficientIff | client/supertrend_engine.py:205-219 | a feed is refused iff it has no more clean candles than the period |
| Indicator.SeriesStartsAtFirstAverage | client/supertrend_engine.py:313-340 | the series carries zeros before the first average and the values of each bar from then on |
| Indicator.BandDistanceFollowsRanges | client/supertrend_engine.py:227-267 | basic bands stand around the middle of the bar, between multiplier times the smallest and the largest true range so far, and never cross |
| Indicator.AtrWithinExtremes | client/supertrend_engine.py:239-251 | both averages lie between the extremes of the true ranges so far |
| Indicator.WilderForgets | client/supertrend_engine.py:240-247 | series sharing true ranges differ by the old difference times ((p-1)/p)^k, whatever their start |
| Indicator.WindowEffectShrinks | client/supertrend_engine.py:240-247 | the effect of a different start window never grows |
| Indicator.LowerBandIsRunningMax | client/supertrend_engine.py:285-289 | while closes stay on or above it the lower band is the greatest since its start |
| Indicator.UpperBandIsRunningMin | client/supertrend_engine.py:279-283 | the dual for the upper band |
| Indicator.PineParityIff | client/supertrend_engine.py:277-298 | code and Pine recursion agree on a series iff no close ties with a band about to loosen |
| Indicator.TieWitness | client/supertrend_engine.py:277-298 | three bars after which the engine has flipped and the script has not |
| SuperTrend.CleanCandles | client/supertrend_engine.py:180-202 | the cleaning filter keeps exactly the well-formed candles in order |
| SuperTrend.FillWilder | client/supertrend_engine.py:240-247 | the smoothing loop fills the Wilder averages |
| SuperTrend.FillBands | client/supertrend_engine.py:253-300 | the band loop fills the ratcheted bands and trend |
| SuperTrend.CalculateSuperTrend | client/supertrend_engine.py:143-353 | the whole indicator, including the insufficient-data answer |
| SuperTrend.LiveChart.UpdateLiveTick | client/supertrend_engine.py:988-1019 | a tick updates the last cached bar and the forming bands |
| SuperTrend.TicksMoveOnlyTheLastBar | client/supertrend_engine.py:1000-1012 | any ticks change only the last bar, whose high and low become running extremes |
| SuperTrend.NoPriceNoTick | client/supertrend_engine.py:993-996 | prices that are not positive leave the chart as it was |
| SuperTrend.ShortChartIsFrozen | client/supertrend_engine.py:1010-1012 | a chart too short for the indicator keeps its candles whatever the ticks |
| SuperTrend.TicksDoNotRepaint | client/supertrend_engine.py:988-1017 | ticks leave every earlier plotted bar as it was |
| Tracking.FirstPollOfBar | client/supertrend_engine.py:1425-1567 | the first poll of a bar trades its flip unless the start-up guard applies |
| Tracking.RepeatedPollIsSilent | client/supertrend_engine.py:1464-1465 | polling a bar again dispatches nothing |
| Tracking.EngineTracksIndicator | client/supertrend_engine.py:1425-1567 | with orders accepted, from the first dispatched order on the position is quantity times the trend of the last closed bar |
| Calendar.RolloverCutoff | client/config.py:217-228 | the loop terminates for any finite holiday table at the greatest trading day up to expiry minus eight, 14:00 |
| Calendar.LastTrading | client/config.py:221-222 | stepping back reaches the greatest trading day not after the limit |
| Calendar.FailSafeIsRedundant | client/config.py:246-252 | past rollover iff at or after the cutoff |
| Calendar.CutoffIsMonotone | client/config.py:205-228 | a later expiry never has an earlier cutoff |
| Calendar.PastRolloverIsMonotone | client/config.py:230-252 | past rollover is monotone in time and antitone in expiry |
| Calendar.CutoffDayIsTradable | client/config.py:126-203 | from the cutoff to the close the market is open and not stabilising |
| Calendar.MarketHours | client/config.py:126-181 | opening and closing second of each segment on normal days, morning holidays, full holidays and weekends |
| Calendar.StabilisingIsFirstMinute | client/config.py:183-203 | the opening buffer is exactly the first minute in which the commodity market is open |
| Calendar.WeekdaysRepeat | client/config.py:151-153 | weekdays advance by one, repeat after seven days and start on a Monday |
| Calendar.NotAfterIsOrder | client/config.py:251-252 | moments are compared by day and second, which orders them totally |
| FrontMonth.ResolveFrontMonth | client/xts_api.py:795-829 | the filter loop and the index pick with its fallback |
| FrontMonth.ResolutionIsPick | client/xts_api.py:795-829 | live contracts are a suffix and the pick is index min(s+depth-1, n-1) |
| FrontMonth.LiveUntil | client/xts_api.py:795-817 | an exchange derivative is live while more than the minimum days remain, a commodity before its cutoff |
| FrontMonth.PickMovesForwardIff | client/xts_api.py:818-829 | the pick never moves back iff a live contract remains or the fallback was already chosen |
| FrontMonth.FallbackWitness | client/xts_api.py:818-829 | two contracts for which it moves back |
| FrontMonth.PointerFollowsResolution | client/supertrend_engine.py:1194-1231 | in every run the pointer moves only to the resolved contract |
| FrontMonth.AtMostOneSwitchPerContract | client/supertrend_engine.py:1071-1231 | any run with a forward clock and a live contract, failed resolutions included, switches at most n-1 times |
| FrontMonth.CutoffDayRollsOver | client/supertrend_engine.py:1071-1231 | with orders accepted, an evaluation on the cutoff day leaves the contract: pointer on the resolved one, nothing booked on the old |
| Reconcile.Watchdog.DispatchSlice | client/supertrend_engine.py:2513-2559 | a corrective slice goes through the gateway; done and partial failure count as filled, all else as rejected |
| Reconcile.Watchdog.ReconcilePass | client/supertrend_engine.py:2378-2618 | one pass of the watchdog over a symbol |
| Reconcile.SliceFacts | client/supertrend_engine.py:2552-2571 | for every broker: what can land of a slice that counts, one that is done, one that fits, and one that is refused outright |
| Reconcile.BatchLands | client/supertrend_engine.py:2516-2615 | a batch moves the lots by what landed of its slices, and latches iff it stops at a margin rejection |
| ReconcileDrift.PassActsIff | client/supertrend_engine.py:2379-2500 | a pass sends a corrective order iff some runner is live and none busy or paused for margin, the contract is resolved with no order in flight, nothing suppresses it, the drift is nonzero and within the cap, and the late target differs; else it changes nothing |
| ReconcileDrift.TargetIsSum | client/supertrend_engine.py:2110-2118 | the target of a symbol is the sum of its runners' positions |
| Reconcile.LotsAreReadIff | client/supertrend_engine.py:2458 | the reported quantity is read as lots correctly iff it is a lot multiple |
| ReconcileDrift.LotsMoveByTheCorrection | client/supertrend_engine.py:2494-2618 | for every report, late target and broker the lots move in the direction of the correction, by at most twice it, and within it unless an order lands behind a session-like error; no more than it is sent |
| ReconcileDrift.NoOvershootIff | client/supertrend_engine.py:2494-2618 | no broker makes the lots overshoot the correction iff nothing is to be posted |
| ReconcileDrift.BlindRepeatOvershoots | client/xts_api.py:1312-1315 | replies for which any posted batch overshoots |
| ReconcileDrift.DriftNeverGrows | client/supertrend_engine.py:2465-2618 | with a true report, a target that stays and nothing landing behind a session-like error, the lots move towards the target, not beyond, partly landed slices included, and no more than the cap is dispatched |
| ReconcileDrift.FullAcceptanceHitsTargetIff | client/supertrend_engine.py:2494-2571 | for every broker without such landings, a pass whose slices all count as filled ends at the late target, iff the report read as lots is what is held and the largest slice passes the gateway uncut (or it is refused outright) |
| ReconcileDrift.PartMissesTarget | client/supertrend_engine.py:2552-2571 | replies for which all slices of a cut batch count and the target is missed |
| ReconcileDrift.PartHidesRefusalIff | client/supertrend_engine.py:2561-2571 | a slice refused behind a booked part counts as filled, so that a margin refusal neither latches nor backs off, iff the message about the part holds no gateway code |
| ReconcileDrift.PartFillWitness | client/supertrend_engine.py:2511-2571 | fifty lots of 75 under a limit of 1800: logged as filled, not latched, 24 lots held |
| ReconcileDrift.BatchRespectsCapIff | client/supertrend_engine.py:2474-2506 | a batch respects the cap for every broker iff the target read under the lock is within it, or its first slice is within it and refused outright |
| ReconcileDrift.StaleReportWitness | client/supertrend_engine.py:2494-2504 | one lot held and wanted, a stale report: three lots at the end |
| ReconcileDrift.MovedTargetWitness | client/supertrend_engine.py:2494-2506 | one configured lot and a moved target: a hundred lots sent under a cap of ten |
| ReconcileDrift.FullAcceptanceConverges | client/supertrend_engine.py:2494-2571 | with a true report, slices that are all done, and nothing landing behind a session-like error, the drift ends and the next accurate pass dispatches nothing |
| ReconcileDrift.BreakerRemovesDriftIff | client/supertrend_engine.py:2590-2607 | a batch stopped by a margin rejection ends without drift iff the lots held before plus what landed of its slices are the reported lots times the number of runners; alone and truly reported, iff the first slice was rejected and nothing of it landed |
| ReconcileDrift.BreakerWitness | client/supertrend_engine.py:2590-2607 | two runners whose drift stays |
| ReconcileHistory.LatchHoldsIff | client/supertrend_engine.py:2387-2391 | a latch suppresses every corrective order of a run and its continuations iff the run has no restart and no enabling toggle |
| ReconcileHistory.SuppressionHoldsIff | client/supertrend_engine.py:2387-2394 | the same for a latch or a backoff, for passes before its end |
| ReconcileHistory.ResetRepeatsAtOnce | client/supertrend_engine.py:1854 | a rejected order that a restart or toggle lets repeat with no delay |
| ReconcileHistory.RejectionsBackOff | client/supertrend_engine.py:2608-2613 | in every run k rejections with no accepted slice, toggle or restart in between take at least the sum of min(60*2^i, 3600) seconds |
| ReconcileHistory.RejectionStartsBackoff | client/supertrend_engine.py:2608-2613 | a rejected first slice counts one rejection more and waits from its recording by the schedule |
| ReconcileHistory.BackoffSchedule | client/supertrend_engine.py:2611 | two minutes after the first rejection, doubling up to an hour |
| TokenBucket.RateLimiter.TakeToken | client/xts_api.py:78-86 | the locked section refills and takes |
| TokenBucket.RateLimiter.Acquire | client/xts_api.py:75-93 | with any number of other threads in between: one grant or none of its own, refusal only when no token can be earned in time, at most 100*timeout + 1 sleeps |
| TokenBucket.GrantsWithinRefill | client/xts_api.py:78-86 | tokens stay within the bucket; grants plus tokens never exceed the refill |
| TokenBucket.GrantsInInterval | client/xts_api.py:66-93 | grants in any interval are at most capacity plus rate times its length |
| TokenBucket.AttemptGrantedIff | client/xts_api.py:78-86 | an attempt is granted iff a token fits the bucket and what was left plus what was earned makes one; always after an idle time of 1/rate |
| TokenBucket.PatientCallersAreServed | client/xts_api.py:66-93 | attempts no closer together than 1/rate are all granted |
| TokenBucket.TokensAreConserved | client/xts_api.py:78-86 | nothing is lost below the capacity |
| SingleFlight.NextKeepsInv | client/xts_api.py:211-278 | every interleaved step keeps: one login, flag up iff a login runs, no unnotified sleeper when down |
| SingleFlight.StartIsSingleFlight | client/xts_api.py:189-278 | that invariant holds in every run of any number of threads |
| SingleFlight.SleepersAreServed | client/xts_api.py:231-238 | a sleeper has a login to wait for or leaves at once with the token or as the next login |
| SingleFlight.FlagBelongsToLogin | client/xts_api.py:274-277 | only the finally block of the login in flight lowers the flag |
| SingleFlight.NoDeadlock | client/xts_api.py:228-277 | while a thread is inside, some thread can take its own next step without a time-out |
| SingleFlight.TokenIsShared | client/xts_api.py:212-232 | once there is a token and no refresh under way, plain calls of any number of threads return with it and none logs in |
| SingleFlight.CoolDownHolds | client/xts_api.py:224-226 | within the cool-down after a failure unforced calls return without a token and nobody logs in |
| SingleFlight.CallReachesLogin | client/xts_api.py:216-240 | a caller that may not take the token leaves with one found at the lock, sleeps while a login runs, or logs in |
| SingleFlight.LateCallerShares | client/xts_api.py:228-240 | behind the lock a token fetched by somebody else in the meantime is shared, unless the caller forces a refresh |
| SingleFlight.ClearedTokenIsFetched | client/xts_api.py:189-197 | the token can be dropped at any time without disturbing anybody inside; the next plain caller goes to the lock |
| SingleFlight.TimeOutGivesUp | client/xts_api.py:232-238 | a sleeper whose time runs out leaves with the token or with nothing, and starts no login |
| SingleFlight.FirstCallerLogsIn | client/xts_api.py:228-278 | a lone caller logs in and returns what the broker answered |
| Recovery.SignalStore.ProcessRecovery | client/main.py:475-527 | the recovery loop closes or re-queues each entry of its snapshot |
| Recovery.SignalStore.PruneOld | client/main.py:236-252 | pruning keeps every unfinished row |
| Recovery.RequeueIff | client/main.py:486-527 | when exactly a signal is sent again |
| Recovery.SignalStore.InsertPending | client/main.py:176-186 | a new signal is stored as pending, a second insert of its id is refused |
| Recovery.StatusTellsExecution | client/main.py:399-527 | in every run with listed words: done means begun once or found on the book, paper done and partial failure mean begun once, pending and stale mean never begun |
| Recovery.DispatchIsRecorded | client/main.py:399-439 | a signal accepted, marked, executed and ended is stored with its result, having begun once |
| Recovery.RestartRecovers | client/main.py:470-527 | a restart takes every unfinished row into recovery, which closes or re-queues it by its age at the restart and its book word |
| Recovery.RecoveryDecidesByWord | client/main.py:475-527 | the final status of every snapshot entry from its row and book word |
| Recovery.PruningIsExact | client/main.py:236-252 | pruning removes exactly the finished rows older than the cutoff |
| Recovery.AtMostOnce | client/main.py:399-527 | execution of a signal begins at most once in every interleaving with listed broker words |
| Recovery.TerminalIsAbsorbing | client/main.py:188-203 | a closed signal keeps its status, never returns and never executes again |
| Recovery.UnfinishedIsKept | client/main.py:236-252 | no step removes an unfinished signal |
| Recovery.StaleNeverExecutes | client/main.py:486-527 | a signal that was stale at recovery never starts executing |
| Recovery.SecondExecutionIff | client/main.py:493-524 | a begun signal executes again iff the broker word is in neither list |
| Recovery.SecondExecutionWitness | client/main.py:493-524 | a run in which a signal begins twice |
| Recovery.RecoveryLeavesNothingProcessing | client/main.py:475-527 | after the loop each entry is terminal or a fresh pending one that was re-queued, others untouched |
| TickSize.RoundedPriceIsTight | client/xts_api.py:525-551 | the rounded price is a positive tick multiple within one tick on the right side, unless clamped |
| TickSize.SnapIsMultipleIff | client/xts_api.py:545-551 | results are tick multiples iff the tick is below one or whole |
| TickSize.RoundingIsMonotone | client/xts_api.py:525-551 | a higher price never rounds lower |
| TickSize.TiesGoToEven | client/xts_api.py:525-551 | a price halfway between two integers rounds to the even one |
| TickSize.MissingTick | client/xts_api.py:525-551 | a tick that is not positive counts as five hundredths |
| TickSize.RoundingIsIdempotentIff | client/xts_api.py:525-551 | rounding a rounded price changes nothing iff its six-digit value stays on the harmless side of it within a tick |
| TickSize.RoundingIsIdempotent | client/xts_api.py:525-551 | for a tick of six digits rounding a rounded price changes nothing |
| TickSize.LimitIsMarketable | client/xts_api.py:1456-1459 | for any base and tick, to six digits: BUY limits lie five ticks above the base; SELL limits are zero iff the buffer swallows the price, one tick when less than a tick is left, else five ticks below |
| TickSize.SixDigitLimit | client/xts_api.py:1456-1459 | with a base and a tick of six digits these bounds are exact |

## Left out

- Network, database, file, alerting and container code: outcome scripts and maps stand for it.
- Symbol and expiry parsing: a chain of listings sorted by expiry is given; segments are reduced to MCX futures, NCDEX, and the NSE/BSE group.
- Real fill quantities and the partial-fill cancel thread: an accepted slice counts as filled.
- Panic square-off, reset to flat, position overrides in the configuration, the dispatch-function test hook and paper mode: they bypass the ledger on purpose.
- Gateway.PlaceOrder: takes a positive quantity, because the webhook refuses others (client/main.py:1386) and legs never send them.
- Keyword matching in broker messages: the class of a message is an input of the gateway, watchdog and runner models; the client's own message about a partial failure is modelled.
- The market-hours gate of `place_order`: a refusal before anything is sent, like any other.
- Floating-point rounding of the indicator: it is computed over exact reals, display rounding is the identity, and NaN or malformed candles are dropped by the filter.
- Non-finite prices and ticks in `apply_tick_size`, and the shipped holiday tables: results hold for any finite tables.
- The mid-candle polling schedule, telemetry and charts: no order depends on them.
- Fixed (non-continuous) contracts in whole runs: only their expiry guard is modelled, with its condition.
- The market-data token refresh, which repeats the interactive one, and the de-duplication window of webhooks.
- EveryRunIsAccounted: asks that rollovers are single slices whose pointer gets written, because the code does not keep the ledger otherwise: `RunsKeepLedgerIff` and `RollStepKeepsLedgerIff` give the exact conditions.
- AtMostOnce: excludes broker words in neither recovery list for signals already processing, because `SecondExecutionIff` shows the code repeats those; StatusTellsExecution does the same.
- DriftNeverGrows: asks for a true report, a target that stays and no landing behind a session-like error, because `FullAcceptanceHitsTargetIff`, `BatchRespectsCapIff` and `NoOvershootIff` show what the code does otherwise; `LotsMoveByTheCorrection` holds without.
- FullAcceptanceConverges: asks for slices that are done, because slices that merely count can land in part (`PartMissesTarget`).
- RoundingIsIdempotent: asks for a tick of six digits; `RoundingIsIdempotentIff` says when it holds for any tick.
- SixDigitLimit: asks for a base and a tick of six digits; `LimitIsMarketable` holds without, to within half a unit of the sixth digit.
- PartHidesRefusalIff: is about the first attempt at a batch of one slice; after a lost session the text is not tested and the part always counts (`CutSliceEndsPartially`).
- OutcomeIsFaithfulIff: is about slices that fit the gateway; `LegLandsWholeIff` says when all of them do.
