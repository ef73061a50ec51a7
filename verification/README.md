# Verification of the trading platform's core protocols

This project models the parts of the platform that have to agree with an unreliable exchange,
and proves what they keep. Prices, sizes and amounts are exact reals, or integers in units of
1e-8 where the code rounds to eight decimals; each rounding step the code names is modelled as
such. A database statement or transaction is one atomic step. The exchange, the network, the
clock and the failures of a process are nondeterministic environments.

Run `dafny verify dfyconfig.toml` in this directory to check everything.

| file | what it is about |
|---|---|
| `Ledger.dfy` | positions, orders and strategy totals as a state machine over single statements; the ledger equation |
| `LedgerProperties.dfy` | the equation over whole runs, the PnL sync, external closes and history recovery |
| `LedgerStore.dfy` | the same writers as methods on mutable tables, including the drawdown cascade |
| `PendingFills.dfy` | attribution of exchange size to resting limit orders |
| `Reconciler.dfy` | the miss-streak machine over confirmed and unknown reads |
| `LiquidationGuard.dfy` | tightening a stop that sits beyond liquidation |
| `GuaranteedStop.dfy` | the stop every opening order is given |
| `ModifyStops.dfy` | cancel, place, verify and retry of triggers against an exchange that may misbehave |
| `StopRevalidation.dfy` | re-anchoring stops to the price an order filled at |
| `Bracket.dfy` | the bracket exit calculator, by ticks and by bars |
| `Stance.dfy` | social posts: decisions and the webhook steps they expand to |
| `StanceRuns.dfy` | social posts: recorded legs, held sizes and the accepted orders in between |
| `LevelGuards.dfy` | social posts: which stops and targets may be set, and the standing break-even |
| `TrimLedger.dfy` | social posts: which trims of a stance are refused as repeats |
| `Exposure.dfy` | social posts: sizes of trims and scale-ins |
| `Orders.dfy` | accepted orders and what executing one does to a leg, for the two files above |
| `PostLock.dfy` | social posts: handlers, the per-post lock and the parked-trim watcher, interleaved |
| `Ingestor.dfy` | the closed-candle stream: warm-up, watch loop, gap stitching |
| `Consumer.dfy` | the notification consumer: acknowledgement, deduplication, draining |
| `Prelude.dfy` | options, bounds and rounding |

Code that changes state step by step is a class or a method with a loop, proved equal to a
specification function (`Step`, `Run`, `Pass`, ...); the properties are proved of that function.

## Where the code departs from what it says

Each of these is a lemma, with the exact condition under which the promise holds.

- **A sync books positions that are still open.** `_book_realized_pnl` relies on callers that
  only book a PnL going from NULL to a value, but the sync has no status filter and the full
  close does not look. A strategy ends up ahead of its positions by exactly the figure the full
  close found (`LedgerProperties.PartialCloseThenFullCloseDrifts`,
  `LedgerProperties.CloseKeepsLedgerIff`).
- **A recovered close is charged its opening fee twice** when the history's fee covers the round
  trip and the recovery also creates the closing order
  (`LedgerProperties.RecoveredFigureSurvivesSyncIff`). An external close left unconfirmed is
  recovered only when no priced partial close preceded it
  (`LedgerProperties.UnconfirmedCloseIsRecoveredIff`).
- **Back-solving works for one fill at a time.** Of several limit orders filled between two
  passes the first is priced with everybody's cost, and the entry comes out right only for an
  odd number of them (`PendingFills.PassMeetsExchangeIff`, `PendingFills.TwoFillsInOnePass`).
- **Strategies that share an exchange position can claim more than there is**, each order being
  served from all that its own strategy does not hold. They stay within the position exactly when
  together they are served no more than what none of them held
  (`PendingFills.SharedPositionIsNotOverclaimedIff`); when they account for all of it already,
  exactly when every order that left the exchange finds that the others hold no more than its
  tolerance (`PendingFills.AccountedPositionIsClaimedAgainIff`). Two strategies that are each given
  all of it are the failing input (`PendingFills.TwoStrategiesClaimTheSamePosition`).
- **A bar is pessimistic only for some brackets**: exactly for those whose trail arms by the first
  target and then covers break-even (`Bracket.NeverOptimisticIff`), the test strategy's among
  them. For any other, a bar that newly reaches the first target and comes back to break-even
  leaves a bracket open that the ticks inside it can close (`Bracket.LateTrailIsOptimistic`).
- **A confirmed landing is not safe by construction**: the 0.1% placement tolerance exceeds the
  liquidation margin the guard leaves when liquidation is less than about one percent away
  (`LiquidationGuard.EveryLandingIsSafeIff`, `LiquidationGuard.LandingIsSafeByDistance`,
  `LiquidationGuard.ConfirmedBeyondLiquidation`).
- **A stop can be rounded past liquidation, or onto the entry.** Prices have at most six decimals.
  An opening stop is inside liquidation, whatever the strategy asked for, exactly when the price
  the estimated distance away clears the middle of the price step that holds the liquidation
  price (`GuaranteedStop.StopIsInsideIff`); a tightened one is between liquidation and entry
  exactly when it clears half a step on both sides (`LiquidationGuard.TightenedStopIsBetweenIff`).
  Coins far below a cent are the failing inputs (`GuaranteedStop.CheapCoinIsLiquidatedFirst`,
  `LiquidationGuard.CheapCoinStopLandsOnEntry`).
- **Fail-closed emission does not keep the recorded stance honest.** A webhook is answered before
  its order is executed, and the order can still be dropped. After a post that finds no order
  outstanding, the stance is honest exactly when every recorded entry was executed, no unrecorded
  close was and no trim closed its leg, and the exchange holds nothing unknown exactly when every recorded close
  of a held leg was executed and no unrecorded entry was; from any other state it depends on which
  order that opened or closed a leg was executed last (`StanceRuns.LivePostStaysHonestIff`,
  `StanceRuns.LivePostStaysKnownIff`). A dropped entry, half a flip and a refused close are the failing
  inputs (`StanceRuns.DroppedEntryIsClaimed`, `StanceRuns.HalfAFlipClaimsAClosedLeg`,
  `StanceRuns.RefusedCloseIsForgotten`). The sweep restores honesty (`StanceRuns.SweepRestoresHonesty`).
- **Outstanding orders can overtake one another.** Executed in any order, they end with the same
  sizes exactly when every side with an entry or scale-in outstanding has no close outstanding and
  no trims for more than is held (`StanceRuns.OrderIsIrrelevantIff`). The exchange ends up with
  known legs in every order exactly when every unrecorded leg has no entry or scale-in outstanding
  and, if it is held, a close or trims for all of it; the stance ends up honest exactly when every
  recorded leg has no close outstanding and trims for less than is held and added
  (`StanceRuns.EveryOrderEndsKnownIff`, `StanceRuns.EveryOrderEndsHonestIff`). A close that
  overtakes its entry or a scale-in, and two trims of one read, are the failing inputs
  (`StanceRuns.OrdersOvertake`, `StanceRuns.CloseOvertakesScaleIn`,
  `StanceRuns.TwoReachedTrimsCloseARecordedLeg`).
- **A trim can close its leg, and scale-ins can pass the ceiling**, because sizes come from a row
  that outstanding orders have not reached yet. They cannot exactly when the outstanding trims
  ask for less than is held and the outstanding scale-ins leave room
  (`Exposure.OutstandingOrdersAreSafeIff`, `Exposure.TwoTrimsOfOneReadClose`,
  `Exposure.TwoScaleInsOfOneReadPassTheCeiling`), as when each is asked for alone
  (`Exposure.ExposureIsBounded`).
- **The standing break-even loosens a stop that was tightened later**: the sweep moves it back to
  the entry (`LevelGuards.SweepLoosensIff`, `LevelGuards.SweepUndoesALaterStop`). So it does to a
  stop it set itself between a scale-in and its execution, exactly when the fill pulled the entry
  back (`LevelGuards.SweepMidScaleIn`).
- **The minimum trim interval is measured between instructions.** A trim at market is sure to keep
  the interval to every other recorded trim exactly when, before it is sent, nothing is parked and
  nothing left the park within the interval (`TrimLedger.MarketTrimStaysApartIff`); a parked one
  only if, besides, it fires in the second it was parked (`TrimLedger.ParkedTrimStaysApartIff`).
  A parked and a market trim in one second are the failing input
  (`TrimLedger.ParkedTrimFiresBesideAnother`).
- **A post can be emitted for twice** when a failure falls between an emission and the write that
  records it: afterwards it can be emitted for again exactly when its handler was the one that
  failed, or its trim is still parked (`PostLock.SlipEmitsAgainIff`). A lost answer to a parked trim
  is one such failure (`PostLock.LostAnswerFiresTheTrimTwice`), and so is an ordinary message that
  arrives while the live buffer's handler waits, because it cancels that handler
  (`PostLock.MessageDuringEmissionEmitsAgain`). Every lost answer adds one to the trims the interval
  allows (`TrimLedger.TrimsAreRationed`).
- **A feed that goes back in time** closes bars under wrong open times: the stream is complete
  exactly when every bar is closed right after an update of its own and no gap exceeds one request
  (`Ingestor.AnyFeedIsCompleteIff`, `Ingestor.BackwardEventBreaksTheOrder`).
- **Suppressed duplicates renew the deduplication window**: an event is notified again exactly when
  it recurs 24 hours after its last occurrence, suppressed or not
  (`Consumer.RecurringKeyStaysSilentIff`).
- **Ten stuck entries block the drain** for everything behind them (`Consumer.FullBatchBlocks`).

## Model

| member | source | states |
|---|---|---|
| `Ledger.FindOpen` | order-listener/app/webhook_handler.py:1353-1358 | finds an open row of the strategy, symbol and side, and nothing only if there is none |
| `Ledger.LedgerEquation` | order-listener/app/webhook_handler.py:164-187 | over every run of single statements in any interleaving, booked totals plus bookings in flight minus realized PnL of the positions move by exactly the run's drift: direct flips, and full closes that meet an attributed PnL |
| `Ledger.StepMovesExcessByDrift` | order-listener/app/webhook_handler.py:1575-1656 | no other statement moves that balance |
| `Ledger.SyncIsBalanced` | order-listener/app/webhook_handler.py:1779-1861 | a sync statement puts in flight exactly what it adds to the positions |
| `Ledger.CloseMovesExcess` | order-listener/app/webhook_handler.py:1575-1656 | a full close moves the balance by the PnL it finds on the row |
| `LedgerProperties.NullClosesDriftByFlipsOnly` | order-listener/app/webhook_handler.py:164-168 | if every full close of a run meets a NULL PnL, only direct flips drift |
| `LedgerProperties.TotalsFollowPositions` | order-listener/app/webhook_handler.py:164-187 | with that precondition and nothing in flight at either end, a strategy's total moves by the realized PnL of its positions plus its flips |
| `LedgerProperties.StepMovesAllocation` | order-listener/app/webhook_handler.py:170-182 | a booking moves allocation and total together and lifts the peak to the maximum |
| `LedgerProperties.PeakIsRunningMaximum` | order-listener/app/webhook_handler.py:170-182 | over every run the allocation moves with the total and the peak is its running maximum |
| `LedgerProperties.SyncSettles` | order-listener/app/webhook_handler.py:1779-1861 | after a sync every position with a priced close, open or closed, carries its rollup and nothing else changed |
| `LedgerProperties.SyncIsIdempotent` | order-listener/app/webhook_handler.py:1779-1861 | a second sync changes nothing and books nothing |
| `LedgerProperties.PartialCloseThenFullCloseDrifts` | order-listener/app/webhook_handler.py:1790-1808 | a sync while the position is open, then its full close: the strategy is ahead by what the sync had booked |
| `LedgerProperties.CloseKeepsLedgerIff` | order-listener/app/webhook_handler.py:1583-1656 | a full close keeps the balance exactly when it reports no PnL or finds none |
| `LedgerProperties.FullCloseMatchesTheSync` | order-listener/app/webhook_handler.py:1515-1520 | a full close under an order with the same figures attributes and owes what the sync would attribute to that order: the sync leaves the row alone, or moves it by exactly the priced partial closes that came before, less their fees |
| `LedgerProperties.UnorderedCloseNetsFees` | order-listener/app/webhook_handler.py:1515-1520 | without an order of its own the row and the booking are gross less the opening and the closing fee, or neither without a reported PnL |
| `LedgerProperties.FillAddsItsCost` | order-listener/app/webhook_handler.py:1360-1388 | a fill adds its size and what it cost to the open leg, or opens a leg of just that with nothing realized; no other row changes |
| `LedgerProperties.ReduceTakesItsSize` | order-listener/app/webhook_handler.py:1600-1616 | a reduction takes its size off one row and links its order; realized PnL and totals wait for the sync |
| `LedgerProperties.ExternalCloseRuns` | order-listener/app/reconciler.py:1035-1073 | an external close adds one linked order with what the partial closes left, and closes the row |
| `LedgerProperties.ExternalCloseNetsFees` | order-listener/app/reconciler.py:1035-1073 | after a confirmed external close and one sync the position has realized gross less the fees paid, whatever came before, and a second sync changes nothing |
| `LedgerProperties.UnclampedFees` | order-listener/app/reconciler.py:1040-1060 | unless the remainder is clamped, those fees are the round trip, or the closing fees plus the opening fee |
| `LedgerProperties.UnconfirmedCloseIsRecoveredIff` | order-listener/app/reconciler.py:1125-1241 | after an unconfirmed close and a sync the row carries its priced partials alone, and the recovery reaches it exactly when there were none and its PnL was NULL |
| `LedgerProperties.RecoveredFigureSurvivesSyncIff` | order-listener/app/reconciler.py:1195-1265 | a recovered figure survives the next sync exactly when an order was linked already, the fee was not a round trip, or opening cost nothing |
| `LedgerStore.Store.BookRealizedPnl` | order-listener/app/webhook_handler.py:164-187 | books in place and runs the drawdown check; the whole cascade is a run of statements and terminates; a strategy that breaches is disabled, and flat unless the exchange refused a close |
| `LedgerStore.BreachedIff` | order-listener/app/webhook_handler.py:124-148 | breached exactly when the loss from the recorded peak is at least the limit's share of it, half by default; never without a recorded peak |
| `LedgerStore.Store.DisableIfDrawdownBreached` | order-listener/app/webhook_handler.py:124-161 | an enabled strategy below its floor is disabled and left with no open leg unless the exchange refused a close; any other is left alone |
| `LedgerStore.Store.FlattenStrategyPositions` | order-listener/app/webhook_handler.py:190-205 | every open leg of the strategy is attempted: none is left when the exchange refuses no close |
| `LedgerStore.Store.CloseStrategyPosition` | order-listener/app/webhook_handler.py:1391-1670 | reduces when less than the open size is asked, closes the whole leg otherwise, by the caller's figures or the exchange's, under the given order, one of its own, or none when inserting it fails; nothing is written when the exchange refuses |
| `LedgerStore.Store.RecordClose` | order-listener/app/webhook_handler.py:1515-1670 | an executed close: its order row, then the position, then after a full close the booking |
| `LedgerStore.Store.ReduceRow` | order-listener/app/webhook_handler.py:1604-1625 | the reduce transaction |
| `LedgerStore.Store.CloseRow` | order-listener/app/webhook_handler.py:1575-1603 | the full-close transaction, netting both fees |
| `LedgerStore.Store.CloseWhole` | order-listener/app/webhook_handler.py:1575-1656 | the full close followed by its booking |
| `LedgerStore.Store.ApplyPositionFill` | order-listener/app/webhook_handler.py:1333-1388 | tops up the open leg at the blended entry, or creates it |
| `LedgerStore.Store.SyncRows` | order-listener/app/webhook_handler.py:1790-1845 | one sync statement over all rows in place |
| `LedgerStore.Store.SyncPositionPnl` | order-listener/app/webhook_handler.py:1779-1861 | both statements, then every booking with its cascade |
| `LedgerStore.Store.HandleFullExternalClose` | order-listener/app/reconciler.py:930-1122 | the synthetic order and the close, as the external-close run |
| `LedgerStore.Store.RecoverManualClosePnl` | order-listener/app/reconciler.py:1195-1265 | attributes the history's net figure, books it with its cascade, and then creates the closing order exactly when none is linked |
| `LedgerStore.Store.BookFlip` | order-listener/app/webhook_handler.py:2253-2259 | books a flip the exchange netted |
| `PendingFills.ClaimsAreGrowth` | order-listener/app/reconciler.py:718-791 | over one pass and every key, the claims sum to the growth of the position, which never passes the exchange's size |
| `PendingFills.OldestFirst` | order-listener/app/reconciler.py:718-791 | an order gets its whole size unless what remains at the end is within its tolerance, and claims nothing exactly when the residual it met was |
| `PendingFills.OrdersAreRecorded` | order-listener/app/reconciler.py:784-886 | over a pass an order that left the exchange is recorded cancelled exactly when the residual it met was within its tolerance, and filled otherwise, with the size by which its position grew and a price that accounts for the cost added; any other keeps its status |
| `PendingFills.ClaimSetsCost` | order-listener/app/reconciler.py:750-791 | a claim brings the position's cost to the exchange's, or past it when the back-solved price is exactly zero |
| `PendingFills.WholeResidualMeetsExchange` | order-listener/app/reconciler.py:750-791 | a claim of the whole residual at a non-zero price leaves size and entry at the exchange's |
| `PendingFills.CostAlternates` | order-listener/app/reconciler.py:750-791 | over a pass the cost agrees with the exchange's exactly when it did not and the claims are odd, or did and they are even |
| `PendingFills.PassServesTheResidual` | order-listener/app/reconciler.py:718-791 | what a pass leaves and how often it claims follow from the residual, the order sizes and the tolerances alone |
| `PendingFills.PassMeetsExchangeIff` | order-listener/app/reconciler.py:718-891 | a pass leaves a key at the exchange's size and entry exactly when the residual is served to the last unit, by an odd number of orders if the cost differed and an even number if it did not |
| `PendingFills.TwoFillsInOnePass` | order-listener/app/reconciler.py:718-791 | two fills at 100 booked as an entry of 145 |
| `PendingFills.PassAddsWhatIsServed` | order-listener/app/reconciler.py:718-748 | what any list of strategies holds of one exchange position grows by what their orders are served |
| `PendingFills.SharedPositionIsNotOverclaimedIff` | order-listener/app/reconciler.py:718-748 | they hold no more than the exchange after a pass exactly when they are served no more than what none of them held |
| `PendingFills.AccountedPositionIsClaimedAgainIff` | order-listener/app/reconciler.py:718-748 | when they account for the whole position, exactly when every order of theirs that left the exchange finds that the others hold no more than its tolerance |
| `PendingFills.TwoStrategiesClaimTheSamePosition` | order-listener/app/reconciler.py:718-748 | the failing input: two strategies on one exchange position are each given all of it |
| `PendingFills.Ledger.ApplyPositionFill` | order-listener/app/webhook_handler.py:1343-1388 | the top-up in place |
| `PendingFills.Ledger.ReconcilePendingOrders` | order-listener/app/reconciler.py:718-891 | the loop over pending orders is the pass |
| `Reconciler.CounterIsAStreak` | order-listener/app/reconciler.py:136-254 | the miss counter always counts an unbroken streak of confirmed discrepancies; unknown reads neither count nor reset |
| `Reconciler.ActsOnlyOnAStreak` | order-listener/app/reconciler.py:104-254 | a pass closes or shrinks a row only as the last of at least the threshold of such reads, never grows one, and leaves a shrunk row at the size just read |
| `Reconciler.JudgeIff` | order-listener/app/reconciler.py:157-181 | a read is larger, or a discrepancy, exactly when it is off by more than a millionth and more than half a percent of the row |
| `Reconciler.DivergentIff` | order-listener/app/reconciler.py:160-204 | over every run, an open row is flagged exactly when the last confirmed read that was no discrepancy found more than the row has, and then with the size it found |
| `Reconciler.GonePositionIsClosedIff` | order-listener/app/reconciler.py:104-254 | a vanished position is open exactly until the confirmed reads reach the threshold |
| `Reconciler.Rows.ReconcileOnce` | order-listener/app/reconciler.py:46-254 | the loop over rows takes every row by one step |
| `LiquidationGuard.RoundPriceMovesAtMostHalfAStep` | order-listener/app/webhook_handler.py:40-52 | rounding moves a price by at most half a step of its band |
| `LiquidationGuard.HalfStepIsTiny` | order-listener/app/webhook_handler.py:40-52 | from 0.1 upward half a step is at most five millionths of the price |
| `LiquidationGuard.MarginByDistance` | order-listener/app/reconciler.py:547-583 | the margin to liquidation is a tenth of the distance, but five hundredths of a percent of the entry when that is more, and never more than nine tenths of the distance |
| `LiquidationGuard.TightenedStopIsSafe` | order-listener/app/reconciler.py:547-583 | the rounded stop is safe when rounding cannot eat the margin |
| `LiquidationGuard.RoundedIsSafeIff` | order-listener/app/webhook_handler.py:40-52 | a rounded price is on the safe side of liquidation exactly when, unrounded, it clears the middle of the price step that holds the liquidation price, ties going to even |
| `LiquidationGuard.TightenedStopIsBetweenIff` | order-listener/app/reconciler.py:547-583 | for every entry and liquidation price, the new stop is on the safe side of liquidation, and on the losing side of the entry, exactly when it clears half a step on either side |
| `LiquidationGuard.TightenedStopIsBetweenInEveryBand` | order-listener/app/reconciler.py:547-583 | from 0.1 upward and beyond 0.005% of distance it is strictly between liquidation and entry, for both sides |
| `LiquidationGuard.RoundedOntoEntry` | order-listener/app/reconciler.py:547-583 | at exactly 0.005% it can be rounded onto the entry |
| `LiquidationGuard.CheapCoinStopLandsOnEntry` | order-listener/app/webhook_handler.py:40-52 | entry 0.00001 and liquidation 5% below: the stop is rounded onto the entry |
| `LiquidationGuard.EveryLandingIsSafeIff` | order-listener/app/reconciler.py:446-480 | every landing of the stop the guard computes is safe exactly when the margin it left exceeds the placement tolerance |
| `LiquidationGuard.LandingIsSafeByDistance` | order-listener/app/reconciler.py:547-583 | it is for a liquidation price at least 1.02% away and is not for one at most 0.98% away, on both sides |
| `LiquidationGuard.ConfirmedBeyondLiquidation` | order-listener/app/reconciler.py:446-480 | entry 100, liquidation 99.5: the stop at 99.55 would be confirmed at 99.46 |
| `LiquidationGuard.PlacedStopIsLeftAlone` | order-listener/app/reconciler.py:500-583 | the next pass leaves a placed stop alone, for every row of its position |
| `LiquidationGuard.NothingToDoIff` | order-listener/app/reconciler.py:500-583 | the guard places nothing exactly when a resting stop is on the safe side of liquidation and a managed position has one, or the exchange does not say enough |
| `LiquidationGuard.Exchange.GuardPass` | order-listener/app/reconciler.py:398-624 | after a pass whose reads were answered and placements confirmed no stop rests on the wrong side of liquidation, managed positions have one, and nothing is left to do; positions guarded before keep their stop |
| `GuaranteedStop.TightestStopWins` | order-listener/app/webhook_handler.py:91-116 | the stop is on the losing side, is one of the two candidates, and protects at least as well as either |
| `GuaranteedStop.SafeStopIsEstimatedLiquidation` | order-listener/app/webhook_handler.py:81-95 | without a stop of the strategy's own it is where the venue would liquidate at the estimated rate, or 0.05% away when the estimate leaves no headroom |
| `GuaranteedStop.StopIsInsideIff` | order-listener/app/webhook_handler.py:62-116 | for every entry, leverage and pair of rates: every stop, whatever the strategy asked, is inside liquidation exactly when the price the estimated distance away clears the middle of the price step that holds the liquidation price |
| `GuaranteedStop.StopIsInside` | order-listener/app/webhook_handler.py:62-116 | it is as soon as the estimate leaves more than half a price step to the true headroom |
| `GuaranteedStop.FallbackStopIsInside` | order-listener/app/config.py:42-59 | with the fallback rate, for every entry, leverage and true rate of the worst tier: every stop is inside as soon as that tier's slack exceeds half a price step |
| `GuaranteedStop.SlackFitsHalfAStep` | order-listener/app/webhook_handler.py:40-52 | which it does from 0.1 upward for every leverage up to 990 |
| `GuaranteedStop.CheapCoinIsLiquidatedFirst` | order-listener/app/webhook_handler.py:40-52 | entry 0.0000124, leverage 20: the stop is rounded past liquidation |
| `GuaranteedStop.FallbackReachIff` | order-listener/app/config.py:42-70 | rounding apart, the fallback reaches exactly the leverages below 1000 |
| `GuaranteedStop.LiveStopIsInside` | order-listener/app/webhook_handler.py:1140-1156 | with the venue's buffered rate every stop is inside as soon as the slack it leaves exceeds half a price step |
| `GuaranteedStop.LiveReachIff` | order-listener/app/config.py:34-70 | rounding apart, exactly above 0.05% |
| `ModifyStops.FindLanded` | order-executor/app/main.py:511-525 | finds a trigger within tolerance, and nothing only if there is none |
| `ModifyStops.LandsIff` | order-executor/app/main.py:511-525 | a trigger counts as landed within a thousandth of a requested price that is not zero |
| `ModifyStops.ScopeIsTheLeg` | order-executor/app/main.py:569-578 | on a hedge account a call is about triggers of its own side, on a net one about all |
| `ModifyStops.ReadPrice` | order-executor/app/main.py:619-645 | the resting price of a kind in a read |
| `ModifyStops.CancelAll` | order-executor/app/main.py:680-698 | touches only what was read |
| `ModifyStops.ReadBack` | order-executor/app/main.py:733-745 | repeats an unanswered read, and only that, until it is answered or was repeated twice |
| `ModifyStops.Reported` | order-executor/app/main.py:715-728 | folds the placement's answer into a leg's state |
| `ModifyStops.PlaceKeepsLeg` | order-executor/app/main.py:707-728 | a placement keeps at most one matching trigger per leg, and none while it is pending |
| `ModifyStops.VerifyKeepsLeg` | order-executor/app/main.py:747-769 | so does an exact read-back |
| `ModifyStops.KnowLeg` | order-executor/app/main.py:707-769 | what is known of a leg is kept by one attempt, whatever the exchange did |
| `ModifyStops.Attempt` | order-executor/app/main.py:707-769 | asks for exactly what is pending, only where nothing of the kind rests, and reads back |
| `ModifyStops.PlaceAndVerify` | order-executor/app/main.py:700-776 | attempts are made exactly when a leg is wanted, the first asks for every wanted leg and later ones for nothing else; at most three, and a leg is left pending only after three |
| `ModifyStops.Replace` | order-executor/app/main.py:680-783 | cancel, place and verify with honest verdicts and nothing stacked |
| `ModifyStops.ModifyStops` | order-executor/app/main.py:529-783 | the whole route: a priced leg ends up at the asked price, one neither priced nor cleared at the last readable price it rested at, and any other is gone; a leg is reported good exactly when an answered read-back showed it, and success is that of every wanted leg; the first place call asks for every leg that is to rest, later ones for nothing else, and the call gives up only after the third or on an unanswered read; an unknown first read changes nothing; the other hedge leg is untouched; at most three placements and ten reads; nothing stacked apart from triggers whose cancel did not take effect and strays, of which there is at most one per error answer |
| `ModifyStops.RefusedCancelStacks` | order-executor/app/main.py:680-698 | a refused cancel: success, and two stops resting |
| `ModifyStops.LandedErrorStacks` | order-executor/app/main.py:700-769 | an error answer that landed and an unanswered read-back: placed again, success, and two stops resting |
| `ModifyStops.OneStrayPerError` | order-executor/app/main.py:715-728 | a placement leaves at most one stray a kind, and none unless its answer was an error |
| `StopRevalidation.LegIsSound` | order-listener/app/stop_revalidation.py:51-131 | validity of one leg, when it moves, how far it is from the ask, and that the fill as reference leaves it alone |
| `StopRevalidation.RevalidatedStopsAreValid` | order-listener/app/stop_revalidation.py:71-131 | both legs end on their side of the fill by at least 0.1%; in level mode a leg moves exactly when it was not valid; a second call on the fill changes nothing |
| `StopRevalidation.LevelModeIsIdempotent` | order-listener/app/stop_revalidation.py:71-131 | in level mode a second call with any reference changes nothing |
| `StopRevalidation.TwiceOnOneReferenceIsOnceIff` | order-listener/app/stop_revalidation.py:51-131 | in distance mode a second call on the same reference changes nothing exactly when the first did not, or the asked distance absorbs the slippage |
| `StopRevalidation.AbsorbsIff` | order-listener/app/stop_revalidation.py:59-68 | that is within two parts in 102 towards the reference and two in 98 away from it |
| `StopRevalidation.DistanceModeMovesAgainOnOldReference` | order-listener/app/stop_revalidation.py:59-131 | ten percent of slippage moves a stop asked for at 1% to eight times its distance |
| `StopRevalidation.RewardRiskIsKept` | order-listener/app/stop_revalidation.py:71-131 | distance mode keeps reward to risk within 0.98/1.02 and 1.02/0.98 of the ask |
| `Bracket.RunConserves` | signal-engine/app/exits.py:74-145 | from any state, emitted size plus what is left is conserved and the reasons continue the state's story |
| `Bracket.RunShape` | signal-engine/app/exits.py:39-145 | emitted plus remaining is 100, all of it once closed; the reasons are one of five stories or a beginning of one |
| `Bracket.NextBarFires` | signal-engine/app/exits.py:78-147 | one more bar on an open bracket, told by the bars before: stopped exactly when it reached the protective stop, trailed exactly when it reached the trailing level of the peak and not that stop, targets exactly when neither |
| `Bracket.ExitsCarry` | signal-engine/app/exits.py:116-147 | over every run the first target sells its share, what follows it the rest, and an exit without it everything |
| `Bracket.LevelsOfSpec` | signal-engine/app/exits.py:11-26 | where the spec puts the levels, the tightened stop half way to the first one, and what the trailing stop gives up |
| `Bracket.SpecIsOrdered` | signal-engine/app/exits.py:11-26 | non-negative offsets order the stops of both directions |
| `Bracket.StepRatchets` | signal-engine/app/exits.py:87-137 | one update moves peak and stops only in the profitable direction, through every latch |
| `Bracket.RatchetOverRun` | signal-engine/app/exits.py:74-145 | so does every run between any two moments, in prices of either direction |
| `Bracket.BarIsPessimisticIff` | signal-engine/app/exits.py:74-145 | one update with a bar's extremes closes every bracket that some tick path inside it closes, exactly unless the bar newly takes the first target and returns to break-even |
| `Bracket.NeverOptimisticIff` | signal-engine/app/exits.py:11-26 | over every run no bar is too optimistic exactly when the trail arms by the first target and then covers break-even, or the first stop does |
| `Bracket.TestSpecIsNeverOptimistic` | signal-engine/app/strategies/test_harness.py:33-50 | so it is for the test strategy's bracket, on both sides and at every entry |
| `Bracket.LateTrailIsOptimistic` | signal-engine/app/exits.py:93-145 | a bracket that arms its trail later: its first bar is too optimistic |
| `Bracket.OptimisticPathCloses` | signal-engine/app/exits.py:131-137 | on such a bar best tick first, worst tick second closes it |
| `Bracket.NoPathCloses` | signal-engine/app/exits.py:74-145 | otherwise no path inside an open bar closes |
| `Bracket.BracketState.constructor` | signal-engine/app/exits.py:39-59 | starts at the plan of the spec |
| `Bracket.BracketState.EffectiveStop` | signal-engine/app/exits.py:105-114 | the stop in force, trailing once armed |
| `Bracket.BracketState.Track` | signal-engine/app/exits.py:87-104 | peak, RSI tighten and arming |
| `Bracket.BracketState.Update` | signal-engine/app/exits.py:74-145 | the two-sided update follows the one-sided machine |
| `Stance.ResolveLeg` | social-listener/app/statemachine.py:74-94 | resolves only to an open leg, and refuses exactly when the side is not open, nothing is open, or both are and none is named |
| `Stance.DecisionRefinesToSteps` | social-listener/app/statemachine.py:338-517 | for every record, legs, phase, price and mode: an acted decision emits, its steps are legal one by one and end in the decided legs; any other changes and emits nothing |
| `Stance.EveryPlanRefines` | social-listener/app/statemachine.py:311-335 | the same of every close, open and flip plan |
| `Stance.ActedMoveIsThePlan` | social-listener/app/statemachine.py:404-517 | the gates never alter what is carried out |
| `Stance.NetAccountNeverHoldsBoth` | social-listener/app/statemachine.py:441-491 | on a net account no decision and no moment between its steps holds both legs |
| `Stance.FlipLeavesItsOwnSideOnly` | social-listener/app/statemachine.py:441-491 | an acted flip ends with only its own side open |
| `Stance.ActedPostPassedItsGates` | social-listener/app/statemachine.py:404-517 | an acted post was confident, listed and, live, fresh and not chased against its cited or implied price; a replayed one always moves a leg, so trims and scale-ins are never replayed |
| `Stance.FresherAndCheaperStillActs` | social-listener/app/statemachine.py:220-256 | what is acted on live, trims apart, is decided the same when the post is younger and the price has run no further |
| `Stance.TrimIsActedIff` | social-listener/app/statemachine.py:259-308 | a trim is carried out exactly live, fresh, and at market or once the market has reached its level in the leg's favour, and parked exactly when that is all it lacks |
| `Stance.AddIsActedIff` | social-listener/app/statemachine.py:220-256 | a scale-in is carried out exactly live, fresh, for more than nothing and at a mark that has not run away from the cited price |
| `Stance.MoveIsActedIff` | social-listener/app/statemachine.py:404-517 | a close, open or flip is acted on exactly when trusted, with a leg to close or a side to reach, and replayed or fresh and not chased; every close is held back by a price that fell, a flip onto a held side by the side it gives up |
| `Stance.ActedMoveMeans` | social-listener/app/statemachine.py:437-489 | an acted close leaves open exactly what it does not name; any other move ends with its side open, and with the other one exactly if it was, on a hedge account, and the move is no flip |
| `Stance.ChasedIff` | social-listener/app/statemachine.py:510-512 | chased means further from a positive reference, in the direction of the entry, than the allowed share of it |
| `Stance.SizesAreClamped` | social-listener/app/statemachine.py:32-58 | trims and scale-ins keep what is asked for, or the default for what is missing or garbled, as far as the limits allow |
| `Stance.TrimRefusalNamesTheCause` | social-listener/app/statemachine.py:74-94 | a trim names a leg, or says that its side is not open, that nothing is, or that both are |
| `Stance.AddRefusalNamesTheCause` | social-listener/app/statemachine.py:74-94 | the same of a scale-in |
| `StanceRuns.SettlesTo` | order-listener/app/webhook_handler.py:1269-1279 | as long as no side has both an order that opens and one that can close outstanding, only which are executed matters, not when |
| `StanceRuns.SettlesAsExecuted` | order-listener/app/webhook_handler.py:1343-1388 | from any state a leg is held in the end exactly when the last executed order that opened or closed it opened it, or it was held and none closed it; entries and scale-ins open, closes close, and so do trims that ask for all that is left |
| `StanceRuns.OrderIsIrrelevantIff` | order-listener/app/webhook_handler.py:1269-1279 | every order of executing what is outstanding ends with the same sizes exactly when every side with an entry or scale-in outstanding has no close and no trims for more than is held |
| `StanceRuns.LegsAreTheSameIff` | order-listener/app/webhook_handler.py:1269-1279 | and with the same legs exactly when every such side has no close and no trims for all that is held and added |
| `StanceRuns.EveryOrderEndsKnownIff` | order-listener/app/webhook_handler.py:1269-1279 | every such order ends with held within recorded exactly when every unrecorded leg has no entry or scale-in outstanding, and a close or trims for all that is held |
| `StanceRuns.EveryOrderEndsHonestIff` | order-listener/app/webhook_handler.py:1444-1449 | and with recorded within held exactly when every recorded leg has no close outstanding and trims for less than is held and added |
| `StanceRuns.EveryFateEndsKnownIff` | order-listener/app/webhook_handler.py:2009-2105 | when any of them may be dropped, or executed for less: exactly when every unrecorded leg is not held and has no entry or scale-in outstanding |
| `StanceRuns.EveryFateEndsHonestIff` | order-listener/app/webhook_handler.py:2009-2105 | and exactly when every recorded leg has no close outstanding and trims for less than is held |
| `StanceRuns.LivePostStaysHonestIff` | social-listener/app/emitter.py:13-16 | from any state and whatever is executed or dropped, the stance is honest exactly when every recorded leg was last opened, or held and not closed; with nothing outstanding before the post, when every recorded entry was executed, or held already, no unrecorded close was, and no trim closed its leg |
| `StanceRuns.LivePostStaysKnownIff` | social-listener/app/emitter.py:13-16 | and the exchange holds no leg the stance does not know exactly when every leg so left held is recorded; with nothing outstanding before, when every recorded close of a held leg was executed and no unrecorded entry was |
| `StanceRuns.DroppedEntryIsClaimed` | order-listener/app/webhook_handler.py:2009-2105 | an entry answered with success and dropped by a guard: recorded, not held |
| `StanceRuns.RefusedCloseIsForgotten` | order-listener/app/webhook_handler.py:1465-1475 | a flip answered with success whose close is refused: the other side recorded, both held |
| `StanceRuns.OrdersOvertake` | order-listener/app/webhook_handler.py:1269-1279 | a close that overtakes its entry: every recorded step executed, nothing recorded, a leg held; in the order they were sent, flat |
| `StanceRuns.CloseOvertakesScaleIn` | social-listener/app/emitter.py:62-67 | a close that overtakes a scale-in: 500 units held that nobody records |
| `StanceRuns.TwoReachedTrimsCloseARecordedLeg` | social-listener/app/main.py:285-323 | two parked halves reached before the first is executed: recorded, nothing held |
| `StanceRuns.HalfAFlipClaimsAClosedLeg` | social-listener/app/emitter.py:27-49 | half a flip: flat on the exchange, still recorded long |
| `StanceRuns.SweepRestoresHonesty` | social-listener/app/main.py:197-228 | the sweep keeps exactly the recorded legs that are held |
| `StanceRuns.NetAccountOverStep` | social-listener/app/main.py:345-557 | one event of a net account: never both legs recorded, and track is kept of what is held and on its way |
| `StanceRuns.NetAccountOverRuns` | social-listener/app/main.py:345-557 | over every run the stance never holds both legs; when no post, sweep or replay gives up a leg with an entry or scale-in outstanding, no entry's answer is lost and no close of an unrecorded leg is dropped, neither does the exchange once nothing is outstanding, and it holds only recorded legs |
| `StanceRuns.Account.constructor` | social-listener/app/legs.py:24-31 | recorded legs, held sizes and outstanding orders |
| `StanceRuns.Account.Emit` | social-listener/app/emitter.py:116-168 | sizes the steps, fires them in order and stops at the first that is not answered with success; what is accepted is queued, not executed |
| `StanceRuns.Account.RunOrder` | order-listener/app/webhook_handler.py:1343-1388 | the background run of one accepted order, executed against the size held by then, or dropped |
| `StanceRuns.Account.HandleLive` | social-listener/app/main.py:482-557 | decide, emit, and advance only on full success |
| `StanceRuns.Account.SweepClosedLegs` | social-listener/app/main.py:197-228 | the loop over recorded legs is the sweep |
| `LevelGuards.StopIsSetIff` | social-listener/app/statemachine.py:97-158 | a post's stop is taken exactly when the post is fresh and the stop is at break-even or better, not crossed, and no looser than the last |
| `LevelGuards.TakeProfitIsSetIff` | social-listener/app/statemachine.py:161-205 | a target is taken exactly when the post is fresh and the target in profit, ahead of the market and a millionth or more off the last one |
| `LevelGuards.TakeProfitIsAhead` | social-listener/app/statemachine.py:161-205 | a target is in profit and ahead of the market |
| `LevelGuards.LevelsBracketTheMarket` | social-listener/app/statemachine.py:97-205 | stop, market and target are set in order |
| `LevelGuards.SweepLoosensIff` | social-listener/app/main.py:231-274 | the standing break-even gives up protection exactly when the stop was tightened beyond the entry and the market is still past it |
| `LevelGuards.PostSetsLevels` | social-listener/app/main.py:68-148 | what a post leaves of a leg: levels change only when one is taken and both are confirmed, the other stays where it rests, and only a break-even that was taken stands |
| `LevelGuards.StopRatchets` | social-listener/app/main.py:68-148 | over every run of posts, fills and sweeps that do not meet that case, as long as no scale-in is sent, the stop only tightens |
| `LevelGuards.SweepMidScaleIn` | social-listener/app/main.py:188-192 | a sweep between a scale-in and its execution sets the stop to the old entry; the next one gives up protection exactly when the fill pulled the entry back and the market has not come back to it |
| `LevelGuards.SweepUndoesALaterStop` | social-listener/app/main.py:231-274 | risk off at 100, stop to 110, sweep: back at 100 |
| `LevelGuards.LegRow.SetLevels` | social-listener/app/db.py:173-191 | writes only the columns that are given |
| `LevelGuards.LegRow.Apply` | social-listener/app/main.py:68-148 | the levels of a post, judged, sent together and recorded when confirmed |
| `LevelGuards.LegRow.Sweep` | social-listener/app/main.py:231-274 | the standing break-even re-asserted |
| `TrimLedger.TrimsAreRationed` | social-listener/app/db.py:291-408 | over every run of one stance, trims that count are instructed at least the interval apart and never twice at a level, and no more are accepted than intervals fit, plus one, plus those whose answer was lost |
| `TrimLedger.AdmittedRowIsSpaced` | social-listener/app/db.py:323-356 | what the check admits is an interval after, and at another level than, every trim that counts |
| `TrimLedger.AlreadyTakenIff` | social-listener/app/db.py:323-356 | a trim is a repeat exactly when a counting one has nearly its level or is less than an interval old |
| `TrimLedger.MarketTrimIsFollowedLate` | social-listener/app/db.py:351-356 | over every run, of two recorded trims the later instruction is an interval after the earlier, and so is its emission when the earlier went out at market |
| `TrimLedger.MarketTrimStaysApartIff` | social-listener/app/db.py:351-356 | in every reachable state, an admitted market trim keeps the interval to every other recorded trim in every continuation exactly when no trim is parked and none left the park within the interval |
| `TrimLedger.ParkedTrimStaysApartIff` | social-listener/app/main.py:308-323 | a parked trim that fires does exactly when it was parked this second, no other is parked, and none left the park within the interval |
| `TrimLedger.ParkedTrimFiresBesideAnother` | social-listener/app/db.py:351-356 | a parked trim and a market trim in the same second |
| `TrimLedger.TrimTable.TrimAlreadyTaken` | social-listener/app/db.py:323-356 | the walk over the rows finds a repeat exactly when there is one |
| `TrimLedger.TrimTable.FireAtMarket` | social-listener/app/main.py:497-520 | a trim at market: refused as a repeat, or sent, and entered only when answered with success |
| `TrimLedger.TrimTable.ParkAt` | social-listener/app/main.py:536-553 | a trim whose level was not reached |
| `TrimLedger.TrimTable.FireParked` | social-listener/app/main.py:308-323 | a parked trim: sent, and left parked unless answered with success |
| `TrimLedger.TrimTable.Resolve` | social-listener/app/db.py:371-408 | status transitions leave settled rows alone |
| `Exposure.Fraction` | social-listener/app/statemachine.py:32-43 | between a tenth and nine tenths, and as asked in between |
| `Exposure.Multiple` | social-listener/app/statemachine.py:46-58 | between nothing and one entry, and as asked in between |
| `Exposure.TrimIsAShare` | social-listener/app/main.py:32-65 | a trim asks for a tenth to nine tenths, to half a unit |
| `Exposure.AddStaysUnderTheCeiling` | social-listener/app/main.py:151-194 | a scale-in stays within two entries, rounding included, and within one entry |
| `Exposure.TrimsNeverCloseIff` | social-listener/app/main.py:47-60 | no trim of any fraction closes its leg exactly when a standard entry exceeds twenty units of 1e-8 |
| `Exposure.MarklessTrimsNeverCloseIff` | social-listener/app/main.py:42-56 | without a mark, and so without a floor, exactly when the leg is not down to one to four units |
| `Exposure.OutstandingOrdersAreSafeIff` | order-listener/app/webhook_handler.py:1444-1449 | every way of executing or dropping outstanding orders leaves the leg open exactly when their trims ask for less than is held, and within a ceiling exactly when their scale-ins leave room |
| `Exposure.TwoTrimsOfOneReadClose` | social-listener/app/main.py:285-323 | two parked halves sized from one read close the leg |
| `Exposure.TwoScaleInsOfOneReadPassTheCeiling` | social-listener/app/main.py:173-194 | two scale-ins sized from one read reach three entries |
| `Exposure.SizeIsConserved` | order-listener/app/webhook_handler.py:1444-1449 | held plus trimmed is opened plus added, whatever the venue executes and when |
| `Exposure.ExposureIsBounded` | social-listener/app/main.py:32-65 | over every mix of trims and scale-ins, each asked for while none is outstanding and executed late or not at all, the leg stays open, stays within two entries, and the trims are bounded by what there was to take |
| `Exposure.ExactTrimsTakeQuanta` | social-listener/app/main.py:47-65 | asked for alone and filled exactly, every executed trim takes a tenth of a fifth of an entry |
| `Exposure.TrimsDecay` | social-listener/app/main.py:47-65 | such trims leave nine tenths each, plus half a unit |
| `Exposure.AtMostTwentyTwoTrims` | social-listener/app/main.py:47-65 | between two scale-ins at most twenty-two such trims are executed |
| `Exposure.Position.FireTrim` | social-listener/app/main.py:32-65 | asks for one trim, sized from the live position |
| `Exposure.Position.FireAdd` | social-listener/app/main.py:151-194 | asks for one scale-in, sized from the live position |
| `Exposure.Position.RunOrder` | order-listener/app/webhook_handler.py:1444-1449 | executes an accepted order against the size held by then |
| `PostLock.RunKeepsInvariant` | social-listener/app/post_lock.py:42-56 | exclusion and ordering hold in every reachable state |
| `PostLock.OneHandlerPerPost` | social-listener/app/post_lock.py:42-56 | handlers in their slots are on different posts, and a trim is parked only behind its audit row |
| `PostLock.StepPays` | social-listener/app/main.py:277-323 | every event pays for what it emits, out of the one emission the post is good for or by a slip |
| `PostLock.EmissionsAreBounded` | social-listener/app/main.py:345-553 | over every interleaving of handlers, watcher, failures and crashes, a post's emissions number at most one plus its slips |
| `PostLock.FiredTrimsWereEmitted` | social-listener/app/main.py:482-534 | over every interleaving a trim is marked fired, and a handler counts its emission as landed, only after an emission for that post was accepted |
| `PostLock.AtMostOneOrderPerPost` | social-listener/app/main.py:345-553 | at most one emission when no failure falls between an emission and the write that records it |
| `PostLock.FailureBeforeTheRowEmitsAgain` | social-listener/app/main.py:482-534 | from every such state, failing there lets the next handler emit again |
| `PostLock.CanEmitIff` | social-listener/app/main.py:277-553 | another emission can be reached without a failure exactly when the post has no row and nothing to show for it, its trim is about to be parked for the first time, is parked and not just sent, or is still ahead in the pass |
| `PostLock.SlipEmitsAgainIff` | social-listener/app/main.py:277-553 | after any failure between an emission and its record, exactly when the handler was the one that failed or the trim is still parked |
| `PostLock.LostAnswerFiresTheTrimTwice` | social-listener/app/main.py:313-323 | a lost answer leaves the trim parked, whatever else is; it can be fired again exactly unless it was retired meanwhile |
| `PostLock.MessageDuringEmissionEmitsAgain` | social-listener/app/main.py:611-636 | a message that cancels the live handler between emission and row lets the post be emitted for again |
| `PostLock.Listener.TryEnter` | social-listener/app/post_lock.py:42-52 | the second caller is turned away |
| `PostLock.Listener.Exit` | social-listener/app/post_lock.py:53-56 | releases the key |
| `PostLock.Listener.Handle` | social-listener/app/main.py:345-553 | one post without interruption is its five events |
| `PostLock.Listener.Settle` | social-listener/app/main.py:285-323 | what the watcher does about one trim |
| `PostLock.Listener.SweepPendingTrims` | social-listener/app/main.py:277-323 | the loop over parked trims is its run of events |
| `Ingestor.StitchReachesIff` | market-ingestion/app/ingestor.py:178-204 | a stitch reaches the forming bar exactly when at most 1000 bars are missing |
| `Ingestor.StreamIsCompleteIff` | market-ingestion/app/ingestor.py:105-169 | for every forward feed the stream is contiguous and complete exactly when no gap exceeds one request |
| `Ingestor.StreamHoldsClosedBars` | market-ingestion/app/ingestor.py:105-204 | the stream is the old one followed by every bar up to the watched one, each with its last update, or its history where the feed skipped it |
| `Ingestor.AnyFeedIsCompleteIff` | market-ingestion/app/ingestor.py:105-169 | for every feed, in any order: contiguous and complete exactly when it starts after the stream, every bar is closed right after an update of its own, and no gap exceeds one request |
| `Ingestor.BackwardEventBreaksTheOrder` | market-ingestion/app/ingestor.py:159-161 | the failing feed: an event that goes back in time is closed under a wrong open time |
| `Ingestor.WarmupIsContiguousIff` | market-ingestion/app/ingestor.py:69-93 | warm-up keeps the stream contiguous exactly when it reports no discontinuity |
| `Ingestor.StreamSurvivesRestarts` | market-ingestion/app/ingestor.py:51-169 | so it stays over any number of restarts |
| `Ingestor.Ingestor.LoadWarmup` | market-ingestion/app/ingestor.py:69-99 | skips what the stream has and reports a discontinuity |
| `Ingestor.Ingestor.GapStitch` | market-ingestion/app/ingestor.py:178-204 | inserts the bars in between, as far as one request reaches |
| `Ingestor.Ingestor.Observe` | market-ingestion/app/ingestor.py:127-161 | one event of the feed |
| `Ingestor.Ingestor.WatchFeed` | market-ingestion/app/ingestor.py:105-169 | the watch loop is the run over the answers that are not empty |
| `Consumer.NothingIsLost` | notification-service/app/consumer.py:51-93 | over every run, failing anywhere: an acknowledged message has a log row, and one without is pending |
| `Consumer.DispatchesAreSpaced` | notification-service/app/consumer.py:25-36 | two dispatches of one key less than 24 hours apart mean that the earlier one failed before its log row |
| `Consumer.WindowIsHalfOpen` | notification-service/app/consumer.py:25-36 | at exactly 24 hours the key may be dispatched again |
| `Consumer.FailureBeforeTheLogDispatchesAgain` | notification-service/app/consumer.py:76-91 | failing between dispatch and log row dispatches again |
| `Consumer.RecurringKeyStaysSilentIff` | notification-service/app/consumer.py:63-68 | over every run, whatever else is in it, a key is dispatched again exactly when an occurrence of it is looked up 24 hours after its last row, suppressed ones included |
| `Consumer.StepDispatchesIff` | notification-service/app/consumer.py:25-36 | one event dispatches a key exactly then |
| `Consumer.AttemptOutcome` | notification-service/app/consumer.py:51-93 | what one attempt dispatches, logs and acknowledges, by how far it gets |
| `Consumer.OccurrenceRenewsTheWindow` | notification-service/app/consumer.py:63-68 | every logged occurrence renews the window, a suppressed one too |
| `Consumer.FewStuckEntriesDoNotBlock` | notification-service/app/consumer.py:105-126 | with fewer than ten stuck entries the drain leaves exactly those |
| `Consumer.FullBatchBlocks` | notification-service/app/consumer.py:105-126 | the tenth stuck entry keeps everything behind it from being tried |
| `Consumer.RoundMakesProgress` | notification-service/app/consumer.py:112-119 | a round that acknowledges something changes the batch, and any other changes nothing |
| `Consumer.NotificationConsumer.Handle` | notification-service/app/consumer.py:51-93 | one entry, as far as the attempt gets |
| `Consumer.NotificationConsumer.Round` | notification-service/app/consumer.py:120-126 | one pass over a batch |
| `Consumer.NotificationConsumer.DrainPending` | notification-service/app/consumer.py:105-126 | ends within one read more than there are pending entries, whatever fails; when entries fare the same in every round it leaves the stuck ones up to the tenth and all that is behind it |

## Left out

- Transport, storage drivers, routing, authentication, logging, notification texts, dashboards and one-off scripts.
- Exchange adapters and strategy classes: known only through what their callers rely on.
- Task interleavings of the signal engine; brackets are fed ticks and bars.
- LLM extraction, prompts, model registry, schedulers, hysteresis monitors, spread and funding planners.
- Float rounding error, apart from the named rounding of prices and sizes.
- Interleavings of webhook handlers with the reconciler below the level of a database statement.
- ModifyStops.ModifyStops: does not model an exception escaping from the adapter (order-executor/app/main.py:809-811), nor trigger sizes and the dry-run mode. The stacking result is for placements that add at most one trigger of a kind they were asked for, where it was asked for.
- PendingFills.ClaimsAreGrowth: order sizes are positive, as the order schema demands; stale-history checks and the seven-day window are left out.
- PendingFills.PassMeetsExchangeIff: is for orders of the key with a positive price, as limit orders have.
- PendingFills.SharedPositionIsNotOverclaimedIff: the strategies are listed once each.
- LedgerStore.Store.BookRealizedPnl: a database error inside the booking, which the code logs and swallows, is left out.
- LedgerStore.Store.CloseStrategyPosition: the re-application of stops after a partial close and the notification are left out.
- LiquidationGuard.TightenedStopIsBetweenInEveryBand: is for entries from 0.1 upward; `TightenedStopIsBetweenIff` decides the others.
- LiquidationGuard.Exchange.GuardPass: a confirmed placement rests at the asked price, the landing tolerance being treated separately.
- LiquidationGuard.LandingIsSafeByDistance: between 0.98% and 1.02% it depends on the rounding; `EveryLandingIsSafeIff` decides it.
- Bracket.NeverOptimisticIff: is for brackets whose targets are in order: entry, break-even no further than the first target, second target.
- LedgerStore.Store.HandleFullExternalClose: the insert of the synthetic order is taken to succeed.
- LedgerStore.Store.FlattenStrategyPositions: that no leg is left needs at most one open row per strategy, symbol and side, which the code relies on throughout.
- GuaranteedStop.FallbackStopIsInside: takes the liquidation distance as 1/leverage less the true maintenance rate; where the slack is no more than half a price step, `StopIsInsideIff` decides.
- StanceRuns.SettlesAsExecuted: a row left open at size zero, which a fill for more than was asked can leave, counts as closed.
- StanceRuns.NetAccountOverRuns: the duplicate-trim check and shadow mode are left out; they only keep steps from happening. An order that opens a leg on a net account while the other is still held is netted by the exchange; here both count as held until the close is executed.
- Stance.FresherAndCheaperStillActs: reference prices are positive; a price of zero makes the code fail, which the model keeps as its own outcome.
- TrimLedger.TrimsAreRationed: two posts handled at once could both pass the check before either is entered; here one post is checked and entered at a time.
- LevelGuards.StopRatchets: what actually rests on the exchange is the subject of ModifyStops; here a level counts as set when it was confirmed.
- Exposure.ExposureIsBounded: the venue executes at most what is asked; what it reports beyond that is left to `SizeIsConserved`.
- PostLock.EmissionsAreBounded: counts accepted emissions, not the steps of one nor their execution; level changes are not emissions. A second process would not share the lock.
- Ingestor.StreamIsCompleteIff: REST answers are complete up to their limit and open times are multiples of the interval; store failures inside the loop are left out.
- Consumer.NothingIsLost: several sinks count as one dispatch; entries trimmed from the stream by the server are left out.
- `group_bursts`, the live buffer, the excursion sampling and the classification of external closes.
