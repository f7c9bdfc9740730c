# Trading control plane: verified model

A Dafny model of the parts of `crates/api-server` that decide what happens to money between two exchange
orders, with proofs about whole, interleaved runs. `dafny verify dfyconfig.toml` checks everything.

| file | component |
|---|---|
| `FailureText.dfy` | failure reasons, their stored JSON text, and the SQL pattern match the reconciler makes on it |
| `Positions.dfy` | the position value, every mutation of it, and what the repository's UPDATE keeps of it |
| `PositionService.dfy` | the service: objects mutated field by field and written through |
| `Reconciler.dfy` | the repair pass: one guarded CASE update per row |
| `Ledger.dfy` | one position's inventory over every run of handler calls, failures, requeues and reconciler passes |
| `Crashes.dfy` | the same when processes die and the arb monitor's start-up finds the position |
| `ExitHandler.dfy` | `execute_exit`, as a value, as a method on the service, and as a run of the ledger |
| `ArbExecutor.dfy` | entry by either executor, one-legged entries, position sizing |
| `Dedup.dfy` | the dedup set as a protocol between executor, handler, reconciler and restarts |
| `Exposure.dfy` | the shared exposure limit, checked and used in two separate steps |
| `Tuner.dfy`, `TunerRuntime.dfy` | one dynamic_config row; the table, the channel and the mirrored executor settings |
| `Regime.dfy` | regime hysteresis |
| `Breaker.dfy`, `OutcomeSync.dfy` | the per-strategy breaker; folding closed positions into it, across restarts |
| `RestartGates.dfy` | the gates of a restarted executor against those of the one it replaces |
| `Rollouts.dfy` | rollout decisions and guardrails |

Conventions. `Decimal` and `f64` are `real`. Time is an integer number of seconds given to each step. Order
reports, query answers and publish results are inputs, so a theorem holds for all of them. A run is any
sequence of steps; a step whose guard fails changes nothing. Repository writes succeed unless a step says
otherwise. A fill is positive and no larger than its order.

Assumptions of single modules. `Ledger` and `Crashes`: an order's fill and its record are one step unless the
process dies in between; the arb monitor starts together with the exit handler, so its start-up pass meets no copy
in hand; it manages arb rows only. A position held to resolution, as every two-leg arb entry is, reaches ExitReady
through the manual close of the API. `Dedup`: the exchange text of a failed first entry order does not itself contain
"one-legged" or "one_legged"; such a text would make a plain failed entry count as a one-legged one.
`OutcomeSync`: all quant_signals rows joined to one position carry the same kind, and no midnight falls inside
one sync. `RestartGates`: exit timestamps are distinct, so that sorting by them fixes the order of the outcomes.

## Findings

Where an expected property does not hold of the code, the code is modelled as it is and the property has its
exact condition.

- The UPDATE of a position (crates/polymarket-core/src/db/positions.rs:113-165) writes neither the quantity nor
  the entry prices. A partial entry fill, and the zeroed price of a missing leg, are lost at the next load.
  Hence: as long as no process dies, a two-leg entry never oversells if and only if the second order filled
  completely (`ArbExecutor.TwoLegEntry`), and flattening a one-legged entry from storage also orders the leg that
  was never bought, unless its stored price was zero (`ArbExecutor.OneLeggedFlattenExact`,
  `ArbExecutor.MissingLegStaysAwayExact`).
- The reconciler gives a leg that is priced but not held the full position quantity. As long as no process dies,
  inventory is conserved in every run if and only if every outstanding leg is held (`Ledger.ConservationExact`).
- An interrupted close is requeued by the arb monitor's start-up while attempts are left. Its failure text is not
  recognised as live exposure, so once they are exhausted the inventory is written off, if and only if no leg has
  an exit price (`Crashes.InterruptedCloseExact`). Over all runs with deaths: conservation needs, besides, an exit
  price on record or nothing held (`Crashes.ConservationExact`). Every text of the exit handler is recognised.
- A fill that dies unrecorded is sold again after the start-up. Over all runs with deaths no leg is sold twice or
  beyond its holding if and only if the stored quantity is covered and either the attempts are exhausted or there
  is nothing to sell (`Crashes.OversellExact`).
- A partially filled exit order is recorded like a complete one, and the close books the unsold rest as exited:
  after a market exit booked exits equal sales if and only if every recorded fill was complete
  (`Ledger.BookedExitsExact`, `Ledger.PartialFillIsWrittenOff`).
- A position stays in Closing after a call if and only if the token lookup errs (`ExitHandler.ExitEndsDecided`).
- The exposure limit bounds every run if and only if no failed exit is requeued and no exposure query goes
  unanswered; with either, nothing does (`Exposure.LimitHoldsExact`). Short of that, `Exposure.ExposureBound`
  adds what bypassed the check to the bound.
- From a quiet state "one live position per market" holds in every run if and only if no one-legged EntryFailed
  row is stored and the executor's start-up query for the active rows is always answered (`Dedup.OneLiveExact`).
- A market can stay in the dedup set with nothing live. `Dedup.LockOutExact` says which steps do that: the
  executor's insert after its position stopped being live; the reconciler's demotion of a failed exit; and a
  restart that reloads a Pending or Stalled row in a market with no live one, as left by a crash between the
  insert of the row and its fill. Only a restart without such a row, or one whose query fails, frees it; over
  runs this is `Dedup.LockOutOverRuns`.
- Both rollbacks of the tuner write back a value of the rows loaded earlier. After a manual override in between
  the row is inconsistent: each is sound if and only if the snapshot's value is still the row's
  (`Tuner.RevertExact`, `Tuner.RollbackExact`). Replacing a row's bounds keeps its default inside if and only if
  it was inside the new ones (`Tuner.ReboundExact`).
- A subscriber's failed start-up queries are only logged. Agreement survives a failed snapshot if and only if the
  value had been delivered already, and failed bounds if and only if the built-in bounds let the value through
  (`TunerRuntime.ReconnectExact`).
- A daily-loss halt lasts the rest of the day if and only if no outcome before the last second completes a loss
  streak with the P&L back within the limit (`Breaker.DailyHaltExact`); for all sane limits such a day exists
  (`Breaker.DailyLossHaltCanBeLifted`).
- After a restart a strategy's day P&L is short of the day's sum by exactly what `OutcomeSync.StartUpGap` says:
  nothing if query and read answered, the whole sum if the read failed, minus what was read if the query failed;
  no sync of that day makes up for it (`OutcomeSync.GapLastsTheDay`).
- A restarted executor whose query answers lets a signal through that the running one blocks if and only if it
  could not read the strategy's row (`RestartGates.LessStrictExact`). Otherwise it is stricter, exactly while it
  serves again, from the restart, a consecutive-loss halt that the other has been relieved of
  (`RestartGates.GatesAgreeExact`); for all sane limits that happens (`RestartGates.RestartForgetsCooldown`). If
  the query fails, a profit counted twice can hide a loss (`RestartGates.DoubledProfitOpensGate`).
- The service's header comment describes load, validate, mutate, persist; no method loads. The model follows the
  code: a caller's copy may be older than the row.

## Model

| member | source | states |
|---|---|---|
| FailureText.HandlerReasonsAreLive | crates/api-server/src/exit_handler.rs:373-556 | for every error text, each reason the exit handler writes is recognised by the reconciler as live exposure after JSON escaping |
| FailureText.InterruptedClosingIsNotLive | crates/arb-monitor/src/position_tracker.rs:492-504 | the start-up text of the arb monitor matches none of the reconciler's patterns |
| FailureText.EscapeRoundTrip | crates/polymarket-core/src/db/positions.rs:113-165 | a reader of the stored JSON gets every message back, whatever its characters |
| FailureText.StoredTextTellsReason | crates/polymarket-core/src/db/positions.rs:113-165 | the stored text determines the reason, for every reason the modelled code writes |
| FailureText.HandlerReasonTellsAll | crates/api-server/src/exit_handler.rs:373-556 | a reason the exit handler wrote tells the branch, the leg and the text |
| FailureText.OneLeggedReasonIsSeenBySql | crates/polymarket-core/src/types/position.rs:700-713 | every reason the service takes for a one-legged entry is one to the reconciler's patterns too |
| FailureText.SqlSeesMore | crates/api-server/src/position_reconciler.rs:83-92 | the same text in a reason of another kind is one-legged to the reconciler alone |
| FailureText.MatchInMessage | crates/api-server/src/position_reconciler.rs:83-108 | a pattern found in the literal head of a message is found in the stored text, whatever follows it |
| Reconciler.GuardIsExact | crates/api-server/src/position_reconciler.rs:199-241 | the WHERE guard fires exactly on rows the SET would change, and on the named rows it rewrites to themselves |
| Reconciler.OpenMeansActive | crates/api-server/src/position_reconciler.rs:186-191 | after a pass a row is open exactly when its state is neither Closed nor EntryFailed |
| Reconciler.PendingAndClosedAreLeftAlone | crates/api-server/src/position_reconciler.rs:70-115 | Pending and Closed rows are never touched |
| Reconciler.MarksOfLiveRow | crates/api-server/src/position_reconciler.rs:150-184 | price and unrealised P&L of a live row from its outstanding legs, their quotes or entry prices, and the quantity |
| Reconciler.MarksOfFailedRow | crates/api-server/src/position_reconciler.rs:126-184 | marks and states of hidden one-legged, dead and plain failed rows |
| Reconciler.StateSettlesForGood | crates/api-server/src/position_reconciler.rs:116-197 | the state after one pass is the state after any further passes, at any prices |
| Reconciler.RowSettlesForGood | crates/api-server/src/position_reconciler.rs:116-241 | with prices unchanged the row is a fixed point after two passes |
| Reconciler.PassKeepsBackedRows | crates/api-server/src/position_reconciler.rs:199-216 | on a live row whose outstanding legs are held, a pass changes marks only |
| Reconciler.PassInventsInventory | crates/api-server/src/position_reconciler.rs:207-216 | an outstanding leg with nothing held receives the full position quantity |
| Reconciler.HandlerFailuresSurvive | crates/api-server/src/position_reconciler.rs:93-108 | no pass demotes a failure the exit handler wrote or reduces a held quantity of it |
| Reconciler.InterruptedFailureIsWrittenOff | crates/api-server/src/position_reconciler.rs:185-216 | a row left with the monitor's start-up failure is demoted and emptied exactly when no leg has an exit price |
| Reconciler.PassesFrame | crates/api-server/src/position_reconciler.rs:199-216 | on any row, any passes leave sizes, prices, exits and attempts alone and move states only among the two failures |
| Reconciler.HiddenOneLeggedGrowsPhantomLeg | crates/api-server/src/position_reconciler.rs:126-135 | a hidden one-legged entry is promoted in one pass and receives the leg it never bought in the next |
| Reconciler.UpdateWhere | crates/api-server/src/position_reconciler.rs:199-241 | a loop over the table changes exactly the selected rows, each once, and reports them |
| Reconciler.PositionTable.ReconcileCycle | crates/api-server/src/position_reconciler.rs:60-241 | every row takes one pass against its own quote; the count is the number of rows written |
| Positions.ExitFillMovesInventory | crates/polymarket-core/src/types/position.rs:297-424 | a recorded fill puts its price on record and moves its quantity from held to exited, and nothing else |
| Positions.ExitFillRefusedExact | crates/api-server/src/position_service.rs:359-388 | a fill is refused exactly when it exceeds the holding, its leg is not outstanding, or the position is over |
| Positions.EntryFillBuysInventory | crates/polymarket-core/src/types/position.rs:387-398 | an entry fill sets price and quantity and grows the holding by it |
| Positions.ResolutionPays | crates/polymarket-core/src/types/position.rs:502-530 | a resolution pays one to unsold winning legs and zero to unsold losing ones, keeps sold legs' prices, and holds nothing after |
| Positions.OtherClosesKeepPrices | crates/polymarket-core/src/types/position.rs:442-471 | the other closes set no price; a market exit is refused exactly while a leg is unsold |
| Positions.LifecycleLaw | crates/polymarket-core/src/types/position.rs:256-294 | each move of the lifecycle is possible from one state only and changes nothing else |
| Positions.NewRowShows | crates/polymarket-core/src/db/positions.rs:54-110 | a new position and its row: Pending, open, priced as asked, nothing held |
| Positions.FailuresAreOnRecord | crates/polymarket-core/src/types/position.rs:616-659 | reason and attempts of failures, and exactly when the requeue is possible |
| Positions.OneLeggedTransitionLaw | crates/api-server/src/position_service.rs:616-652 | held leg kept, missing leg cleared, the reason names the held leg |
| Positions.FullPairMeansBothSides | crates/polymarket-core/src/types/position.rs:374-382 | a full pair has both sides held, or both outstanding on rows without quantities |
| Positions.SavedRowShows | crates/polymarket-core/src/db/positions.rs:113-165 | which columns a save takes from the object and which it keeps, and when the row is open |
| PositionService.Service.CreatePosition | crates/api-server/src/position_service.rs:105-141 | a new Pending object and its inserted row |
| PositionService.Service.Update | crates/polymarket-core/src/db/positions.rs:113-165 | the stored row takes every mutable column except quantity and entry prices |
| PositionService.Service.RecordEntryFill | crates/api-server/src/position_service.rs:154-202 | quantity and entry price follow the fill, held grows by it; the row keeps its own quantity and prices |
| PositionService.Service.MarkOpen | crates/api-server/src/position_service.rs:208-238 | Pending to Open or an error that changes nothing |
| PositionService.Service.MarkEntryFailed | crates/api-server/src/position_service.rs:241-272 | any state to EntryFailed with its reason |
| PositionService.Service.MarkExitReady | crates/api-server/src/position_service.rs:275-307 | Open to ExitReady or an error that changes nothing |
| PositionService.Service.MarkClosing | crates/api-server/src/position_service.rs:310-340 | ExitReady to Closing or an error that changes nothing |
| PositionService.Service.RecordExitFill | crates/api-server/src/position_service.rs:348-416 | exit price set and quantity moved from held to exited together, or nothing at all |
| PositionService.Service.ClosePosition | crates/api-server/src/position_service.rs:421-490 | each of the three close methods, with its refusals, ends with both held quantities moved to exited |
| PositionService.Service.MarkExitFailed | crates/api-server/src/position_service.rs:495-525 | ExitFailed with its reason and one more attempt counted |
| PositionService.Service.AttemptExitRecovery | crates/api-server/src/position_service.rs:531-565 | requeued exactly while attempts remain |
| PositionService.Service.TransitionOneLegged | crates/api-server/src/position_service.rs:609-680 | from Pending or EntryFailed the missing leg is cleared and the position is ExitReady |
| PositionService.LastSaveWins | crates/polymarket-core/src/db/positions.rs:113-165 | successive saves leave what the last one alone would leave |
| Ledger.BooksAreConserved | crates/api-server/src/position_service.rs:344-466 | over every run in which no process dies held + exited of each leg is constant, and Closed holds nothing |
| Ledger.ConservationExact | crates/api-server/src/position_reconciler.rs:207-216 | conservation holds in every such run exactly when each outstanding leg is held |
| Ledger.NeverSoldAgain | crates/api-server/src/exit_handler.rs:388-573 | from any row, once a leg's exit is recorded no continuation by failures, requeues, reloads, deaths, start-ups or passes sells it again or changes the price |
| Ledger.MarketExitNeedsEveryFill | crates/api-server/src/position_service.rs:421-466 | from any row, a market exit closes only after every outstanding leg was sold and its fill recorded |
| Ledger.ExitPriceIsTheFills | crates/api-server/src/position_service.rs:348-388 | from any row, unless a resolution closed it, the exit price on record is that of the leg's last fill |
| Ledger.BooksFollowSales | crates/polymarket-core/src/types/position.rs:399-424 | in every calm run from a covered row, until it is closed, a leg has exited exactly what was sold of it and holds exactly the rest |
| Ledger.RunStaysCovered | crates/api-server/src/exit_handler.rs:388-573 | refinement for a covered quantity: over every run each leg is sold at most once in all, and within its holding |
| Ledger.SellStaysCovered | crates/api-server/src/position_service.rs:359-388 | on a covered position the over-fill guard never rejects a fill no larger than its order |
| Ledger.OversellExact | crates/api-server/src/exit_handler.rs:390-486 | while no process dies, no leg is ever sold twice or beyond its holding exactly when the stored quantity is covered |
| Ledger.MarketExitSoldEveryHeldLeg | crates/api-server/src/exit_handler.rs:560-590 | refinement for a covered quantity: the sale before a market exit is the only one and within the holding |
| Ledger.BookedExitsExact | crates/api-server/src/position_service.rs:436-466 | after a market exit, booked exits of a leg equal its sales exactly when every recorded fill of it was complete |
| Ledger.PartialFillIsWrittenOff | crates/polymarket-core/src/types/order.rs:288-290 | every partial fill of a single held leg leads to a close that books the unsold rest as exited |
| Ledger.UnpricedLegIsNeverSold | crates/api-server/src/exit_handler.rs:388-397 | a leg without an entry price is not sold in any run |
| Ledger.MarkIsStored | crates/api-server/src/exit_handler.rs:257-315 | a fresh mark reaches the stored row, only while Open |
| Ledger.FailedExitIsRetried | crates/api-server/src/exit_handler.rs:1348-1389 | the next sweep requeues a failed exit with attempts left, both legs as they were |
| Ledger.RetriesAreBounded | crates/api-server/src/exit_handler.rs:1348-1389 | a position is sent to exit at most three times, over every run, deaths and start-ups included |
| Ledger.MonitorFrame | crates/arb-monitor/src/position_tracker.rs:343-370 | what the monitor's start-up leaves alone on any row, and how it changes state and attempts |
| Crashes.InterruptedCloseExact | crates/arb-monitor/src/position_tracker.rs:492-526 | an interrupted close ends EntryFailed and emptied exactly when no leg has an exit price and the attempts are exhausted; else it is requeued unchanged |
| Crashes.MonitorKeepsBooks | crates/arb-monitor/src/position_tracker.rs:343-370 | with an exit price on record the start-up keeps the books |
| Crashes.NeverBoughtStaysEmpty | crates/api-server/src/position_reconciler.rs:207-216 | no run with deaths and start-ups puts inventory on a leg without price and holding |
| Crashes.WriteOff | crates/arb-monitor/src/position_tracker.rs:492-526 | interrupted closes until the attempts are exhausted, and one pass, write everything held off |
| Crashes.ConservationExact | crates/arb-monitor/src/position_tracker.rs:449-526 | over all runs conservation holds exactly when outstanding legs are held and an exit is on record or nothing is held |
| Crashes.SellTwiceRuns | crates/arb-monitor/src/position_tracker.rs:343-370 | a fill that dies unrecorded is requeued and sold again |
| Crashes.OversellExact | crates/api-server/src/exit_handler.rs:390-486 | over all runs no leg is sold twice or beyond its holding exactly when covered and out of attempts, or with nothing to sell |
| ExitHandler.ExitEndsDecided | crates/api-server/src/exit_handler.rs:341-618 | a call ends Closed or ExitFailed, and stays in Closing exactly when the token lookup errs |
| ExitHandler.ExitSellsHeldLegs | crates/api-server/src/exit_handler.rs:388-486 | at most one order per held leg, YES first, at the position quantity |
| ExitHandler.RecordedLegsAreLeftAlone | crates/polymarket-core/src/types/position.rs:359-367 | a leg with a recorded exit is never ordered again and keeps its price |
| ExitHandler.ErrorOnResolvedMarket | crates/api-server/src/exit_handler.rs:707-785 | an order error on a resolved market: the winner's payouts, the conservative close of a pair, or a failed exit |
| ExitHandler.ErrorOnOpenMarket | crates/api-server/src/exit_handler.rs:428-436 | on any other market it fails the exit and leaves both legs alone |
| ExitHandler.LegStepAgrees | crates/api-server/src/exit_handler.rs:388-470 | one leg's order, as a value, is one ledger step |
| ExitHandler.ExecuteExitIsALedgerRun | crates/api-server/src/exit_handler.rs:341-618 | every call of execute_exit is a run of the ledger, so the ledger's theorems apply to it |
| ExitHandler.Handler.CloseIfResolved | crates/api-server/src/exit_handler.rs:707-785 | closes with a winner, conservatively for a full pair, or not at all; dedup removal only with a close |
| ExitHandler.Handler.SellOne | crates/api-server/src/exit_handler.rs:397-470 | one sell order with all its error branches: object, row, dedup set |
| ExitHandler.Handler.ExecuteExit | crates/api-server/src/exit_handler.rs:341-618 | the whole call: object, orders, row, and removal from the dedup set exactly on a close |
| ArbExecutor.Executor.EnterArb | crates/api-server/src/arb_executor.rs:1237-1469 | the executor's calls produce the specified object and row, and the shared set gains the market exactly when the position is active |
| ArbExecutor.Executor.FinishEntry | crates/api-server/src/arb_executor.rs:1354-1469 | the second order's report: both legs open, or the one-legged transition; tracked either way |
| ArbExecutor.EntryFailureIsOnRecord | crates/api-server/src/arb_executor.rs:1290-1338 | a failed first order is on record as error or rejection, with the exchange's text |
| ArbExecutor.OneLeggedEntryIsOnRecord | crates/api-server/src/arb_executor.rs:1375-1425 | a one-legged entry keeps the second order's text and says how it failed |
| ArbExecutor.TwoLegEntry | crates/api-server/src/arb_executor.rs:1342-1469 | while no process dies a two-leg entry conserves, and never oversells exactly when the second fill was complete; with deaths it does neither |
| ArbExecutor.SingleLegEntry | crates/api-server/src/quant_signal_executor.rs:1104-1270 | the same for a single-leg entry |
| ArbExecutor.OneLeggedEntryResurrects | crates/api-server/src/position_service.rs:616-652 | the object sells only the filled leg; the stored row oversells and regains the missing leg in one pass |
| ArbExecutor.OneLeggedFlattenExact | crates/api-server/src/exit_handler.rs:388-397 | a stored one-legged position never orders the missing leg exactly when that leg's stored price is not positive |
| ArbExecutor.MissingLegStaysAwayExact | crates/api-server/src/position_service.rs:616-652 | over all runs with reconciler passes, deaths and start-ups the missing leg gets no inventory and no sale exactly when its stored price is not positive |
| ArbExecutor.SizeAboveCeiling | crates/api-server/src/arb_executor.rs:1113-1140 | a threshold above five cents gives every admitted signal the minimum size |
| ArbExecutor.SizeBoundedAndMonotone | crates/api-server/src/arb_executor.rs:1113-1140 | for every threshold the size is in [min, max] and grows with net profit |
| ArbExecutor.SizeScale | crates/api-server/src/arb_executor.rs:1113-1140 | the minimum at the threshold, the maximum from five cents on, the middle halfway |
| ArbExecutor.SizeIsLinear | crates/api-server/src/arb_executor.rs:1113-1140 | in between the size is linear in net profit |
| ArbExecutor.FinalSizeScales | crates/api-server/src/arb_executor.rs:1141-1152 | a rollout's multiplier scales the size |
| ArbExecutor.FinalSizeBounded | crates/api-server/src/arb_executor.rs:1113-1164 | with a rollout multiplier the size is in [0.05 min, max] |
| ArbExecutor.EntryExposureIsSize | crates/polymarket-core/src/db/positions.rs:643-656 | the exposure a new row adds is the position size it was given |
| Dedup.StepKeepsInv | crates/api-server/src/arb_executor.rs:1382-1469 | every step of executor, handler, reconciler and answered restart keeps the protocol invariant |
| Dedup.OneLivePositionPerMarket | crates/api-server/src/arb_executor.rs:933-946 | in every interleaving with answered restarts at most one live arb position per market |
| Dedup.OneLiveExact | crates/api-server/src/exit_handler.rs:1248-1313 | that holds in every run exactly when no hidden one-legged row is stored and no start-up query goes unanswered |
| Dedup.BlindRestartsCollide | crates/api-server/src/arb_executor.rs:649-656 | restarts whose query fails allow two live positions in any market |
| Dedup.SkipAndMoveLaw | crates/api-server/src/arb_executor.rs:933-946 | tracked markets are refused, skipped signals leave no trace, and positions follow their exit whatever the executor does |
| Dedup.FailedEntryFreesMarket | crates/api-server/src/arb_executor.rs:1290-1338 | a failed first order leaves the market free for the next signal |
| Dedup.HiddenRecoveryTracks | crates/api-server/src/exit_handler.rs:1248-1313 | the recovery of a hidden row makes it live and tracks its market |
| Dedup.CloseThenRemove | crates/api-server/src/exit_handler.rs:585-592 | a close and its removal take exactly that market out of the set |
| Dedup.LockOutIsPermanent | crates/api-server/src/arb_executor.rs:933-946 | a tracked market with nothing live stays closed in every run without a restart |
| Dedup.LockOutExact | crates/api-server/src/arb_executor.rs:612-656 | for every step, failed start-up queries and demotions included, exactly what locks a market out and what frees it |
| Dedup.LockOutOverRuns | crates/api-server/src/arb_executor.rs:1382-1469 | over every run, locked out exactly when some step locked it out and no restart came after |
| Dedup.LockedOutMeansNoEntry | crates/api-server/src/arb_executor.rs:933-946 | no step puts a new position into a locked-out market or makes one live there |
| Dedup.DemotionLocksOut | crates/api-server/src/position_reconciler.rs:185-197 | with both tasks at rest every demotion of a failed exit locks its market out |
| Dedup.CrashDuringEntryLocksOut | crates/api-server/src/arb_executor.rs:649-656 | a crash between insert and fill locks the market out at the next start |
| Dedup.LockOutIsReachable | crates/api-server/src/exit_handler.rs:590-760 | a close before the executor's insert produces such a market |
| Exposure.CountedStates | crates/polymarket-core/src/db/positions.rs:643-656 | which states count towards the total, and which do not |
| Exposure.OneInsertPerCheck | crates/api-server/src/arb_executor.rs:961-981 | a check lets its executor insert one position and no second; an abandoned check none |
| Exposure.ExposureBound | crates/api-server/src/quant_signal_executor.rs:1067-1104 | over every interleaving, exposure is below limit plus one largest position per executor plus what bypassed the check |
| Exposure.CheckedExposureBound | crates/api-server/src/arb_executor.rs:961-981 | the plain bound when every query answers and nothing becomes active again |
| Exposure.BoundIsTight | crates/api-server/src/arb_executor.rs:961-981 | both executors can pass on the same total and add their largest positions |
| Exposure.LimitHoldsExact | crates/api-server/src/arb_executor.rs:961-981 | the limit plus one largest position per executor bounds every run exactly when neither bypass can occur; else no amount does |
| Exposure.UnansweredHaveNoBound | crates/api-server/src/arb_executor.rs:977-980 | unanswered queries alone exceed any amount |
| Exposure.RetriesHaveNoBound | crates/polymarket-core/src/db/positions.rs:643-656 | with requeued exits some run exceeds any amount although every query answers |
| Tuner.StepKeepsInv | crates/api-server/src/dynamic_tuner.rs:990-1123 | every operation keeps bounds, "settled means current = last good" and "pending means applied at" |
| Tuner.RunKeepsInv | crates/api-server/src/dynamic_tuner.rs:990-1021 | the row invariant over all runs from a seeded row |
| Tuner.ReboundExact | crates/api-server/src/handlers/workspaces.rs:2804-2835 | replacing bounds keeps the default inside exactly when it already was |
| Tuner.RevertExact | crates/api-server/src/dynamic_tuner.rs:1097-1123 | a revert from a snapshot is sound exactly when the snapshot's value is the row's last good one |
| Tuner.RollbackExact | crates/api-server/src/dynamic_tuner.rs:530-545 | the evaluation's rollback is sound exactly when the snapshot's last good value is still the row's; a pass always is |
| Tuner.RollbackAfterOverrideBreaksInv | crates/api-server/examples/set_dynamic_config.rs:58-79 | an override between load and rollback leaves a settled row whose value is not its last good one |
| Tuner.RevertAfterOverrideBreaksInv | crates/api-server/examples/set_dynamic_config.rs:58-79 | an override between load and revert breaks the row invariant |
| Tuner.LastGoodIsInForce | crates/api-server/src/dynamic_tuner.rs:530-591 | in every run last good is the value at the latest settled moment, carried over changes of bounds |
| Tuner.RollbacksRestore | crates/api-server/src/dynamic_tuner.rs:420-577 | both rollbacks restore the value in force before the one unevaluated change |
| Tuner.RollbackRestoresOverride | crates/api-server/examples/set_dynamic_config.rs:52-79 | an override takes its clamped value, and a degraded change on top of it rolls back to that value |
| Tuner.StepLimitIsMaxDelta | crates/api-server/src/dynamic_tuner.rs:1657-1668 | the step limit is the larger of 0.0001 and the row's percentage (12% if unset) of the value, or near zero of the larger of the default and one |
| Tuner.StepLaw | crates/api-server/src/dynamic_tuner.rs:1657-1675 | no overshoot, no step beyond that limit, the exact remaining distance, and the skip exactly within EPSILON |
| Tuner.EvaluationLaw | crates/api-server/src/dynamic_tuner.rs:500-591 | nothing before the delay; then a P&L drop alone or a fill-rate drop alone beyond tolerance rolls back, and neither accepts |
| Tuner.LeftAlone | crates/api-server/src/dynamic_tuner.rs:376-386 | disabled rows and rows with an unevaluated change are not tuned |
| Tuner.ChangeIsOnRecord | crates/api-server/src/dynamic_tuner.rs:1050-1066 | what an applied change writes down |
| Tuner.RevertLaw | crates/api-server/src/dynamic_tuner.rs:1097-1123 | a reverted change leaves the value and no trace of a pending evaluation |
| Tuner.ReseedLaw | crates/api-server/src/dynamic_tuner.rs:1003-1021 | untouched rows follow the new default, others keep any value within the new bounds |
| Tuner.SeedLaw | crates/api-server/src/dynamic_tuner.rs:1003-1007 | a fresh seed is enabled, settled and untouched |
| Tuner.ManualLaw | crates/api-server/examples/set_dynamic_config.rs:52-79 | both manual forms settle the row at a value within bounds and end any pending evaluation |
| Tuner.ClampIsNearest | crates/api-server/src/dynamic_tuner.rs:1626-1628 | the clamp is the nearest value within the bounds |
| Tuner.RoundsConverge | crates/api-server/src/dynamic_tuner.rs:387-400 | distance to the clamped target shrinks by at least 0.0001 per change until the skip |
| Tuner.ReachesTarget | crates/api-server/src/dynamic_tuner.rs:387-400 | after distance / 0.0001 changes the row is within EPSILON and stays there |
| TunerRuntime.Subscriber.Receive | crates/api-server/src/dynamic_tuner.rs:1310-1402 | the receive loop applies each allowed, supported, clamped message in order |
| TunerRuntime.DynamicTuner.EvaluatePending | crates/api-server/src/dynamic_tuner.rs:490-605 | the loop over the loaded rows keeps or rolls back each due one and publishes what it rolled back |
| TunerRuntime.DynamicTuner.TuneTargets | crates/api-server/src/dynamic_tuner.rs:376-461 | the loop over the loaded rows applies each bounded change, reverts it if unpublished, and stops at a database error |
| TunerRuntime.TablesAgree | crates/api-server/src/dynamic_tuner.rs:918-988 | seeds, built-in bounds and workspace forms give every key the same bounds and steps |
| TunerRuntime.TuningTells | crates/api-server/src/dynamic_tuner.rs:420-447 | what a tuned key puts on the channel, and that no other row changes |
| TunerRuntime.EvaluationTells | crates/api-server/src/dynamic_tuner.rs:530-605 | what an evaluated key puts on the channel, and that no other row changes |
| TunerRuntime.OverrideTells | crates/api-server/examples/set_dynamic_config.rs:52-129 | a manual override reaches the row with its default, and the channel if published |
| TunerRuntime.ConnectionLaw | crates/api-server/src/dynamic_tuner.rs:1275-1308 | bounds and settings after a connection, key by key, for every combination of answers |
| TunerRuntime.InterruptionEndsThePass | crates/api-server/src/dynamic_tuner.rs:420-447 | after a database error the rest of the pass is not touched |
| TunerRuntime.DeliveredValue | crates/api-server/src/dynamic_tuner.rs:1346-1391 | a message within bounds: the named setting takes its value, the signal age its whole part, nothing else changes |
| TunerRuntime.UnknownSourceIsIgnored | crates/api-server/src/dynamic_tuner.rs:1559-1564 | nothing from an unknown source gets through |
| TunerRuntime.SyncTellsEnabledRows | crates/api-server/src/dynamic_tuner.rs:277-297 | the startup publish tells every enabled row and no other |
| TunerRuntime.SettingsAreTheRows | crates/api-server/src/dynamic_tuner.rs:1346-1391 | after every loud run, once drained, the four decimal settings are the rows' values and the signal age is the whole part of its row's |
| TunerRuntime.SeededRowsSurviveFailedBounds | crates/api-server/src/dynamic_tuner.rs:1421-1435 | a failed bounds query does not hurt rows with seeded bounds |
| TunerRuntime.ClampIsIdle | crates/api-server/src/dynamic_tuner.rs:1566-1576 | with matching bounds the subscriber's clamp never alters a value the row's bounds allow |
| TunerRuntime.AgreementExact | crates/api-server/src/dynamic_tuner.rs:1566-1576 | a key that is not stale agrees exactly when the subscriber's bounds let its value through |
| TunerRuntime.DrainedFront | crates/api-server/src/dynamic_tuner.rs:1310-1402 | delivering message by message is draining the whole channel |
| TunerRuntime.EventKeepsInv | crates/api-server/src/dynamic_tuner.rs:420-577 | every write, delivery, foreign message and reconnect, failed queries included, keeps keys that are not stale following their rows |
| TunerRuntime.ReconnectKeepsInv | crates/api-server/src/dynamic_tuner.rs:1275-1308 | a reconnect re-establishes every key whose snapshot answered, whatever was lost |
| TunerRuntime.ReconnectExact | crates/api-server/src/dynamic_tuner.rs:1296-1308 | exactly when agreement survives a failed snapshot or failed bounds |
| TunerRuntime.TuningKeepsInv | crates/api-server/src/dynamic_tuner.rs:376-461 | a whole tuning pass keeps the system invariant |
| TunerRuntime.EvaluationKeepsInv | crates/api-server/src/dynamic_tuner.rs:490-605 | a whole evaluation pass keeps the system invariant |
| TunerRuntime.RuntimeAgrees | crates/api-server/src/dynamic_tuner.rs:1296-1402 | once drained, each mirrored setting equals its row after every run without an unpublished change or failed connection query; failed applies allowed |
| TunerRuntime.SilentRollbackExact | crates/api-server/src/dynamic_tuner.rs:558-577 | a rollback whose publish fails keeps agreement exactly when it does not change the mirrored value |
| Regime.ResolveRegime | crates/api-server/src/dynamic_tuner.rs:733-764 | the three variables after one observation |
| Regime.RunCycles | crates/api-server/src/dynamic_tuner.rs:260-322 | the regime after any cycles is the one the observations determine |
| Regime.StableIsLatestRun | crates/api-server/src/dynamic_tuner.rs:733-764 | the counter computes the latest run of max(N, 1) equal observations, else the initial regime |
| Regime.DeterminedIsUnique | crates/api-server/src/dynamic_tuner.rs:733-764 | that description determines one regime |
| Breaker.StrategyState.DoRefresh | crates/api-server/src/quant_signal_executor.rs:169-215 | day rollover, and the cooldown that lifts consecutive-loss halts only |
| Breaker.StrategyState.Record | crates/api-server/src/quant_signal_executor.rs:218-257 | the new state, and true exactly when a limit is crossed |
| Breaker.DayLength | crates/api-server/src/quant_signal_executor.rs:170-175 | a day is twenty-four hours and starts at each multiple of them |
| Breaker.RunsAreSafe | crates/api-server/src/quant_signal_executor.rs:169-257 | over every run a daily loss beyond the limit is a daily-loss halt, and a full loss counter is a halt |
| Breaker.SafetyExact | crates/api-server/src/quant_signal_executor.rs:169-257 | that holds in all runs exactly for limits at least 0 and 1 |
| Breaker.CountersMatchHistory | crates/api-server/src/quant_signal_executor.rs:178-228 | day P&L is the sum of that day's outcomes; the loss counter is at most the streak, equal without cooldowns |
| Breaker.GateBlocks | crates/api-server/src/quant_signal_executor.rs:731-752 | no signal passes while the day's sum is below the limit or the counter is full |
| Breaker.HaltHasCause | crates/api-server/src/quant_signal_executor.rs:169-185 | over every run a halt is due to an outcome of the same UTC day |
| Breaker.QuietDayPasses | crates/api-server/src/quant_signal_executor.rs:169-185 | on a day without outcomes every signal passes, whatever halted the strategy before |
| Breaker.DailyHaltStep | crates/api-server/src/quant_signal_executor.rs:218-257 | one event of the day: the halt stays, and exactly which outcome replaces its reason |
| Breaker.DailyHaltExact | crates/api-server/src/quant_signal_executor.rs:196-257 | every signal of the rest of the day is blocked, whatever the cooldowns, exactly when no outcome before its last second replaces the reason |
| Breaker.DailyLossHaltCanBeLifted | crates/api-server/src/quant_signal_executor.rs:196-257 | for all sane limits and every cooldown within the day, a day on which the cooldown lifts a daily-loss halt |
| OutcomeSync.QuantExecutor.RecordStrategyOutcome | crates/api-server/src/quant_signal_executor.rs:1285-1321 | zero P&L is skipped, anything else is recorded and persisted |
| OutcomeSync.QuantExecutor.SyncStrategyOutcomes | crates/api-server/src/quant_signal_executor.rs:531-593 | the loop with its processed set, midnight clearing and failed query |
| OutcomeSync.QuantExecutor.StartUp | crates/api-server/src/quant_signal_executor.rs:452-468 | one sync, then every state overwritten by its stored row, or by a fresh one where the read fails |
| OutcomeSync.KindRoundTrip | crates/api-server/src/quant_signal_executor.rs:1442-1450 | the four stored kinds are read back as written, and no other text is taken for one |
| OutcomeSync.FoldAddsOnce | crates/api-server/src/quant_signal_executor.rs:574-593 | whatever order and duplicates, each unseen position is added exactly once and the result is stored |
| OutcomeSync.RestartKeepsInv | crates/api-server/src/quant_signal_executor.rs:260-329 | replay, persist and load, answered or not, keep the invariant of the running executor |
| OutcomeSync.RunKeepsInv | crates/api-server/src/quant_signal_executor.rs:531-593 | closes, signals, syncs, failed syncs and restarts in any order keep the invariant |
| OutcomeSync.StartUpGap | crates/api-server/src/quant_signal_executor.rs:297-329 | exactly what a start-up leaves out of a day P&L, for every combination of failed query and failed read |
| OutcomeSync.GapLastsTheDay | crates/api-server/src/quant_signal_executor.rs:531-593 | no sync of the day changes that gap |
| OutcomeSync.DayPnlExact | crates/api-server/src/quant_signal_executor.rs:531-593 | after any run, a sync leaves each strategy with the sum over distinct positions closed that day, short of exactly the gap |
| OutcomeSync.ExactlyOnce | crates/api-server/src/quant_signal_executor.rs:531-593 | in runs whose start-ups were answered, with exactly that sum |
| OutcomeSync.FailedLoadOpensGate | crates/api-server/src/quant_signal_executor.rs:321-327 | a strategy whose read failed passes every signal until its next outcome |
| OutcomeSync.RestartEquivalence | crates/api-server/src/quant_signal_executor.rs:452-468 | both day P&Ls, equal exactly when the strategy was read or the day's sum is zero |
| OutcomeSync.OverLimitIsGated | crates/api-server/src/quant_signal_executor.rs:731-752 | after a sync or restart a strategy whose sum, short of the gap, is below its limit lets no signal through that day |
| OutcomeSync.FailedStartupDoubleCounts | crates/api-server/src/quant_signal_executor.rs:561-572 | after a failed start-up query the next sync is off by exactly the loaded P&L |
| RestartGates.OutcomeKeepsTracks | crates/api-server/src/quant_signal_executor.rs:218-257 | an outcome keeps a running state at most as strict as the replay and equal on the daily loss |
| RestartGates.FoldKeepsTracks | crates/api-server/src/quant_signal_executor.rs:574-593 | folding a sorted answer advances every state and the replay together |
| RestartGates.RestartTracks | crates/api-server/src/quant_signal_executor.rs:452-468 | a restarted state that was read equals the replay of the day's outcomes, with halts dated from the restart |
| RestartGates.RunKeepsOrder | crates/api-server/src/quant_signal_executor.rs:531-593 | closes, signals, syncs and restarts in any order, answered on the day in question, keep a state following the replay |
| RestartGates.GatesAgreeExact | crates/api-server/src/quant_signal_executor.rs:731-752 | after every run the gate of a strategy that was read is at least as strict, and exactly when it differs |
| RestartGates.LessStrictExact | crates/api-server/src/quant_signal_executor.rs:321-327 | a signal the running gate blocks passes the restarted one exactly when the strategy was not read |
| RestartGates.DoubledProfitOpensGate | crates/api-server/src/quant_signal_executor.rs:561-572 | after a failed start-up query a profit counted twice opens a gate that the running executor keeps shut |
| RestartGates.GatesAgreeWithoutLifts | crates/api-server/src/quant_signal_executor.rs:188-213 | without a lifted halt that day, P&L, halt, reason and loss counter are the same after a restart, and so are gates without cooldown |
| RestartGates.NoCooldownNoLift | crates/api-server/src/quant_signal_executor.rs:188-190 | a cooldown of 0 never lifts a halt |
| RestartGates.RestartForgetsCooldown | crates/api-server/src/quant_signal_executor.rs:452-468 | for all sane limits, a lifted consecutive-loss halt is back after a restart |
| Rollouts.Evaluate | crates/api-server/src/learning_rollouts.rs:99-167 | skip iff some rollout with reject authority scores skip, naming the first; else the smallest factor; in [0.05, 1] |
| Rollouts.AuthorityTable | crates/api-server/src/learning_rollouts.rs:742-748 | which levels may reject and which may resize |
| Rollouts.SkipTextParts | crates/api-server/src/learning_rollouts.rs:136-142 | the reason of a skip names mode, model and target in that order |
| Rollouts.ActionTable | crates/api-server/src/learning_rollouts.rs:136-150 | which scores reject and which resize |
| Rollouts.FactorLaw | crates/api-server/src/learning_rollouts.rs:151-162 | one fifth off by default, the bound up to 95%, never an increase |
| Rollouts.NearMeansWithinAFifth | crates/api-server/src/learning_rollouts.rs:705-740 | a warning means within a fifth of the limit on the allowed side |
| Rollouts.SmallestFactorIsUnique | crates/api-server/src/learning_rollouts.rs:144-163 | the smallest factor is one number, at least 0.05 |
| Rollouts.OrderDoesNotMatter | crates/api-server/src/learning_rollouts.rs:129-167 | skipping and the multiplier do not depend on the order of the rollouts |
| Rollouts.CheckMaxGuardrail | crates/api-server/src/learning_rollouts.rs:724-740 | one violation when over the limit, a warning in the last fifth below it |
| Rollouts.EvaluateGuardrails | crates/api-server/src/learning_rollouts.rs:662-722 | rollback exactly when a limit is broken, with name and both numbers of every broken one in order; warning only near one |

## Left out

- P&L formulas, the share fee model, trade events, telemetry and timestamps: they do not feed back into any modelled decision.
- Failures of repository writes in the service (errors other than the state checks), and concurrent writers to one position other than the reconciler, such as a monitor that restarts while the handler is working.
- Decimal and floating-point rounding, NaN, and the 32-bit width of the loss counter, which resets daily.
- HTTP handlers beyond the manual close's mark_exit_ready and requeue, stalled positions, orphan-inventory recovery, and the arb monitor beyond its start-up pass over Closing and ExitFailed rows.
- Quant closes in the dedup protocol: the handler removes the market id for any source, so the claim is for arb positions.
- The circuit breaker in front of the exposure check, which can stop new entries for other reasons; `Exposure` is about the check alone.
- Market lookups, order-book preflight, token caches and exit signals (`mean_reversion_target_hit` and its siblings): inputs here.
- `compute_targets` of the tuner: targets are arbitrary inputs, so the results hold for whatever it computes.
- Changes of a row's bounds while a subscriber is connected, and snapshots taken between an apply and its publish: one atomic step here.
- The workspace form for arb-executor keys, which writes the same columns as the command-line override except the default.
- A midnight inside one sync, and failed writes of strategy_risk_state.
- Model scoring (`learning.rs`, `learning_models.rs`), rollout caching and persistence of guardrail evaluations: scores are inputs.
- The formatted text of guardrail violations: names and both numbers are kept instead.
