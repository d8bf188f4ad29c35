# Verified model of the trading engine

The repository is an automated trading engine: on every tick it chooses a universe, asks a judge about candidates,
sizes orders, passes them through hard guardrails and records them in a database, with a paper ledger and a replay
to measure the strategy. This project models its safety and accounting core in Dafny and proves what that core is
for. Nothing was executed; every statement below is a theorem about the model.

## How the model is laid out

* `Orders`, `Breaker` (with `Drawdown`), `OrderLayer` – the seven guards, the latching circuit breaker, and the
  order service with its idempotency map, ledger, mode gate and executor log.
* `Allocator`, `Pipeline`, `PipelineLaws`, `TickLaws` – sizing and the order loop of one tick; what becomes of every
  candidate, and why every order got its answer.
* `Repository`, `TickProtocol`, `TickHistory` – the order table, and ticks on any number of instances as a
  transition system: a lock in each process, one advisory lock, one table, crashes anywhere. `TickHistory` shows that
  the loop of one tick is a run of that system, and where accepted orders go.
* `Reconcile`, `HaltProtocol`, `Enforcement` – the position reconciliation, and the halt of one live instance over
  ticks, crashes, restarts and saves that are still on their way to the database.
* `Paper`, `PaperLaws`, `PaperFills`, `Exits`, `PaperTick` – the paper ledger, its laws, what filling a tick's orders
  costs, and forced exits end to end.
* `Replay`, `ReplayLaws`, `ReplayServing`, `Evaluation`, `Backtest` – the backtest loop in terms of the bars it is given,
  the drawdown of an equity curve, and what the two say together about a report.
* `Symbols`, `Alignment` – universe selection and calendar alignment.
* `Prelude`, `Sorting`, `Sums`, `RealArith` – shared vocabulary.

Classes mirror the source's objects; each mutating method is proved equal to a function of the old state, and the
laws are proved about those functions and about whole runs of them.

Modelling choices: `Decimal` and `float` are exact reals and floor is the only rounding; dates are day ordinals and
instants are microseconds on the KST line; awaits are step boundaries; the judge, the entry gate, the exposure
multiplier, candles, broker replies and clocks are arbitrary inputs. A stock code is an integer where it is only
compared and sorted, which `Symbols.RankOrdersCodes` justifies.

## What the code does not promise after all

* `Breaker.LossTripsExactlyWhenPositive`: a loss beyond the limit trips the breaker exactly when the equity that
  shows it is positive; an account at or below zero is ignored (`Breaker.WipeOutDoesNotTrip`).
* `TickHistory.CrashCanDoubleTheDay`: the recorded total never passes the daily cap, but a tick that dies after
  sending and before recording loses its orders, so the broker can accept twice the cap on one date. The excess is
  bounded by exactly what was lost (`TickHistory.AcceptedIsRecordedInFlightOrLost`).
* `HaltProtocol.DurableExactlyWhenSettled`: a halt survives everything but a release exactly when the switch is on in
  memory, in the row and in every save in flight. `HaltProtocol.HaltLostWithoutRelease` gives three runs that lose
  it: a slow save of a breaker reset, a failed save of the halt whose next tick absorbs the deviation, and an
  operator's engagement that is still being saved when a tick absorbs it.
* `Breaker.RestartForgetsUnsaved`: a restart forgets exactly what the breaker assessed since the last save.
* `Symbols.UniverseLength`: a universe stays within its limit exactly when the watchlist and the new pool codes that
  fit its exploit slots do; `Symbols.LimitCanBeExceeded` is an input where it does not.
* `Symbols.ExploredExactlyWhenRoom`: with distinct stale codes outside the watchlist and the pool, every one of them turns
  up within one round of the rotation if and only if the watchlist and the pool leave room for the explore slots,
  or for all stale codes at once. With no room at all nothing is ever explored (`Symbols.NoRoomNoExploration`).
* `Evaluation.MddIsLargestFallExactlyWhen`: the one-pass drawdown is the largest fall if and only if the falls from the
  lowest positive value so far to the negative values do not exceed it; `Evaluation.NegativeValueMissed` has an input
  on either side. No backtest curve has a negative value, so its report is not affected
  (`Backtest.EquityNeverNegative`, `Backtest.ReportedDrawdownIsLargestFall`).
* An order created after midnight counts on a date its tick never read. The cap holds nevertheless as long as clocks
  do not run backwards (`TickProtocol.CapSafetyAcrossMidnight`).

## Model

| member | source | states |
|---|---|---|
| `TickProtocol.CapSafety` | server/app/api/tick.py:83-96 | over every interleaving of ticks on any number of instances, crashes included: at most one tick body runs, no lock outlives its holder, and for every date the money of the recorded buys (amount, or quantity times price), and of those plus the accepted ones in flight, stays within the largest configured cap |
| `TickProtocol.CapSafetyAcrossMidnight` | server/app/api/tick.py:178-186 | the same for ticks whose orders are created on a later date than the one they read, when clocks do not run backwards |
| `TickProtocol.RunKeepsCap` | server/app/api/tick.py:232-248 | the inductive invariant behind both: locks, table and every running task's total stay consistent and within the cap from any such state |
| `TickProtocol.StepKeepsCap` | server/app/engine/pipeline.py:220-242 | every single step keeps that invariant: read, submit, record, leave, crash |
| `TickProtocol.LocksKept` | server/app/db/lock.py:27-40 | process lock and advisory lock always name a live task, and whoever is past them is the one holder |
| `TickProtocol.NextTickEnters` | server/app/db/lock.py:33-40 | however the tick under way ends, both its locks are free and the next tick of any instance enters |
| `TickProtocol.SecondTickSkips` | server/app/api/tick.py:89-95 | while a tick is under way any other one is skipped |
| `TickProtocol.NextTickCountsRecorded` | server/app/db/repo.py:142-154 | what one tick has recorded is on the total the next one starts from, on whatever instance and date that is |
| `TickProtocol.OneMoreOrder` | server/app/engine/pipeline.py:239-242 | one more accepted order keeps a task's total exact and no date above the cap, also an order dated on a day without recorded buys |
| `TickHistory.TickIsARun` | server/app/api/tick.py:232-238 | refinement: for any judge, holdings and service the whole body of a tick is a run of submit steps of positive notional, ending with exactly the tick's orders and total |
| `TickHistory.AcceptedIsRecordedInFlightOrLost` | server/app/db/repo.py:101-154 | with new ids, on every date the buys ever accepted are exactly those recorded, those in flight and those lost with their tick; hence at most the cap plus the lost ones |
| `TickHistory.RunTraced` | server/app/db/repo.py:101-107 | the conservation holds in every reachable state, and the ids on record and in flight are pairwise distinct |
| `TickHistory.AcceptedWithinCapUnlessDropped` | server/app/api/tick.py:232-248 | while no tick ends, by a crash or otherwise, holding accepted buys it has not recorded, all buys ever accepted on a date stay within the cap |
| `TickHistory.RecordingKeepsDistinct` | server/app/db/repo.py:104-107 | recording never puts an id on record twice, whatever ids are recorded |
| `TickHistory.CrashCanDoubleTheDay` | server/app/api/tick.py:232-248 | a concrete run with one crash in which twice the cap is accepted on one date |
| `Repository.OrderTable.BuyNotionalToday` | server/app/db/repo.py:142-154 | the loop returns the date's total of accepted buys |
| `Repository.OrderTable.RecordTick` | server/app/db/repo.py:97-98 | recording inserts exactly the new, non-duplicate results, in order |
| `Repository.OrderTable.Insert` | server/app/db/repo.py:101-125 | echoes and ids already on record leave the table unchanged |
| `Repository.RecordingAddsAtMost` | server/app/db/repo.py:101-154 | recording any results, repeats included, never adds more to a date than they carry |
| `Repository.RecordingAddsExactly` | server/app/db/repo.py:101-154 | with new ids every date grows by exactly what the results carry |
| `Repository.RecordingAppends` | server/app/db/repo.py:97-125 | with new ids exactly the results are appended, rejected ones included |
| `Repository.RecordedIds` | server/app/db/repo.py:101-107 | the ids on record afterwards are those before and those of the results that are not echoes; earlier rows stay |
| `HaltProtocol.DurableExactlyWhenSettled` | server/app/main.py:87-94 | a halt is on in every run without a release, restarts included, if and only if it is on in memory, in the row and in every save in flight |
| `HaltProtocol.HaltHolds` | server/app/orders/service.py:76-95 | a settled halt stays settled over any run without a release, and the executor is never called again |
| `HaltProtocol.HaltRejects` | server/app/orders/guardrails.py:60-63 | in every state of such a run an order with a new id is rejected |
| `HaltProtocol.DeviationStopsTrading` | server/app/api/tick.py:50-80 | from the moment the account deviates, however many ticks, crashes, restarts and further changes of the account follow, nothing is sent, and the deviation is not absorbed before the switch is on record; once the halt is settled only a release is excluded |
| `HaltProtocol.SettledKept` | server/app/db/repo.py:433-449 | every single step except a release keeps a settled halt and sends nothing |
| `HaltProtocol.HaltLostWithoutRelease` | server/app/api/tick.py:65-69 | three runs without a release, from any state about to find a deviation, after which the restarted process trades on the absorbed deviation |
| `HaltProtocol.UnhaltedOrderIsSent` | server/app/orders/service.py:104-114 | without a halt an order that passes the guards in a tick's body reaches the executor |
| `HaltProtocol.BodyGuardsWithAssessed` | server/app/orders/service.py:84-114 | the first order of a tick's body reaches the executor exactly when every guard passes it under the breaker just assessed and the switch as it is |
| `HaltProtocol.DeviationIsFound` | server/app/orders/reconcile.py:84-113 | a tick that compares after a change of the account finds a mismatch exactly when some holding is neither that of the baseline nor explained by the orders sent since |
| `HaltProtocol.ReleaseUndoesEngage` | server/app/orders/service.py:63-67 | a release whose save has landed undoes an engagement, in memory and in the row |
| `HaltProtocol.AbortKeepsOtherSaves` | server/app/api/tick.py:83-96 | an exception drops exactly the saves the tick itself waits for |
| `HaltProtocol.TickIsRecordedAndSaved` | server/app/api/tick.py:247-249 | the undisturbed end of a tick leaves its orders on record and switch and breaker in the row |
| `HaltProtocol.RestartRestores` | server/app/main.py:60-94 | a restarted process has the row's switch and breaker and remembers no order |
| `Enforcement.ReconcileAndEnforce` | server/app/api/tick.py:41-80 | the call reports exactly the mismatching symbols; the switch, the saved row and the baseline afterwards are those of the specification, in all cases: no baseline, match, mismatch, already halted, read-only |
| `Enforcement.HaltsExactlyWhen` | server/app/api/tick.py:54-80 | the switch goes on exactly for unexplained holdings in the live mode, from snapshot and bought and sold quantities alone; the row is written exactly then; the baseline moves exactly when asked or missing |
| `Enforcement.DryRunAndReadOnly` | server/app/api/tick.py:65-79 | a dry run never engages the switch or writes the row, a read-only call never moves an existing baseline |
| `Enforcement.EnforcementIsARun` | server/app/api/tick.py:41-80 | refinement: the undisturbed call leaves the halt protocol in exactly the state its steps lead to |
| `Reconcile.Reconcile` | server/app/orders/reconcile.py:84-113 | reports exactly the symbols whose holdings differ from the expected ones, each once, sorted and classified; without a baseline nothing |
| `Reconcile.SubmittedQtySince` | server/app/db/repo.py:182-199 | the loop computes the net quantities of the orders sent after an instant |
| `Reconcile.DeltaIsNet` | server/app/db/repo.py:182-199 | for every symbol the delta is the quantity bought less the quantity sold since the instant |
| `Reconcile.DeltaKnows` | server/app/db/repo.py:188-198 | a symbol is in the delta exactly when an order for it, in shares, was sent since |
| `Reconcile.EntryMeans` | server/app/orders/reconcile.py:98-112 | new is held but unknown, missing is known but not held, mismatch is both, each with the two quantities |
| `Reconcile.ReportsExactlyExternalChanges` | server/app/orders/reconcile.py:84-113 | over any history a tick reports exactly the symbols whose outside changes since the last snapshot do not cancel; orders the system sent are never reported |
| `Reconcile.AbsorbedOnce` | server/app/api/tick.py:78-79 | a change absorbed into the baseline is not reported again |
| `Breaker.CircuitBreaker.Assess` | server/app/orders/circuit_breaker.py:52-80 | the five fields after an assessment are the specified function of the old ones, and it answers true exactly when the latch is on or the assessed date is the halted one |
| `Breaker.CircuitBreaker.Reset` | server/app/orders/circuit_breaker.py:94-105 | clears peak, drawdown and both halts and keeps the date |
| `Breaker.CircuitBreaker.DumpState` | server/app/orders/circuit_breaker.py:119-127 | the dump carries the whole state |
| `Breaker.CircuitBreaker.RestoreState` | server/app/orders/circuit_breaker.py:129-138 | restoring a dump yields the dumped state, so every later assessment is the same |
| `Breaker.LatchCharacterised` | server/app/orders/circuit_breaker.py:52-80 | over any run of one object with resets: the drawdown halt is on exactly when the drawdown after some positive sample since the last reset reached the limit and after every later one stayed above the rearm level |
| `Breaker.RestartForgetsUnsaved` | server/app/main.py:87-94 | over any run with saves and restarts, object and row hold exactly the states reached on the events they still remember |
| `Breaker.LatchOverRestarts` | server/app/api/tick.py:249 | the same characterisation of the latch over saves and restarts, on the remembered samples |
| `Breaker.DailyHaltOverRestarts` | server/app/api/tick.py:249 | the daily halt over saves and restarts: on exactly when the last remembered date is a remembered loss day |
| `Breaker.DailyHaltCharacterised` | server/app/orders/circuit_breaker.py:48-50 | the daily halt is on exactly when the latest assessed date saw a loss beyond the limit since the last reset |
| `Breaker.TrippedExactlyWhen` | server/app/orders/circuit_breaker.py:44-50 | the breaker stops buys exactly when some sample since the last reset halts the latch or the last assessed date is a loss day |
| `Breaker.AssessAnswers` | server/app/orders/circuit_breaker.py:52-80 | the answer of an assessment is exactly that for the history including it |
| `Breaker.LossDayLasts` | server/app/orders/circuit_breaker.py:75-77 | a loss day stays halted whatever else is assessed on that date |
| `Breaker.UnknownEquityChangesNothing` | server/app/orders/circuit_breaker.py:61-73 | an unknown or non-positive equity never moves peak, drawdown or latch of a reachable breaker |
| `Breaker.LossTripsExactlyWhenPositive` | server/app/orders/circuit_breaker.py:61-73 | a loss beyond the limit trips exactly when the equity is positive or the latch is already on |
| `Breaker.WipeOutDoesNotTrip` | server/app/orders/circuit_breaker.py:61-73 | a wiped-out account leaves the default breaker off |
| `Orders.CodeReported` | server/app/orders/guardrails.py:154-162 | a code is listed exactly when its own guard fires with it |
| `Orders.SellStoppedOnlyBy` | server/app/orders/guardrails.py:60-88 | a sell passes exactly when the kill switch is off and the market is open |
| `Orders.BuyPassesExactlyWhen` | server/app/orders/guardrails.py:60-140 | a buy passes exactly when switch, breaker, hours, position count and, for its cost written out as amount or quantity times price, per-order limit, daily cap and weight all leave room |
| `Orders.EstimateIsCost` | server/app/orders/models.py:65-71 | the estimate is the amount when given, else quantity times price, else unknown |
| `Orders.ClosedOnWeekends` | server/app/orders/guardrails.py:75-88 | the market is open exactly Monday to Friday, off holidays, within the hours |
| `Orders.PassingBuyIsBounded` | server/app/orders/guardrails.py:91-109 | a passing buy has a known cost within the per-order limit and what is left of the day |
| `OrderLayer.OrderService.Submit` | server/app/orders/service.py:76-114 | state and result of a submit in every case: repeat, rejection, dry run, missing executor, sent, failed |
| `OrderLayer.AtMostOnce` | server/app/orders/service.py:76-131 | over any sequence of submits, mode changes and switches no id reaches the executor twice, no id is in the ledger twice, and the ledger reconstructs every request sent |
| `OrderLayer.StoredResultsPersist` | server/app/orders/service.py:127-131 | stored results never change; ledger and executor log only grow |
| `OrderLayer.DryRunNeverSends` | server/app/orders/service.py:97-102 | no run in the dry-run mode calls the executor |
| `OrderLayer.SellRejectedOnlyFor` | server/app/orders/service.py:84-95 | a new sell is rejected exactly for the kill switch or a closed market, whatever the breaker does |
| `OrderLayer.AcceptedBuyWithinLimits` | server/app/orders/service.py:84-114 | an accepted new buy is within the per-order limit and the cap, with switch and breaker off |
| `OrderLayer.BuyStoppedExactlyWhen` | server/app/orders/service.py:84-95 | a new buy is rejected for the breaker exactly when the breaker's history stops buys |
| `OrderLayer.NoBuyAfterLossDay` | server/app/orders/service.py:84-95 | from the assessment of a loss at or beyond the limit, no new buy is accepted on that date and the executor is not called |
| `OrderLayer.NewOrderAnswered` | server/app/orders/service.py:97-131 | status, mode, request, broker id, ledger, executor log and index after a new order, in every case |
| `OrderLayer.RepeatEchoed` | server/app/orders/service.py:78-82 | a repeat is echoed with the stored result and changes nothing |
| `OrderLayer.RunsAreConsistent` | server/app/orders/service.py:127-131 | the idempotency map indexes the ledger after any run |
| `Allocator.BuyWithinCeiling` | server/app/engine/allocator.py:28-45 | a proposed buy is positive and within per-order limit, weight room and cash, for any confidence in [0,1] and any multiplier |
| `Allocator.SizedToTheShare` | server/app/engine/allocator.py:28-45 | a buy is the largest whole number of shares within the budget that confidence and clamped exposure leave of the least limit, and none is made exactly when not one share fits |
| `Allocator.SellsWhole` | server/app/engine/allocator.py:70-73 | a sell is the whole position at the last close, and is made exactly for a held position with a positive price |
| `Allocator.RoomImpliesWeight` | server/app/orders/guardrails.py:124-140 | a notional within the room left by positions alone keeps the weight measured after the buy within the limit |
| `Allocator.WeightGuardPasses` | server/app/orders/guardrails.py:124-140 | sizing and guard agree although they divide by different totals |
| `Pipeline.RunTick` | server/app/engine/pipeline.py:171-244 | the tick, loop included, computes the specified orders, gated symbols, total and service state, whose meaning the `TickLaws` rows give |
| `Pipeline.PlaceOne` | server/app/engine/pipeline.py:224-242 | one pass of the loop is one step of its specification |
| `TickLaws.ScreenedBuyIsJudged` | server/app/engine/pipeline.py:197-242 | every screened buy that is not forced is put to the judge, and its answer, made safe, is followed: refused buys are noted once, sized ones placed once, nothing else |
| `TickLaws.HeldPositionIsJudged` | server/app/engine/llm.py:187-198 | the same for every held position that is not forced, with its full quantity and last close |
| `TickLaws.ForcedPositionIsSold` | server/app/engine/pipeline.py:201-206 | a forced position is sold without asking the judge |
| `TickLaws.NothingElseIsOrdered` | server/app/engine/pipeline.py:224-240 | no order and no refusal concerns a symbol that is neither screened nor held |
| `TickLaws.WantedBuyIsOrdered` | server/app/engine/pipeline.py:207-240 | a buy the judge wants, the gate passes and the budget can pay is ordered exactly once, as the largest whole number of shares |
| `TickLaws.RefusedBuyIsNoted` | server/app/engine/pipeline.py:227-230 | a buy the gate refuses is noted exactly once and not ordered |
| `TickLaws.UnwantedPositionIsSold` | server/app/engine/allocator.py:70-73 | a forced or unwanted position with a positive close is sold whole by exactly one order |
| `TickLaws.HeldOnIsLeftAlone` | server/app/engine/allocator.py:64-65 | what the judge holds on to is neither bought nor sold |
| `TickLaws.OrdersInTurn` | server/app/engine/pipeline.py:201-208 | the orders stand in the order forced exits, screened buys, holdings |
| `TickLaws.OrdersRightlyAnswered` | server/app/engine/pipeline.py:214-242 | every order of a tick is rejected exactly for the switch, a closed market or, for a buy, the breaker, what the cap leaves after the buys accepted before it, or a new symbol at the position limit counted at the start of the tick |
| `PipelineLaws.TickStaysWithinCap` | server/app/engine/pipeline.py:220-242 | for any judge the running total is what was handed in plus exactly the money of the accepted buys, planned or sent, and ends within the cap unless it began beyond it |
| `PipelineLaws.ProposalPassesSizingGuards` | server/app/engine/pipeline.py:214-240 | no proposal can be rejected by the cost, per-order or weight guard |
| `PipelineLaws.TickBuysFairlySized` | server/app/engine/pipeline.py:214-240 | over a whole tick no buy is rejected for its size and each fits the per-order limit and the cash |
| `Exits.EvaluateExits` | server/app/engine/exits.py:42-68 | forces exactly the positions whose mark loss reaches the stop or that are held too long, sorted |
| `Exits.DueMeans` | server/app/engine/exits.py:55-67 | a position is due exactly when really held and its mark is at or below the stop price, or its days exceed the time stop |
| `Exits.ForcedIsUnique` | server/app/engine/exits.py:42-68 | that list is determined by the rule alone |
| `PaperTick.RunPaperTick` | server/app/api/tick.py:188-262 | orders, service and ledger after a paper tick are those of the pipeline run on the ledger and of filling its orders; without an accepted order the ledger is unchanged, a symbol without one keeps its position, the cash taken is within what the cap leaves, with costs; the breaker has assessed the marked equity; when exits go through every due position is gone |
| `PaperTick.LedgerPaysWithinCap` | server/app/api/tick.py:251-257 | a tick takes from the paper ledger at most what the day's cap still leaves, with costs |
| `PaperFills.NothingAcceptedNothingFilled` | server/app/api/tick.py:253-256 | without an accepted order the ledger is unchanged |
| `PaperFills.UnacceptedKeepsPosition` | server/app/api/tick.py:253-256 | a symbol without an accepted order keeps its position, whatever was rejected |
| `PaperFills.CashTakenBounded` | server/app/engine/paper.py:78-95 | the cash a tick takes is at most the money of its accepted buys with their costs |
| `PaperFills.CashTakenExactly` | server/app/engine/paper.py:78-112 | when the cash covers them it is exactly that, less what accepted sales bring in; without slippage and commission the buys take exactly the sum the cap counts |
| `PaperTick.BreakerSeesMarkedEquity` | server/app/engine/pipeline.py:171-175 | the equity fed to the breaker is the ledger's cash plus its marked positions, once per tick; switch, mode and executor log are untouched |
| `PaperTick.DueAreClosed` | server/app/engine/exits.py:42-68 | every position the exit rules find due is absent from the ledger after the tick |
| `PipelineLaws.TickAssessesOnce` | server/app/engine/pipeline.py:171-175 | a tick moves the breaker by exactly one assessment of the equity it was shown, and otherwise only records orders |
| `PaperTick.TickSellsForced` | server/app/engine/pipeline.py:197-207 | the orders begin with a full sale of each forced position, and nothing else touches those symbols |
| `PaperTick.ForcedExitsClose` | server/app/api/tick.py:251-262 | filling the orders of such a tick removes every forced position, whatever judge, regime, breaker, gate and caps say |
| `PaperTick.FillsCloseForced` | server/app/engine/paper.py:97-112 | any order list that sells forced positions in full first empties them and leaves them empty |
| `Paper.PaperPortfolio.ApplyFill` | server/app/engine/paper.py:66-76 | ledger and fill after an order in all cases, ignored orders included |
| `Paper.PaperPortfolio.FillBuy` | server/app/engine/paper.py:78-95 | a buy beyond the cash is skipped, otherwise cash, blended cost and opening date are as specified |
| `Paper.PaperPortfolio.FillSell` | server/app/engine/paper.py:97-112 | a sale is clipped to what is held, realises proceeds minus cost, and closes an emptied position |
| `PaperLaws.BuyFilled` | server/app/engine/paper.py:78-95 | a buy is skipped exactly when it cannot be paid; shares, cost, cash, opening date and every field of the fill otherwise |
| `PaperLaws.SellFilled` | server/app/engine/paper.py:97-112 | a sell is skipped exactly when nothing is held; shares, proceeds, realised profit and every field of the fill otherwise |
| `Paper.PaperPortfolio.MarkEquity` | server/app/engine/paper.py:119-123 | cash plus the sum of the marked positions |
| `Paper.PaperPortfolio.ToSyntheticHoldings` | server/app/engine/paper.py:125-151 | the sorted accumulation shows every position and totals the same market value as the marked equity |
| `PaperLaws.HoldingsAddUp` | server/app/engine/paper.py:125-151 | one truthful item per position, in order, with totals that are the sums over the items |
| `PaperLaws.MarkMovesValue` | server/app/engine/paper.py:115-123 | the value follows each mark with the quantity held; a zero mark counts as none |
| `Paper.SumAlongIsSum` | server/app/engine/paper.py:119-137 | accumulating in sorted order gives the order-free sum |
| `PaperLaws.RunConserves` | server/app/engine/paper.py:65-112 | cash plus cost of positions minus realised profit never changes; stored positions stay positive; filled sells are counted |
| `PaperLaws.LedgerConservation` | server/app/engine/paper.py:65-112 | from a seed: cash plus positions at cost is seed plus realised profit, and cash is never negative |
| `PaperLaws.CashStaysNonnegative` | server/app/engine/paper.py:78-112 | cash stays nonnegative over any orders with positive prices and sale rates that do not exceed the proceeds |
| `PaperLaws.UnmarkedEquity` | server/app/engine/paper.py:115-123 | without marks the equity is seed plus realised profit |
| `PaperLaws.RoundTripCost` | server/app/engine/costs.py:37-39 | at constant prices any buys and partial sells realise exactly minus the turnover sold times (round-trip rate minus slippage times sell tax) |
| `PaperLaws.GateRateIsSafe` | server/app/engine/costs.py:37-39 | the gate's linear rate never understates that cost |
| `ReplayLaws.RunBacktest` | server/app/engine/replay.py:78-144 | the backtest loop computes the specified simulation: curve, counts and ledger |
| `ReplayLaws.RunDay` | server/app/engine/replay.py:91-137 | one day fills the pending orders at the open, runs the tick on what is visible and appends one curve point |
| `ReplayLaws.FillOne` | server/app/engine/replay.py:96-117 | one pending order fills at the open or lapses, and keeps the entry dates |
| `ReplayServing.FillsAtTheOpen` | server/app/engine/replay.py:96-117 | a pending order fills at the open of the day's bar with costs, or lapses and leaves the ledger as it is |
| `ReplayServing.TodayNeverFillsToday` | server/app/engine/replay.py:95-135 | the day's books and point do not depend on the day's decisions |
| `ReplayLaws.NoLookAhead` | server/app/engine/replay.py:38-65 | two histories that agree up to a date give the same curve, ledger, pending orders and service state after the days up to it |
| `ReplayLaws.CurvesAgreeUpTo` | server/app/engine/replay.py:87-137 | the finished curves of both full runs agree up to that date |
| `ReplayLaws.OrdersAccounted` | server/app/engine/replay.py:96-140 | orders generated are those bought, sold, lapsed or still pending |
| `ReplayLaws.EntryDatesAreReal` | server/app/engine/replay.py:96-117 | exactly the held symbols have an entry date, the day of their first buy since last flat, and the ledger dates the position to the close of that day |
| `ReplayServing.BooksCountAndConserve` | server/app/engine/replay.py:96-140 | buys and trades count the effective fills on each side, and cash plus cost is seed plus realised profit after every day |
| `ReplayServing.DaysSinceEntry` | server/app/engine/replay.py:122-123 | days held are the dates with data since the entry date |
| `ReplayServing.CurveDates` | server/app/engine/replay.py:91-137 | one curve point per date after the warm-up, in order |
| `ReplayServing.LastPoint` | server/app/engine/replay.py:136-137 | the last point is the ledger's cash plus its positions at the day's closes, beside the benchmark's close |
| `ReplayServing.MarksAreCloses` | server/app/engine/replay.py:120-121 | marks are the closes of the day for every symbol with a bar on it |
| `ReplayServing.WatchedSymbols` | server/app/engine/replay.py:87-87 | all symbols but the benchmark are watched |
| `ReplayServing.SortedHistory` | server/app/engine/replay.py:38-41 | sorting keeps the bars and orders them by date |
| `Replay.ReplayToss.GetCandles` | server/app/engine/replay.py:48-53 | serves exactly the bars dated up to the cursor |
| `ReplayServing.ServedUpTo` | server/app/engine/replay.py:48-53 | exactly the bars dated up to the day are served, as often as they occur |
| `Replay.ReplayToss.FindBar` | server/app/engine/replay.py:55-65 | finds the first bar of the date, or none |
| `ReplayServing.BarOfTheDay` | server/app/engine/replay.py:55-65 | the bar found is the first with that date, and none is found exactly when there is none |
| `Evaluation.Mdd` | server/app/engine/evaluation.py:49-55 | the loop computes the one-pass specification |
| `Evaluation.MddIsLargestFallExactlyWhen` | server/app/engine/evaluation.py:49-55 | for every list of values the result is attained and bounds every fall to a nonnegative value, and it is the largest fall if and only if the complementary pass over the negative values finds no larger one |
| `Evaluation.MddIsLargestFall` | server/app/engine/evaluation.py:49-55 | without negative values the result bounds the fall between any two positions and some pair attains it |
| `Evaluation.NegativeValueMissed` | server/app/engine/evaluation.py:49-55 | a list with a negative value for which the pass misses the worst pair, and one for which it does not |
| `Backtest.EquityNeverNegative` | server/app/engine/replay.py:87-137 | with positive prices, sane rates and a nonnegative seed a replay stays solvent and no point of its curve is negative |
| `Backtest.ReportedDrawdownIsLargestFall` | server/app/engine/replay.py:141-143 | hence the drawdown reported for any backtest is the largest fall of its curve |
| `Evaluation.MddAgreesWithBreaker` | server/app/orders/circuit_breaker.py:61-73 | a new breaker fed positive values halts at some point exactly when their maximum drawdown reaches its limit |
| `Symbols.NormalizeAcceptsExactly` | server/app/engine/symbols.py:28-35 | exactly which entries are accepted and as what: up to six digits between white space, padded with zeros, or six letters and digits, upper-cased |
| `Symbols.NormalizeFixesCodes` | server/app/engine/symbols.py:28-35 | codes are fixed points, so normalising twice changes nothing |
| `Symbols.RankOrdersCodes` | server/app/engine/symbols.py:28-35 | reading codes as base-36 numbers keeps and reflects their order |
| `Symbols.RotationCovers` | server/app/engine/symbols.py:105-109 | any ceil(p/n) consecutive offsets show every one of p items in the first n places |
| `Symbols.ResolveUniverse` | server/app/engine/symbols.py:112-153 | the loops compute the specified two-stage choice |
| `Symbols.ResolveSymbols` | server/app/engine/symbols.py:156-189 | the loops compute the specified rotation |
| `Symbols.TakeInto` | server/app/engine/symbols.py:132-138 | taking from a stream keeps `seen` the set of the result and stops at the cap |
| `Symbols.WatchlistMembers` | server/app/engine/symbols.py:140-144 | the watchlist holds exactly the codes some entry normalises to |
| `Symbols.WatchlistGrows` | server/app/engine/symbols.py:140-144 | the watchlist keeps the order of the list |
| `Symbols.UniverseShape` | server/app/engine/symbols.py:112-153 | no duplicates, watchlist first, members only from watchlist, pool and seed, and limit reached or whole seed included |
| `Symbols.UniverseLength` | server/app/engine/symbols.py:147-153 | at most the larger of limit and watchlist plus exploit slots, and within the limit exactly under a condition on its inputs |
| `Symbols.ExploreSlotsLeast` | server/app/engine/symbols.py:146-146 | the least whole number at or above limit times ratio, and at least one |
| `Symbols.FallbackCovers` | server/app/engine/symbols.py:152-152 | with nothing stale the fallback alone reaches every seed code in any ceil(p/limit) ticks |
| `Symbols.UnlimitedHoldsEverything` | server/app/engine/symbols.py:156-189 | without a limit the plain resolution holds exactly the watchlist and the source |
| `Symbols.ResolvedIsPrefix` | server/app/engine/symbols.py:156-189 | with distinct new codes it is the watchlist followed by a prefix of the rotated source |
| `Symbols.LimitCanBeExceeded` | server/app/engine/symbols.py:147-149 | an input whose universe is longer than its limit |
| `Symbols.PoolIsCovered` | server/app/engine/symbols.py:145-149 | any ceil(p/slots) consecutive ticks put every pool code in a universe |
| `Symbols.ExploredExactlyWhenRoom` | server/app/engine/symbols.py:145-153 | for distinct stale codes outside watchlist and pool: all are explored in every window of ceil(m/slots) ticks if and only if there is room for the explore slots or for all of them |
| `Symbols.EnoughRoomExplores` | server/app/engine/symbols.py:145-153 | that much room suffices for any stale codes, any watchlist and any pool |
| `Symbols.TooLittleRoomMisses` | server/app/engine/symbols.py:145-153 | with less room a named stale code is in no universe of the first window |
| `Symbols.TightUniverse` | server/app/engine/symbols.py:147-153 | with room for at most all stale codes a universe is the exploited part followed by exactly that many of the rotated stale codes |
| `Symbols.StaleIsCovered` | server/app/engine/symbols.py:150-152 | without a watchlist, and with an explore ratio of at most one, the room always suffices |
| `Symbols.NoRoomNoExploration` | server/app/engine/symbols.py:147-153 | without any room the universe is the exploited part for ever, for any pool: only watchlist and pool codes; for an empty pool just the watchlist |
| `Symbols.ColdStartIsRotation` | server/app/engine/symbols.py:112-189 | without statistics the two-stage choice is the plain rotation at tick count times explore slots |
| `Alignment.FindNextTradingDay` | server/app/news/alignment.py:19-24 | the search ends for every date and finite holiday set, at the least trading day after it |
| `Alignment.NextTradingDayMonotone` | server/app/news/alignment.py:19-24 | a later date never has an earlier next trading day |
| `Alignment.WindowIsForward` | server/app/news/alignment.py:35-44 | the entry is after publication and the exit is the trading day after the entry |
| `Alignment.EntryIsEarliest` | server/app/news/alignment.py:38-44 | no later close, and no open of a later date, of any trading day is before the entry |
| `Alignment.TradingDaysOfTheWeek` | server/app/core/calendar.py:36-45 | trading days are Mondays to Fridays that are no holidays |
| `Alignment.WindowMonotone` | server/app/news/alignment.py:35-44 | entry and exit are monotone in the publication time |

## Left out

- Exact decimal context and float rounding: money and rates are reals, so 28-digit rounding and float error are not modelled.
- Mutual exclusion when the lock's connection drops while its tick keeps running: a crash ends the tick and frees the lock together.
- Databases without advisory locks, and running without a database: the transition system has the shared lock and table.
- Several live instances sharing the kill-switch row: the halt protocol has one process; the row is last-writer-wins.
- A manual reconciliation is the `Engage` step of the halt protocol, wherever it read its data.
- HaltProtocol.DeviationStopsTrading: until the halt is settled it excludes an operator's engagement or breaker reset and a failing save of the halt itself, each of which loses the halt in a run of `HaltProtocol.HaltLostWithoutRelease`, a release, and changes that bring the account back into agreement with the baseline.
- Reconcile.ReportsExactlyExternalChanges: assumes that the broker executes submitted orders in full, so partial and missing fills count as outside changes.
- TickProtocol.CapSafety: assumes nonnegative notionals and orders created on the date read or on a date without recorded buys; `TickProtocol.CapSafetyAcrossMidnight` replaces the latter by clocks that do not run backwards.
- TickLaws.ScreenedBuyIsJudged: like every law of that module it assumes new order ids and that a symbol is offered once, which merging the candidates before screening ensures.
- PaperFills.CashTakenExactly: assumes that the cash covers the tick's buys, one accepted order per symbol, and rates that cannot turn a price around; `PaperFills.CashTakenBounded` holds whether or not the cash covers them.
- PaperTick.DueAreClosed: a due position needs a positive last close, the switch off, an open market and new order ids; otherwise the source does not sell it either.
- Symbols.ExploredExactlyWhenRoom: its "only if" half is for distinct stale codes that are neither listed nor in the pool; the "if" half, `Symbols.EnoughRoomExplores`, is for all.
- Backtest.ReportedDrawdownIsLargestFall: assumes positive opens and closes and rates that cannot turn a price around, which the source does not check.
- The position count after a tick and the sum of one tick's buys against cash: the source does not bound them.
- Paper positions are values in a map, so updating a position in place and aliasing are not captured.
- The early `continue`s of the exit loop are written as nested conditions.
- Unicode digits and upper-casing of stock codes: only ASCII is modelled.
- The last representable date of Python's calendar: days are unbounded integers.
- HTTP, authentication, notifications, dashboards, the broker client, the language-model judge and web research: foreign services, or arbitrary inputs.
- Screener, volatility, regime and calibration statistics: their results are inputs.
- TTL caches, alert suppression, reason strings, reports and audit rows: no effect on orders.
