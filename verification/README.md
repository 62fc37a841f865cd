# Verification model

This project models the parts of the payroll and card-spend system whose correctness rests on several pieces of code
working together, and proves what they guarantee for every input, every interleaving and every run.

* **Sync tasks** (`SyncTaskRows`, `SyncProtocol`, `SyncSafety`, `SyncServices`, `SyncOutcomes`). Executor instances
  claim rows with an expiring lease, run an adapter and write the result with a conditional update, while
  administrators execute, retry and cancel from stale reads. `SyncProtocol` is a transition system in which one SQL
  statement is one step, clocks are arbitrary, instances crash and restart under a new id, and a claim may commit
  without its answer arriving. `SyncServices` has the same writes as methods of classes over the table.
* **Planning** (`SyncPlanning`). Preview, generation under the month's lock, and generations that overlap manual
  creations and each other against the unique key of the tasks.
* **Months** (`SettlementMonths`). Settlement months over the calendar of ECMA-262, section 21.4.1, with the rule of
  `Date.UTC` that reads the years 0 to 99 as 1900 to 1999.
* **Settlement** (`Postings`, `SettlementCalculator`, `SettlementLaws`, `SettlementBooks`, `Carryover`,
  `SettlementServices`, `SettlementRecords`). The calculation with its maps and loops is proved equal to totals over
  the records; the laws are proved about those totals; the books generate, confirm and lock months and roll negative
  profit forward.
* **Performance groups** (`PerformanceGroups`). Group writes against the unique keys of their tables, stored with six
  decimals, and what the calculation then reads.
* **Mappings and cards** (`Selections`, `SubIdMappings`, `CardMatching`, `CardRematch`, `CardGovernance`,
  `CardOwnership`, `CardVerdicts`, `CardWrites`, `CardServices`). Versioned mappings, matching by address or alias,
  alias and exclusion writes, the rematch with its counters, the inventory sync, and runs of all of them.
* **Accounts** (`Accounts`, `AccountSafety`, `AccountRequests`, `AccountUpdates`, `AccountServices`). Administrators,
  roles, sessions and the guard: what every sequence of calls keeps, and which requests each call ends.

Where the code changes rows step by step, a class holds the table and its methods are proved against functions on
values; the lemmas are about these functions. `Wrappers` and `CommonTypes` hold shared types.

## What turned out to hold only under a condition

* The ratio column keeps six decimals, but the validation does not limit decimals. Accepted lists can be stored with
  another sum, which blocks the calculation of the month, or with a ratio of 0. `BalancedStep` and `PositiveExactlyWhen`
  have the exact conditions, `LongRatiosBlockTheMonth` and `TinyRatiosAreStoredAsZero` the inputs, and
  `SixDecimalsSuffice` the guarantee a caller can rely on.
* A group update checks the lock of the month it read before its transaction and writes under the month the group has by
  then. An update that a move overtakes can so rewrite a locked month (`LateUpdateRewritesLockedMonth`);
  `LockedMonthIsKeptExactlyWhen` has the exact condition.
* The inventory sync reads the aliases once and writes card by card without a transaction. An alias disabled or
  reassigned in between leaves a card matched by an alias that is not active (`StaleSyncBreaksOwnership`).
  `AliasMatchesAreOwnedExactlyWhen` has the exact condition for runs.
* The alias preview does not see disabled aliases, but the unique key of the table does (`PreviewForetellsCreation`).
* `Date.UTC` moves the years 0 to 99, so the month functions behave only outside them; the lemmas say exactly when.
* The calculation takes a provider's last rate, so the order of rates is free exactly when a provider's rates are equal
  (`RateOrderIsFreeExactlyWhen`). The unique key of month and provider in `prisma/schema.prisma` gives that for stored
  rates.

## Model

| member | source | states |
|---|---|---|
| `SyncTaskRows.DelaysNeverShrink` | `apps/api/src/sync-tasks/sync-auto-execution-config.ts:33-35` | The delay never gets shorter as attempts grow, and is at most a day. |
| `SyncTaskRows.TotalDelayBound` | `apps/api/src/sync-tasks/sync-auto-execution-config.ts:33-35` | All delays of k retries add up to at most base·(2^k − 1) seconds, exactly that while no delay is capped, and to at most k days. |
| `SyncTaskRows.BlockerAgreesWithClaim` | `apps/api/src/sync-tasks/sync-auto-execution.service.ts:182-194` | The check before the adapter runs refuses exactly the rows the claim query would not have admitted. |
| `SyncProtocol.RowStep` | `apps/api/src/sync-tasks/sync-auto-execution.service.ts:95-131` | What one step of anyone can do to one row: attemptCount moves only with a claim, terminal rows stay, a manual run changes only by its finish, leases come only from claims and retry instants only from failures. |
| `SyncProtocol.StepKeepsInvariant` | `apps/api/src/sync-tasks/sync-auto-execution.service.ts:91-230` | The invariant of rows, instances, pending requests and finished attempts is kept by every step of every actor, with arbitrary clocks and crashes. |
| `SyncProtocol.RunKeepsInvariant` | `apps/api/src/sync-tasks/sync-auto-execution.service.ts:91-230` | So it holds along every run. |
| `SyncSafety.FinishIsFenced` | `apps/api/src/sync-tasks/sync-auto-execution.service.ts:196-230` | A finish write that takes effect is of the row's newest attempt, which has no effective finish yet; attemptCount equals that of the claim it finishes. |
| `SyncSafety.OneEffectiveFinishPerAttempt` | `apps/api/src/sync-tasks/sync-auto-execution.service.ts:196-230` | Over a whole run at most one finish write of an attempt takes effect. |
| `SyncSafety.SingleFlightIsNeeded` | `apps/api/src/sync-tasks/sync-auto-executor.scheduler.ts:28-31` | Without the single-flight flag a run exists in which an instance finishes a newer attempt with an older claim, so the owner test alone does not fence. |
| `SyncSafety.OwnerTestIsNeeded` | `apps/api/src/sync-tasks/sync-auto-execution.service.ts:196-230` | Without the owner test in the `where` clause, and with the single-flight flag, a run exists in which an instance's write for attempt 1 takes effect while another instance holds attempt 2, and completes the row. |
| `SyncSafety.AttemptCountIsClaimCount` | `apps/api/src/sync-tasks/sync-auto-execution.service.ts:95-131` | attemptCount grows by exactly the automatic claims of the row in any run and never passes maxAttempts, whatever retries and crashes happen. |
| `SyncSafety.AutomaticWorkIsBounded` | `apps/api/src/sync-tasks/sync-auto-execution.service.ts:95-131` | However long a run is, its automatic claims are exactly the attempts it adds, at most maxAttempts for each row. |
| `SyncSafety.TerminalRowsNeverChange` | `apps/api/src/sync-tasks/sync-task-operations.service.ts:141-186` | A completed or cancelled row never changes again in any column, although administrators act on stale reads. |
| `SyncSafety.ManualRunIsLeftAlone` | `apps/api/src/sync-tasks/sync-task-execution.service.ts:118-179` | Only its own finish ends a manual run; until then no step of a run changes the row. |
| `SyncSafety.ManualRunIsExclusive` | `apps/api/src/sync-tasks/sync-task-execution.service.ts:227-237` | A manual run cannot be claimed, cancelled, retried or started again, and its finish write finds it. |
| `SyncSafety.RetryWaitsOutItsDelay` | `apps/api/src/sync-tasks/sync-auto-execution.service.ts:210-222` | In every reachable state a row waiting for a retry has a retry instant, a retryable category and attempts left, and is not claimable before finish time plus delay: the NULL branch is dead. |
| `SyncSafety.LifelongDelayIsBounded` | `apps/api/src/sync-tasks/sync-auto-execution.service.ts:210-230` | Over any run from the deployed table, the delays that the effective retry writes impose on a row add up to at most base·(2^(max − 1) − 1) seconds, and to at most max − 1 days, however many retries and cancellations administrators ask for. |
| `SyncServices.SyncAutoExecutionService.ClaimBatch` | `apps/api/src/sync-tasks/sync-auto-execution.service.ts:91-142` | Claims the first claimable unlocked rows, at most batchSize, in row order; each gets lease and attempt number, no other row changes. |
| `SyncServices.SyncAutoExecutionService.FinishSuccess` | `apps/api/src/sync-tasks/sync-auto-execution.service.ts:196-208` | Writes the success columns exactly when the row is running and leased by this instance; a write that rolls back changes nothing, one whose answer is lost has taken effect. |
| `SyncServices.SyncAutoExecutionService.FinishFailure` | `apps/api/src/sync-tasks/sync-auto-execution.service.ts:210-230` | Writes failure or retry with its instant under the same guard and the same fates. |
| `SyncServices.SyncAutoExecutionService.ExecuteClaim` | `apps/api/src/sync-tasks/sync-auto-execution.service.ts:144-180` | An owned row ends settled by the outcome; a first write that rolls back is recorded as the failure its error stands for; a first write that took effect is not undone by the second one; only when nothing can be recorded does the row keep its lease. A row no longer owned is never touched. |
| `SyncServices.SyncAutoExecutionService.Poll` | `apps/api/src/sync-tasks/sync-auto-execution.service.ts:52-59` | One undisturbed poll settles every row it claims, leaves no lease behind and changes no other row. |
| `SyncServices.NeverTwoPolls` | `apps/api/src/sync-tasks/sync-auto-executor.scheduler.ts:28-31` | In every order of ticks, poll ends and shutdown hooks, polls started minus polls ended is 1 or 0, as the flag says. |
| `SyncServices.SchedulerKeepsSingleFlight` | `apps/api/src/sync-tasks/sync-auto-executor.scheduler.ts:28-31` | As long as an instance lives, its scheduler stays in step with the protocol: a tick starts a poll exactly when the protocol enables StartPoll, and a run's StartPoll steps are its ticks that start one. |
| `SyncServices.NoPollAfterShutdown` | `apps/api/src/sync-tasks/sync-auto-executor.scheduler.ts:22-26` | After a shutdown hook no sequence of ticks, poll ends and further hooks starts another poll. |
| `SyncServices.SyncTaskAdministration.ReadToExecute` | `apps/api/src/sync-tasks/sync-task-execution.service.ts:83-117` | The read part of a manual run: admitted exactly for executable rows of unlocked months with a credential and an adapter for their platform or provider, each refusal with its error in the order of the checks. |
| `SyncServices.AdministratorsMayRunMore` | `apps/api/src/sync-tasks/sync-adapter-resolver.ts:20-40` | The executor's source check is exactly credential and adapter plus an active account, so an administrator may run the tasks of a disabled account. |
| `SyncServices.SyncTaskAdministration.StartManual` | `apps/api/src/sync-tasks/sync-task-execution.service.ts:118-141` | The start write takes effect exactly when the status is still the one read and no lease is held, and then leaves a manual run that starts now. |
| `SyncServices.SyncTaskAdministration.FinishManual` | `apps/api/src/sync-tasks/sync-task-execution.service.ts:162-179` | Finds exactly a manual run, and leaves it completed exactly when the adapter completed and failed otherwise, with the reported category and the time. |
| `SyncServices.SyncTaskAdministration.RequestRetry` | `apps/api/src/sync-tasks/sync-task-operations.service.ts:100-139` | A retry request returns a failed or waiting row of an unlocked month with a credential to pending, without a retry instant and without resetting attemptCount; each refusal has its error. |
| `SyncServices.SyncTaskAdministration.Cancel` | `apps/api/src/sync-tasks/sync-task-operations.service.ts:141-210` | A cancellation takes effect exactly for cancelable rows or runs whose lease has expired, and is refused otherwise; it leaves the row cancelled and without lease. |
| `SyncOutcomes.ClaimLastsItsLease` | `apps/api/src/sync-tasks/sync-auto-execution.service.ts:91-131` | A claim holds its row for exactly the lease time: until then nobody claims, cancels, retries or executes it; from then on it can be cancelled, and claimed exactly when attempts are left and nothing blocks it. |
| `SyncOutcomes.FinishSaysWhatTheAdapterSaid` | `apps/api/src/sync-tasks/sync-task-execution.service.ts:162-179` | The finish of a manual run records completion exactly when the adapter completed, failure otherwise, with its category, and leaves every other column. |
| `SyncOutcomes.ManualFinishDecides` | `apps/api/src/sync-tasks/sync-task-execution.service.ts:162-179` | Over a run: after a reported completion the row never changes again; after a reported failure it can be retried or executed, and stays failed until an administrator's write. |
| `SyncOutcomes.FailedRowsWaitForAnAdministrator` | `apps/api/src/sync-tasks/sync-auto-execution.service.ts:95-131` | Along every run a failed row is changed by no claim, finish or crash, only by an administrator's write on it. |
| `SyncOutcomes.OnlyScheduledTasksAreClaimed` | `apps/api/src/sync-tasks/sync-auto-execution.service.ts:101-118` | A task that was not planned by the scheduler gets no automatic attempt and no lease in any run. |
| `SyncOutcomes.RowsKeepTheirTask` | `apps/api/src/sync-tasks/sync-auto-execution.service.ts:121-126` | Along every run rows are never removed, and what a task is for (source, account, provider, month, trigger) never changes. |
| `SyncOutcomes.RetriedRowsAreClaimable` | `apps/api/src/sync-tasks/sync-task-operations.service.ts:100-139` | A retried row is pending: claimable at once, without its delay, exactly when attempts are left and nothing blocks it. |
| `SyncOutcomes.CancellationIsFinal` | `apps/api/src/sync-tasks/sync-task-operations.service.ts:141-210` | A cancellation that takes effect leaves the row cancelled and without lease at the end of every run. |
| `SyncOutcomes.BlockersNameTheFirstObstacle` | `apps/api/src/sync-tasks/sync-auto-execution.service.ts:182-194` | Each blocker exactly when its obstacle is there and none before it: locked month, missing or disabled account, unknown platform, missing provider, missing credential. |
| `SyncOutcomes.FailuresKeepTheirCategory` | `apps/api/src/sync-tasks/sync-auto-execution.service.ts:166-179` | A settled failure carries the blocker, the adapter's category or BUSINESS_REJECTED, and for exceptions TEMPORARY_DATABASE_ERROR or VALIDATION_ERROR; it is retried exactly for the five transient categories while attempts are left. |
| `SyncPlanning.SyncPlanningService.BuildPreview` | `apps/api/src/sync-tasks/sync-planning.service.ts:122-158` | One candidate per active account and per card provider, with exactly the blockers that apply, in order. |
| `SyncPlanning.BlockersSayWhy` | `apps/api/src/sync-tasks/sync-planning.service.ts:122-158` | Each candidate lists, once and in order, exactly what is in its way: locked month, unknown platform, missing credential, a task of the month for its account or provider. |
| `SyncPlanning.SyncPlanningService.Generate` | `apps/api/src/sync-tasks/sync-planning.service.ts:51-97` | Creates a task for every candidate without blockers and no other; refuses a locked month only for manual triggers. |
| `SyncPlanning.GeneratingAgain` | `apps/api/src/sync-tasks/sync-planning.service.ts:61-93` | A second generation at once creates nothing, finds existing₁ + created₁ tasks and is blocked on the same slots. |
| `SyncPlanning.PlannedExactlyWhen` | `apps/api/src/sync-tasks/sync-planning.service.ts:122-150` | A task is planned exactly for supported accounts and card providers with a credential, in an unlocked month, whose slot no task occupies. |
| `SyncPlanning.StepKeepsInvariant` | `apps/api/src/sync-tasks/sync-planning.service.ts:51-97` | Begin, commit, abort and manual creation keep: each plan in flight holds its month's lock and names, without repetition, only slots without a planned task. |
| `SyncPlanning.NoCommitIsRefused` | `apps/api/src/sync-tasks/sync-planning.service.ts:51-97` | Under any interleaving of generations, aborts and manual creations no commit is ever refused by the unique key: all tasks of the plan are created. |
| `SyncPlanning.OnePlannedTaskPerSlot` | `prisma/schema.prisma:735` | With the lock or without it, each month has at most one planned task per slot after every run. |
| `SyncPlanning.TheLockIsNeeded` | `apps/api/src/sync-tasks/sync-planning.service.ts:55` | Whenever there is something to plan, a run without the lock exists in which two generations read before either commits and the unique key refuses the second. |
| `SettlementMonths.InstantIsInItsSettlementMonth` | `apps/api/src/settlement/settlement-month.util.ts:6-26` | m ≤ t + 8 h < nextSettlementMonth(m) for the month m of t, exactly when the local year is not 0 to 99, which Date.UTC reads as 19xx. |
| `SettlementMonths.OnlyOneSettlementMonth` | `apps/api/src/settlement/settlement-month.util.ts:19-26` | No other settlement month contains the instant. |
| `SettlementMonths.SettlementMonthsFollowTime` | `apps/api/src/settlement/settlement-month.util.ts:6-26` | Later instants have no earlier month, with the exact exception of local years 0 to 99 against later ones. |
| `SettlementMonths.PreviousMonthPrecedes` | `apps/api/src/sync-tasks/sync-planner-config.ts:29-33` | The month after the planner's month is the current settlement month, across year ends, except exactly in January of year 100. |
| `SettlementMonths.DueFromTheConfiguredHourOn` | `apps/api/src/sync-tasks/sync-planner-config.ts:35-40` | The planner is due from the configured local day and hour to the end of the month. |
| `SettlementMonths.ParsedTextIsPrintedBack` | `apps/api/src/settlement/settlement-month.util.ts:29-46` | A month text that parses is formatted back to itself exactly when its year is 100 or later. |
| `SettlementMonths.PrintedMonthIsParsedBack` | `apps/api/src/settlement/settlement-month.util.ts:29-46` | A formatted month of the years 100 to 9999 parses back to the same instant. |
| `SettlementMonths.TimeIsInItsMonth` | `apps/api/src/settlement/settlement-month.util.ts:8-9` | The year and month of a time value (sections 21.4.1.8 and 21.4.1.11 of ECMA-262) are those whose first instants bracket it. |
| `SettlementCalculator.ApplyNegativeCarryover` | `apps/api/src/settlement/settlement-calculator.service.ts:210-227` | Commission profit minus remainder is share minus historical; both are non-negative and one is zero. |
| `SettlementCalculator.Precheck` | `apps/api/src/settlement/settlement-calculator.service.ts:328-376` | Returns the first failing check, if one fails. |
| `SettlementCalculator.CollectEmployeeIds` | `apps/api/src/settlement/settlement-calculator.service.ts:378-411` | Exactly the listed ids and the employees of every record that counts. |
| `SettlementCalculator.SumSpendAndFees` | `apps/api/src/settlement/settlement-calculator.service.ts:420-441` | The two spend maps hold each employee's confirmed spend and its fee at the provider's last rate. |
| `SettlementCalculator.CalculateEmployeeProfits` | `apps/api/src/settlement/settlement-calculator.service.ts:413-470` | Each employee's revenue, spend, fees and original profit are totals over the records that count. |
| `SettlementCalculator.CalculateGroupTotals` | `apps/api/src/settlement/settlement-calculator.service.ts:478-489` | Each group's entry is the sum of its members' original profits. |
| `SettlementCalculator.SumManualSalaryItems` | `apps/api/src/settlement/settlement-calculator.service.ts:505-529` | Additions and deductions of live items per employee. |
| `SettlementCalculator.CalculateEmployee` | `apps/api/src/settlement/settlement-calculator.service.ts:263-325` | One employee's whole result from the maps. |
| `SettlementCalculator.Calculate` | `apps/api/src/settlement/settlement-calculator.service.ts:251-326` | Fails exactly when a precheck fails, and otherwise returns, in ascending order and once each, what every employee is due. |
| `SettlementLaws.ProfitIsConserved` | `apps/api/src/settlement/settlement-calculator.service.ts:251-326` | Over all results, commission profit − remaining negative = income − spend·(1 + fee rate) − manual spend − live historical negatives. |
| `SettlementLaws.GroupAllocationsAddUp` | `apps/api/src/settlement/settlement-calculator.service.ts:263-271` | Each group's allocated profits sum to its members' original profits. |
| `SettlementLaws.AllocationsAddUp` | `apps/api/src/settlement/settlement-calculator.service.ts:251-326` | Allocation neither creates nor loses profit over all employees. |
| `SettlementLaws.PayGrowsWithProfit` | `apps/api/src/settlement/settlement-calculator.service.ts:149-208` | More commission profit never pays less, across tier boundaries. |
| `SettlementLaws.SinglePaysAtLeastGroup` | `apps/api/src/settlement/settlement-calculator.service.ts:149-208` | At equal commission profit single mode pays at least group mode. |
| `SettlementLaws.SalaryFollowsProfit` | `apps/api/src/settlement/settlement-calculator.service.ts:233-326` | If nobody's original profit falls, nobody's final salary falls. |
| `SettlementLaws.MoreIncomeLowersNobody` | `apps/api/src/settlement/settlement-calculator.service.ts:251-326` | One more non-negative income record lowers nobody's final salary. |
| `SettlementLaws.MoreSpendRaisesNobody` | `apps/api/src/settlement/settlement-calculator.service.ts:251-326` | One more non-negative card spend with its fee raises nobody's. |
| `SettlementLaws.MoreManualSpendRaisesNobody` | `apps/api/src/settlement/settlement-calculator.service.ts:251-326` | One more non-negative manual spend raises nobody's. |
| `SettlementLaws.OrderDoesNotMatter` | `apps/api/src/settlement/settlement-calculator.service.ts:328-528` | Permuting every input list changes neither which precheck fails nor any result, as long as no provider has two different fee rates. |
| `SettlementLaws.RateOrderIsFreeExactlyWhen` | `apps/api/src/settlement/settlement-calculator.service.ts:420-422` | The order of a rate list is irrelevant to every result of every input exactly when rates of one provider are equal; the unique key of month and provider guarantees that of stored rates. |
| `SettlementLaws.IdleEmployeeChangesNothing` | `apps/api/src/settlement/settlement-calculator.service.ts:378-411` | An id without records changes no other result and is due base salary and attendance bonus. |
| `SettlementRecords.ItemsMoveTheFinalSalary` | `apps/api/src/settlement/settlement-calculator.service.ts:505-528` | One more active or confirmed deduction lowers its employee's final salary by exactly its amount, an addition raises it by as much, another status changes nothing; no other result and no precheck changes. |
| `SettlementRecords.SalaryIsWhatTheTablePays` | `apps/api/src/settlement/settlement-calculator.service.ts:149-231` | Every final salary is what the one band of the commission profit pays, in the table for group members or for all others, at the exchange rate, with 500 for full attendance, plus live additions less live deductions. |
| `SettlementRecords.IncomeMovesItsEmployee` | `apps/api/src/settlement/settlement-calculator.service.ts:425-429` | A confirmed income record raises exactly its employee's revenue and profit; any other status or no employee changes nothing. |
| `SettlementRecords.SpendMovesItsEmployee` | `apps/api/src/settlement/settlement-calculator.service.ts:431-440` | A confirmed card spend lowers exactly its employee's profit, by the amount and its fee. |
| `SettlementRecords.ManualSpendMovesItsEmployee` | `apps/api/src/settlement/settlement-calculator.service.ts:442-446` | A confirmed manual spend lowers exactly its employee's profit. |
| `SettlementRecords.HistoricalsChargeTheirEmployee` | `apps/api/src/settlement/settlement-calculator.service.ts:491-503` | An active or confirmed historical amount is charged to exactly its employee, after the shares are handed out. |
| `SettlementServices.SettlementService.GenerateSettlement` | `apps/api/src/settlement/settlement-generation.service.ts:279-346` | Replaces the details of an unlocked month, keeping its status and one detail per employee whose commission less remainder adds up to the booked profit; or changes nothing and says why. Locked months and historical rows stay. |
| `SettlementServices.SettlementService.ConfirmSettlement` | `apps/api/src/settlement/settlement-finalization.service.ts:38-76` | Confirms exactly a draft settlement with details, leaving its details and every locked month as they were. |
| `SettlementServices.SettlementService.RollForwardNegativeProfits` | `apps/api/src/settlement/settlement-finalization.service.ts:227-301` | Afterwards each employee who still owes has a live row of exactly that amount in the next month; a first roll-forward raises the live totals of the next month by what is owed and no other total; created counts the new rows and created + updated the owing details. |
| `SettlementServices.SettlementService.LockSettlement` | `apps/api/src/settlement/settlement-finalization.service.ts:78-97` | Locks exactly a confirmed settlement with details, rolls its remainders into the next month, and leaves every month locked before as it was. |
| `SettlementBooks.FindRollForward` | `apps/api/src/settlement/settlement-finalization.service.ts:240-248` | Finds a row exactly when there is one of next month, employee and reason with a live status. |
| `SettlementBooks.LockedMonthsNeverChange` | `apps/api/src/settlement/settlement-generation.service.ts:286-292` | Once locked, a month keeps its status and details through every further operation. |
| `SettlementBooks.StatusMovesOneStage` | `apps/api/src/settlement/settlement-finalization.service.ts:38-97` | One operation moves the status of a month by at most one stage, only the operation for that stage and month does, and only a generation of the month changes its details. |
| `SettlementBooks.StagesFollowEachOther` | `apps/api/src/settlement/settlement-finalization.service.ts:38-97` | In every history a locked month was generated, then confirmed, then locked. |
| `SettlementBooks.LockedMonthsHaveDetails` | `apps/api/src/settlement/settlement-finalization.service.ts:78-97` | After every history a locked month has details, although a regeneration can leave a confirmed one without. |
| `Carryover.GenerationReadsLiveTotals` | `apps/api/src/settlement/settlement-generation.service.ts:169-172` | What a generation sums for an employee is what the live rows of the month hold. |
| `Carryover.RollForwardTotals` | `apps/api/src/settlement/settlement-finalization.service.ts:234-268` | A first roll-forward adds to the next month exactly what each employee still owes and nothing elsewhere. |
| `Carryover.RollingAgainChangesNothing` | `apps/api/src/settlement/settlement-finalization.service.ts:88-91` | Running the roll-forward again leaves the same rows. |
| `Carryover.MonthMovesTheDeficit` | `apps/api/src/settlement/settlement-calculator.service.ts:210-227` | One settled month turns a deficit d into commission max(0, −d) and a remainder max(0, d) that the next month finds. |
| `Carryover.CarriedOver` | `apps/api/src/settlement/settlement-finalization.service.ts:227-301` | After any number of months settled in order, every month finds rolled into it what is still owed of all deficits before, and no other month is touched. |
| `Carryover.OwedIsTheWorstStretch` | `apps/api/src/settlement/settlement-calculator.service.ts:210-227` | Owing from month to month, floored at 0, is the largest deficit over all final stretches of months; both directions. |
| `Carryover.RemainderIsTheWorstStretch` | `apps/api/src/settlement/settlement-finalization.service.ts:227-301` | The remainder in the last locked month is the maximum over all suffixes of the cumulative (historical − allocated) deficit, floored at 0. |
| `Carryover.CommissionTelescopes` | `apps/api/src/settlement/settlement-finalization.service.ts:78-97` | Total commission over all locked months is everything allocated minus everything entered as historical plus the last remainder. |
| `PerformanceGroups.ValidateMembers` | `apps/api/src/performance-groups/performance-groups.service.ts:235-257` | Accepts exactly non-empty lists of distinct employees with positive ratios summing to 1, and reports the first offending member otherwise. |
| `PerformanceGroups.PerformanceGroupsService.CreateGroup` | `apps/api/src/performance-groups/performance-groups.service.ts:50-89` | Creates group and members, or changes nothing and returns the first error. Afterwards memberships agree, sums and positivity follow their exact conditions, and months seen locked keep their members unless the group is in one of them by now. |
| `PerformanceGroups.PerformanceGroupsService.UpdateGroup` | `apps/api/src/performance-groups/performance-groups.service.ts:111-174` | Checks the locks of the group as read before the transaction and writes the members under the month it has by then, or changes nothing; the same guarantees. |
| `PerformanceGroups.PerformanceGroupsService.DisableGroup` | `apps/api/src/performance-groups/performance-groups.service.ts:176-198` | Changes the status only; the same guarantees. |
| `PerformanceGroups.ServingKeepsGroups` | `apps/api/src/performance-groups/performance-groups.service.ts:50-198` | One request of any kind keeps: row months and groups agree, nobody is in two groups of a month, no group is empty; ratio sums stay 1 and ratios positive exactly under the conditions of `BalancedStep` and `PositiveStep`. |
| `PerformanceGroups.ServingStoresTheRequest` | `apps/api/src/performance-groups/performance-groups.service.ts:50-198` | A served request saw none of its months locked; it stores the fields given and keeps the others, leaves the group with exactly the members sent at the nearest millionth of their ratios, and every other group as it was. |
| `PerformanceGroups.CreationServedExactlyWhen` | `apps/api/src/performance-groups/performance-groups.service.ts:50-89` | A creation is served exactly when the list is acceptable, a name is given, the month was not locked, and name and employees are free among what was read and what is there. |
| `PerformanceGroups.UpdateServedExactlyWhen` | `apps/api/src/performance-groups/performance-groups.service.ts:111-174` | An update is served exactly when the group was read and still is there, the input is valid, the months it looked up were not locked, and name and employees are free in the month looked up and in the month the group then has. |
| `PerformanceGroups.RunsKeepGroupsSound` | `apps/api/src/performance-groups/performance-groups.service.ts:50-278` | After every run each member row has its group's month and nobody is in two groups of a month; ratios sum to 1 if every list rounds evenly. |
| `PerformanceGroups.BalancedStep` | `prisma/schema.prisma:558-571` | A write keeps all ratio sums at 1 exactly when rounding its ratios to the six decimals of the column leaves their sum. |
| `PerformanceGroups.LongRatiosBlockTheMonth` | `prisma/schema.prisma:563` | Accepted ratios with seven decimals can be stored with a sum other than 1; the month then cannot be calculated. |
| `PerformanceGroups.PositiveStep` | `prisma/schema.prisma:563` | A request leaves the stored ratios positive exactly when it stores none or each ratio it sends is at least half a millionth; smaller ones are stored as 0. |
| `PerformanceGroups.PositiveExactlyWhen` | `apps/api/src/performance-groups/performance-groups.service.ts:235-257` | Along every run the stored ratios are positive throughout exactly when every list that is stored meets that bound. |
| `PerformanceGroups.TinyRatiosAreStoredAsZero` | `prisma/schema.prisma:563` | 0.0000004 and 0.9999996 are accepted, and stored as 0 and 1. |
| `PerformanceGroups.SixDecimalsSuffice` | `apps/api/src/performance-groups/performance-groups.service.ts:235-257` | With at most six decimals in every ratio sent, all stored ratios are positive and the group prechecks never fail for any month. |
| `PerformanceGroups.GroupsPassThePrecheck` | `apps/api/src/settlement/settlement-calculator.service.ts:358-375` | Sound and balanced groups pass the two group checks of the calculation. |
| `PerformanceGroups.LockedMonthsKeepTheirMembers` | `apps/api/src/performance-groups/performance-groups.service.ts:111-150` | A request that saw a month locked leaves what the calculation of the month reads as it was, even when it moves a group, unless it replaces the members of a group that is in the month by now. |
| `PerformanceGroups.CurrentReadsKeepLockedMonths` | `apps/api/src/performance-groups/performance-groups.service.ts:111-119` | In particular whenever the group is still in the month the request read. |
| `PerformanceGroups.LockedMonthIsKeptExactlyWhen` | `apps/api/src/performance-groups/performance-groups.service.ts:111-150` | A served request that saw the month locked leaves its members exactly when it does not replace the members of a group in the month by now, or sends the stored list again. |
| `PerformanceGroups.LateUpdateRewritesLockedMonth` | `apps/api/src/performance-groups/performance-groups.service.ts:112-118` | A run in which every read is of an earlier state: an update reads its group in June, the group is moved to July, July is locked, and the update replaces July's members. |
| `PerformanceGroups.DisabledGroupsStillCount` | `apps/api/src/settlement/settlement-generation.service.ts:165-168` | Disabling a group changes no calculation: its members are still read. |
| `SubIdMappings.Resolve` | `apps/api/src/sub-id-mappings/effective-sub-id-mappings.ts:39-89` | For query rows in any order, returns exactly the rows in force that match all filters; fails exactly when subValue and subValues are both given. |
| `SubIdMappings.ResolvedAreInForce` | `apps/api/src/sub-id-mappings/effective-sub-id-mappings.ts:39-89` | A row is returned exactly when no row of its key takes effect later and not after the month: the key filters commute with resolution. |
| `SubIdMappings.IndexLatest` | `apps/api/src/sub-id-mappings/effective-sub-id-mappings.ts:66-82` | The map holds per key the latest rows so far, ties kept. |
| `SubIdMappings.DisabledVersionBlocks` | `apps/api/src/sub-id-mappings/effective-sub-id-mappings.ts:33-38` | A disabled latest version answers alone; no older active one is used. |
| `SubIdMappings.EmployeeFilterComesLast` | `apps/api/src/sub-id-mappings/effective-sub-id-mappings.ts:84-88` | Filtering by employee first would give the same answer exactly when none of the employee's keys has moved to someone else. |
| `CardMatching.MatchedExactlyWhen` | `apps/api/src/card-bindings/provider-card-matching.ts:33-121` | A card is matched to e exactly when its email leads to e and nobody else, by at most one address and one alias, and e is active and SUB-mapped. |
| `CardMatching.FieldsFollowTheOutcome` | `apps/api/src/card-bindings/provider-card-matching.ts:96-125` | Matched cards have employee and source, others a code; by alias only when no employee has the address, and then by an alias in force. |
| `CardMatching.EachCodeSaysWhy` | `apps/api/src/card-bindings/provider-card-matching.ts:33-121` | Each reason code exactly when its reason holds: two employees or aliases of the address, address and alias of different people, nobody found, the one found disabled or without a SUB mapping; a conflict exactly for the first three. |
| `CardMatching.DisjointAliasesAreUnambiguous` | `apps/api/src/card-bindings/provider-card-matching.ts:62-75` | With disjoint aliases PROVIDER_EMAIL_ALIAS_AMBIGUOUS is never the outcome. |
| `CardRematch.CountersAgree` | `apps/api/src/card-bindings/photonpay-card-governance.service.ts:844-874` | The five outcomes add up to processedCount, the resolved ones are excluded + primary + alias, and a preview gives the same counters without changes. |
| `CardRematch.RematchingAgainChangesNothing` | `apps/api/src/card-bindings/photonpay-card-governance.service.ts:653-758` | With unchanged data and instant a second run changes nothing and counts no change. |
| `CardRematch.RecordedIsCounted` | `apps/api/src/card-bindings/photonpay-card-governance.service.ts:860-874` | One more card keeps every counter equal to the number of judged cards it stands for. |
| `CardVerdicts.ExcludedExactlyWhen` | `apps/api/src/card-bindings/photonpay-card-governance.service.ts:700-709` | A judged card is excluded, without employee and as a test card, exactly when an active exclusion of it has a period containing the instant. |
| `CardVerdicts.MatchedToTheOwner` | `apps/api/src/card-bindings/photonpay-card-governance.service.ts:700-716` | A card is matched to e exactly when it is not excluded, no code is forced, and its email leads to e and nobody else by the employees and the active aliases of the table. |
| `CardVerdicts.RematchRefreshes` | `apps/api/src/card-bindings/photonpay-card-governance.service.ts:653-758` | A rematch leaves every unmatched PhotonPay card in scope where exclusions, employees and aliases put it, and every other card as it was. |
| `CardVerdicts.SyncRefreshes` | `apps/api/src/card-bindings/provider-card-inventory.service.ts:245-263` | A sync leaves every fetched card where its last fetch and the rows it read put it; no card with an exclusion in force is matched. |
| `CardVerdicts.SyncLeavesOthers` | `apps/api/src/card-bindings/provider-card-inventory.service.ts:236-315` | Cards that were not fetched stay as they were. |
| `CardVerdicts.ExcludedAreCounted` | `apps/api/src/card-bindings/photonpay-card-governance.service.ts:860-874` | The counter of excluded cards is the number of unmatched cards in scope with an exclusion in force. |
| `CardServices.PhotonPayCardGovernance.RematchUnmatched` | `apps/api/src/card-bindings/photonpay-card-governance.service.ts:653-758` | Rejudges exactly the unmatched cards in scope, writes nothing in a preview, counts what it judged, and leaves each card where the rows put it; excluded counts exactly the cards with an exclusion in force. |
| `CardServices.PhotonPayCardGovernance.UnmatchAliasCards` | `apps/api/src/card-bindings/photonpay-card-governance.service.ts:760-788` | Exactly the PhotonPay cards of the email that were matched by alias lose employee and source for the given reason; it counts them, and every other card stays. |
| `CardServices.PhotonPayCardGovernance.Create` | `apps/api/src/card-bindings/photonpay-card-governance.service.ts:227-302` | Creates an alias and rematches with counters for exactly the cards it judged, is idempotent for an alias already there, or changes nothing. Alias and exclusion periods stay disjoint, no card turns ambiguous and alias-matched cards stay owned. |
| `CardServices.PhotonPayCardGovernance.Correct` | `apps/api/src/card-bindings/photonpay-card-governance.service.ts:304-347` | Releases the email's alias cards, rewrites the alias to the requested employee and period and rematches, all or nothing; every other alias and card stays. Alias and exclusion periods stay disjoint, no card turns ambiguous and alias-matched cards stay owned. |
| `CardServices.PhotonPayCardGovernance.Disable` | `apps/api/src/card-bindings/photonpay-card-governance.service.ts:398-426` | Releases the cards, disables the alias and rematches. Alias and exclusion periods stay disjoint, no card turns ambiguous and alias-matched cards stay owned. |
| `CardServices.PhotonPayCardGovernance.Exclude` | `apps/api/src/card-bindings/photonpay-card-governance.service.ts:514-602` | Records an exclusion and excludes its card if it is in force. Alias and exclusion periods stay disjoint, no card turns ambiguous and alias-matched cards stay owned. |
| `CardServices.PhotonPayCardGovernance.DisableExclusionOf` | `apps/api/src/card-bindings/photonpay-card-governance.service.ts:604-651` | Ends an exclusion and rematches its card if it was excluded. Alias and exclusion periods stay disjoint, no card turns ambiguous and alias-matched cards stay owned. |
| `CardServices.ProviderCardInventory.SyncProvider` | `apps/api/src/card-bindings/provider-card-inventory.service.ts:236-315` | Leaves every fetched card where the rows read put it and no other changed; each counter is the number of verdicts of its status, excluded that of fetched cards with an exclusion in force; while the aliases are those it read, alias-matched cards stay owned. |
| `CardServices.UndisturbedSyncKeepsOwned` | `apps/api/src/card-bindings/provider-card-inventory.service.ts:204-223` | However many cards it writes, a sync whose aliases do not change meanwhile keeps every alias-matched card owned. |
| `CardWrites.CreatedAliasIsThere` | `apps/api/src/card-bindings/photonpay-card-governance.service.ts:239-302` | A successful creation leaves an active alias of the email for the employee with the requested period, changes no other alias, and puts the unmatched cards of the email where the aliases now say. |
| `CardWrites.CreatedAliasMatchesItsCards` | `apps/api/src/card-bindings/photonpay-card-governance.service.ts:179-302` | With nothing changed since the preview, an alias in force matches every unmatched card of its email that is not excluded to the requested employee at once. |
| `CardWrites.CreationWasChecked` | `apps/api/src/card-bindings/photonpay-card-governance.service.ts:227-238` | A creation needs a confirmation, a PhotonPay card of the email, and an active SUB-mapped employee with no rival for the address. |
| `CardWrites.CorrectionIsStored` | `apps/api/src/card-bindings/photonpay-card-governance.service.ts:319-347` | A successful correction leaves the alias active with the requested employee and period and its own id and email, every other alias and every exclusion unchanged, and the cards of the email judged by that; or changes nothing when the alias already reads so. |
| `CardWrites.CorrectedCardsGoToTheEmployee` | `apps/api/src/card-bindings/photonpay-card-governance.service.ts:319-347` | While the corrected alias is in force, no unmatched or alias-matched card of the email ends with another employee. |
| `CardWrites.CorrectedAliasMatchesItsCards` | `apps/api/src/card-bindings/photonpay-card-governance.service.ts:304-396` | With nothing changed since the preview, every such card that is not excluded ends with the requested employee. |
| `CardWrites.CorrectionWasChecked` | `apps/api/src/card-bindings/photonpay-card-governance.service.ts:304-318` | A correction needs a confirmation, a valid period, and an active SUB-mapped employee with no rival for the address. |
| `CardWrites.DisablingIsStored` | `apps/api/src/card-bindings/photonpay-card-governance.service.ts:398-426` | The alias is inactive and otherwise unchanged, every other alias stays, and the cards of the email are judged by the aliases left. |
| `CardWrites.CreatedExclusionIsThere` | `apps/api/src/card-bindings/photonpay-card-governance.service.ts:514-602` | An active exclusion of the card with the requested period is there; the card is taken out exactly when a new one is in force; nothing else changes. |
| `CardWrites.ExclusionWasChecked` | `apps/api/src/card-bindings/photonpay-card-governance.service.ts:514-523` | An exclusion needs a confirmation, a PhotonPay card without spend events, and a valid period. |
| `CardWrites.EndingIsStored` | `apps/api/src/card-bindings/photonpay-card-governance.service.ts:604-651` | The exclusion is inactive and otherwise unchanged; its card, if it was excluded, is judged by the exclusions left; nothing else changes. |
| `CardWrites.EndedExclusionLetsTheCardIn` | `apps/api/src/card-bindings/photonpay-card-governance.service.ts:604-651` | When the ended exclusion was in force, its card is no longer excluded. |
| `CardOwnership.AliasesNeverOverlap` | `prisma/migrations/20260821010000_add_photonpay_alias_and_card_exclusion/migration.sql:41-62` | After every run active aliases of one email have pairwise disjoint half-open periods. |
| `CardOwnership.ExclusionsNeverOverlap` | `prisma/migrations/20260821010000_add_photonpay_alias_and_card_exclusion/migration.sql:92-122` | After every run active exclusions of one card have pairwise disjoint periods. |
| `CardOwnership.PreviewForetellsCreation` | `apps/api/src/card-bindings/photonpay-card-governance.service.ts:179-225` | With nothing changed since, a new alias the preview lets pass is refused exactly when a disabled alias of the email starts at the same instant. |
| `CardOwnership.AmbiguityIsUnreachable` | `apps/api/src/card-bindings/provider-card-matching.ts:72-75` | After every run no card is in conflict because its email has several aliases. |
| `CardOwnership.GovernanceKeepsOwned` | `apps/api/src/card-bindings/photonpay-card-governance.service.ts:227-426` | Every governance write keeps alias-matched cards with an active alias of their email and employee, however old its reads. |
| `CardOwnership.GovernanceKeepsTables` | `apps/api/src/card-bindings/photonpay-card-governance.service.ts:227-651` | Together with disjoint alias and exclusion periods and unambiguous cards. |
| `CardOwnership.SyncedCardIsOwnedExactlyWhen` | `apps/api/src/card-bindings/provider-card-inventory.service.ts:204-223` | A synced card keeps the property exactly when it is not matched by alias or such an alias is still active at the write. |
| `CardOwnership.AliasMatchesAreOwnedExactlyWhen` | `apps/api/src/card-bindings/photonpay-card-governance.service.ts:653-788` | Along every run of all writes the property holds throughout exactly when each sync write that matches by alias finds an active alias of that email and employee. |
| `CardOwnership.CurrentSyncsKeepOwned` | `apps/api/src/card-bindings/provider-card-inventory.service.ts:204-223` | In particular along every run in which no alias a sync has read is disabled or reassigned before the sync writes. |
| `CardOwnership.StaleSyncBreaksOwnership` | `apps/api/src/card-bindings/provider-card-inventory.service.ts:204-223` | A run of four writes: a card is synced, an alias is created, a second sync reads, the alias is disabled, the second sync writes; the property held until then and fails. |
| `AccountServices.AdminUsersService.RequireActiveRoles` | `apps/api/src/admin-users/admin-users.service.ts:273-280` | Unknown roles before disabled ones; none exactly when all are active. |
| `AccountServices.AdminUsersService.Create` | `apps/api/src/admin-users/admin-users.service.ts:116-154` | Creates an administrator with active roles or changes nothing; good tables stay good and the guard answers every request as before. |
| `AccountServices.AdminUsersService.Update` | `apps/api/src/admin-users/admin-users.service.ts:156-211` | Stores what is given and keeps the rest, or refuses a no-op, self-removal or the loss of the last super_admin; from then on the guard refuses exactly the requests of that user if roles changed or the user was disabled, and answers all others as before. Good tables stay good. |
| `AccountServices.AdminUsersService.SetEnabled` | `apps/api/src/admin-users/admin-users.service.ts:240-271` | Enables or disables under the same protections; disabling ends exactly the requests of that user, enabling none. |
| `AccountServices.AdminUsersService.Reset` | `apps/api/src/admin-users/admin-users.service.ts:213-238` | Sets the password; from then on exactly that user's requests are refused. |
| `AccountServices.RolesService.Create` | `apps/api/src/roles/roles.service.ts:57-74` | Creates a custom role with a fresh name and catalogue permissions; no request is answered differently. |
| `AccountServices.RolesService.Update` | `apps/api/src/roles/roles.service.ts:76-110` | Stores what is given and keeps the rest; super_admin stays enabled with its core permissions; exactly when the permissions change, and then exactly for the holders of the role, requests are refused from then on. |
| `AccountServices.RolesService.SetEnabled` | `apps/api/src/roles/roles.service.ts:112-127` | Disables only unassigned roles other than super_admin; neither direction changes the answer to any request. |
| `AccountServices.AuthService.CanActivate` | `apps/api/src/auth/auth.guard.ts:27-59` | Admits a live session of an active user and computes the permissions of the active roles. |
| `AccountServices.AuthService.LogIn` | `apps/api/src/auth/auth.service.ts:34-71` | Creates a session exactly for right credentials of an active user with an active role; the guard admits it until it expires with the permissions returned, and answers every other request as before. |
| `AccountServices.AuthService.LogOut` | `apps/api/src/auth/auth.service.ts:73-82` | From then on the guard refuses exactly this session. |
| `AccountServices.AuthService.Change` | `apps/api/src/auth/auth.service.ts:102-141` | Changes the password after checking the current one; from then on exactly that user's requests are refused. |
| `AccountServices.AuthService.Revoke` | `apps/api/src/auth/auth.service.ts:163-197` | Refused exactly for a live session of someone else; otherwise from then on the guard refuses exactly this session. |
| `AccountServices.AuthService.LogOutAll` | `apps/api/src/auth/auth.service.ts:199-212` | From then on the guard refuses every request of the user and answers those of everyone else as before. |
| `AccountRequests.CallsEndOnlyTheirSessions` | `apps/api/src/auth/auth.guard.ts:27-59` | Every call but a login ends exactly the sessions it names: the guard refuses them from then on and answers each other request as before, with the same permissions. |
| `AccountRequests.LoginsAddOneSession` | `apps/api/src/auth/auth.service.ts:34-71` | A login lets exactly its session through, with what it granted, until it expires; other requests are answered as before. |
| `AccountRequests.CredentialsAfter` | `apps/api/src/auth/auth.service.ts:102-141` | After a creation, reset or change exactly the new password logs the user in, if active; the old one no longer does. |
| `AccountRequests.ServingIsSafe` | `apps/api/src/admin-users/admin-users.service.ts:116-271` | A served call keeps good tables good and ends only its sessions. |
| `AccountUpdates.CallsStoreTheirInput` | `apps/api/src/admin-users/admin-users.service.ts:116-271` | Every successful call on users, roles or passwords stores each field it was given, keeps each it was not, and changes no other row. |
| `AccountUpdates.UpdateSucceedsExactlyWhen` | `apps/api/src/admin-users/admin-users.service.ts:156-211` | An administrator update succeeds exactly when the roles given are distinct and active, something changes, the email is free, administrators spare themselves and an enabled super_admin is left. |
| `AccountUpdates.CreationSucceedsExactlyWhen` | `apps/api/src/admin-users/admin-users.service.ts:116-154` | A creation succeeds exactly when everything is given, the roles are distinct and active, and name and email are free. |
| `AccountUpdates.SetEnabledSucceedsExactlyWhen` | `apps/api/src/admin-users/admin-users.service.ts:240-271` | Enabling and disabling succeed exactly when they change the status and disabling hits neither the caller nor the last enabled super_admin. |
| `AccountUpdates.NewRolesTakeEffect` | `apps/api/src/admin-users/admin-users.service.ts:185-191` | Giving a different set of roles makes them the user's roles, ends the user's sessions, and the next login grants exactly the permissions of the listed roles. |
| `AccountUpdates.RoleUpdateSucceedsExactlyWhen` | `apps/api/src/roles/roles.service.ts:76-110` | A role update succeeds exactly when something changes, a new name is free and not reserved, neither an assigned role nor super_admin is disabled, and the permissions are distinct ones of the catalogue that leave super_admin its core. |
| `AccountUpdates.RoleCreationSucceedsExactlyWhen` | `apps/api/src/roles/roles.service.ts:57-74` | A role is created exactly with a free, not reserved name and at most 500 distinct permissions of the catalogue. |
| `AccountUpdates.SetRoleEnabledSucceedsExactlyWhen` | `apps/api/src/roles/roles.service.ts:112-127` | Enabling and disabling succeed exactly when they change the status and disabling hits neither super_admin nor a role somebody has. |
| `AccountUpdates.LoginGrantsTheRoles` | `apps/api/src/auth/auth.service.ts:34-71` | A login is of the user with that name and password, and grants exactly the permissions of that user's active roles. |
| `AccountUpdates.CallsKeepKeysUnique` | `prisma/schema.prisma:818-869` | Over every sequence of calls names and emails of users, names and codes of roles stay unique, and roles keep to the catalogue. |
| `AccountSafety.ApplyKeepsRolesActive` | `apps/api/src/admin-users/admin-users.service.ts:273-280` | Every call keeps: each administrator has roles and all of them are active. |
| `AccountSafety.ApplyKeepsSessionsFresh` | `apps/api/src/roles/roles.service.ts:142` | Every call keeps: an unrevoked session belongs to an active user and was granted what the guard computes now. |
| `AccountSafety.SessionsKeepTheirPermissions` | `apps/api/src/auth/auth.guard.ts:52-59` | From a good start, after every sequence of calls the guard admits a live session with exactly the permissions its login granted. |
| `AccountSafety.NobodyIsLockedOut` | `apps/api/src/admin-users/admin-users.service.ts:298-307` | From a good start, every sequence of calls leaves an active user with an active super_admin role carrying all core permissions. |
| `AccountSafety.EnablingIsHarmlessExactlyWhen` | `apps/api/src/roles/roles.service.ts:112-127` | Enabling a role, which revokes nothing, leaves sessions fresh exactly when no unrevoked session's user gains a permission. |
| `AccountSafety.AssignedRolesHaveToBeActive` | `apps/api/src/roles/roles.service.ts:112-127` | With a disabled role still assigned, enabling it would widen a running session. |
| `AccountSafety.OthersAreLeftAlone` | `apps/api/src/admin-users/admin-users.service.ts:379-381` | A call about one user leaves other users and their sessions alone. |
| `AccountSafety.RoleCallsReachOnlyHolders` | `apps/api/src/roles/roles.service.ts:142` | A role call leaves alone the sessions of users without the role. |
| `AccountSafety.PasswordChangesEndSessions` | `apps/api/src/auth/auth.service.ts:122-127` | When a password changes no session of the user that could still be used survives. |
| `AccountSafety.NobodyRemovesThemselves` | `apps/api/src/admin-users/admin-users.service.ts:288-296` | Administrators can neither disable themselves nor give up their own super_admin role. |

## Left out

- Provider clients, adapters, controllers, the web application, dashboards, health and evidence code, scripts: input and output, or flat lists of checks. An adapter run is an arbitrary outcome.
- Password hashing, token digests, encryption and text sanitizers: digests and keys are injective, passwords are compared by equality. Trimming, case folding and address syntax of input text: emails, names and ids are plain values, and a blank or malformed one is a missing one.
- Audit rows: they commit with their transaction and no property depends on them.
- Decimal precision: money is exact `real` arithmetic. `Prisma.Decimal` keeps a limited number of significant digits and most columns have a scale; only the scale of the group ratio is modelled.
- Message texts, result counters, request payloads, `requestedBy` and similar columns of sync tasks, and permission checks of the callers, which no guard of the protocol reads. Decrypting a credential before a manual run, which can fail.
- Reading settings from environment text: the model starts at the numbers and keeps their bounds. All instances of a run share one configuration.
- Two adapter bodies may overlap after a lease expires; only their result writes are fenced, and the model claims no more. A crashed manual run, or a crashed last automatic attempt, does not recover by itself; no property says it does.
- The row of a planner run and its ten-minute claim: the failure write is unconditional, and the interleavings of `SyncPlanning` allow any number of generations to be started.
- Accounts of a planning generation come in any order.
- Settlement generation, confirmation and locking are one atomic step each. The lock and its roll-forward are two transactions in the code; nothing is claimed about a crash between them. Preflight warnings, the missing exchange rate and the alignment of the month are not modelled.
- SettlementBooks.FindRollForward: the query has no order, the model takes the lowest row; the carryover results are about months where at most one row matches.
- Months of settlements are numbered consecutively; `SettlementMonths` shows when the date functions agree with that numbering. The limit of the range of time values is not modelled.
- `calculate` also copies the month and a text snapshot into each result. Ids are numbers, and ascending order stands for the order of their texts; task rows stand in order of creation.
- The foreign key from group members to employees, and the order in which a database reports two violated keys.
- The row order of the mapping query is arbitrary; `Resolve` says which rows are returned and how often, not in which order.
- The counter of cards without an id, which no outcome of a rematch increments, and the diagnostics of the inventory sync.
- Match resolutions are counted but not stored. The list of PhotonPay cards grouped by email is modelled only as far as a group exists.
- Login is one atomic step, although the user is read before the session is written. The provisioning command replaces roles without the last-super_admin check and is not one of the calls. Retries of serializable transactions: each call is one step.
- The email column of administrators may be NULL for rows the service did not write; the model gives everyone one.
- `granted` in a session is history kept for the proof; the table has no such column.
- Plain create, update and delete services of rates, manual entries, employees and accounts, and reports: they would only add easy members.
