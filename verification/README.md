# Verification of the control plane's hard core

This project models the parts of the Wollipog control plane whose correctness depends on whole runs
or on unbounded data, and proves what they promise. `dafny verify dfyconfig.toml` checks all of it.

Code that works step by step is modelled twice: as functions on one value that holds the state, on
which the results over runs are proved, and as methods on mutable fields that are proved to leave
exactly the value of those functions. Concurrency is modelled as steps that may interleave in any
order. A run is a list of operations; what an operation reads from elsewhere (other tables, clocks,
random draws, whether a target resolves) is a parameter of the step, so a result over runs holds for
every behaviour of those. The files named after outcomes, admissions and filters say what single
operations come to, on the fields of the state alone, so that what runs keep is about these operations.

| files | what they model |
|---|---|
| `CampaignBudget`, `CampaignTotals`, `CampaignRuns`, `CampaignReceipts`, `CampaignShares`, `CampaignOutcomes`, `CampaignAdmissions`, `CampaignBudgetLedger` | The campaign allowance ledger: reservations, charges, settlements, person-made releases, dispatch generations and grants, in whole micro-USD and tool calls |
| `Scheduler`, `TickOutcomes`, `AutomationScheduler` | One automation's cron cursor, misfire and concurrency policies, target waits and trigger executions |
| `Outbox`, `OutboxOutcomes`, `CommandOutbox` | The durable commands of an execution: receipts, provider retries, write-offs, transmission, and the drain of a runner that lost the capability |
| `ArchivePages`, `ArchiveFilters` | Anchored keyset pages of the session archive while the table changes |
| `JsonText`, `TriggerRecords`, `CanonicalJson` | The grammar of RFC 8259 for objects and strings, the strict trigger record parser, and the canonical printer |
| `DeliveryFraming`, `DeliveryTemplate` | The framed delivery context of a trigger, and the substitution of its values into a prompt template |
| `BlobStore`, `BlobOutcomes` | Concurrent publication of a content-addressed file by hard link |
| `Retention` | Arming of archived-history retention over two policy layers, and the prune pass |
| `ForgeObserver`, `ForgeOutcomes` | The bounded, rate-limited scheduler of forge reads |
| `BoxOrchestrator`, `BoxLifecycle`, `BoxOutcomes` | Tunnel port allocation, and the epoch fence around connection attempts |
| `DecisionChecks` | Serialized decision checks of one subject and their sticky refusals |
| `ShardLoads`, `BrowserShards` | Longest-processing-time sharding of browser test files, and how close to any other assignment it comes |
| `Options` | An optional value |

## Where the code falls short of what one might expect

Each is stated by a lemma, with the exact condition where there is one.

- A trigger execution can take the slot of a later cron fire: its slot avoids existing executions and
  the cursor only. The claim of that fire then violates the unique key, and the schedule never moves
  past it (`TriggerStopsSchedule`, `TakenSlotStopsSchedule`, `TakenFireIsNeverPassed`).
  `TriggerClearsExactly` says when a trigger does this, `HarmlessRunsNeverThrow` that no tick throws
  while none does, and `HarmfulTriggerStopsSchedule` that under catch-up one that does is final.
- A flush sends every row it listed when it began, also when an earlier row of the same execution has
  ended that execution since: a command marked as sent is not told apart from one that was already
  terminal (`FlushSendsAfterFailure`). It does so exactly when a sendable row of an execution stands
  behind one that the flush ends (`FlushSendsEndedExactly`).
- A rejecting automation accepts a delivery that omits a referenced parameter whose name every object
  inherits, such as `constructor`, when it delivers some other parameter
  (`InheritedNameIsNotRefused`); `RefusesExactly` says exactly what is refused, and
  `RefusesEveryOmission` when that is every omission.
- A media result does not look at person-made releases, so a released generation that was made active
  again settles again by one (`MediaResultIgnoresReleases`, `ReleasedSettlesAgain`).
- An attempt that was stopped while it detected the box's platform still stores it
  (`SupersededAttemptStoresPlatform`); that is the only thing that is not fenced, and
  `PlatformsFencedExactly` says in which runs it happens.
- A refused check whose process ends before its occurrence is linked to the subject does not stick: a
  reworded request can be confirmed (`UnlinkedRefusalIsLost`). Once an occurrence is linked it sticks
  in every run, and otherwise it does not (`RefusalSticksExactly`).

## Model

| member | source | states |
|---|---|---|
| CampaignRuns.AllowanceConserved | apps/control-plane/src/campaign-budget.ts:252-370 | After every run of the ledger's operations, a campaign's spend plus unspent reservations is at most its ceiling plus the usage reported beyond reservations since its last grant |
| CampaignRuns.RunsStaySound | apps/control-plane/src/campaign-budget.ts:545-860 | Every run keeps the inductive invariant: excess is at most spend, no settlement exceeds its member's charge, and what members hold without their excess is within every ceiling |
| CampaignRuns.AdmitStaysWithinCeiling | apps/control-plane/src/campaign-budget.ts:832-858 | `admit` alone never lifts any campaign's total above the larger of its ceiling and the total it read |
| CampaignRuns.AdmitBooks | apps/control-plane/src/campaign-budget.ts:832-858 | An admission is accepted exactly when none of its checks fails, and then writes one member row and reserves nothing else |
| CampaignRuns.AllocatedMeter | apps/control-plane/src/campaign-budget.ts:844-850 | An accepted allocation adds to its member's cover at most what was unreserved |
| CampaignRuns.ChargesNeverFall | apps/control-plane/src/campaign-budget.ts:738-767 | No run lowers a member's charge or moves it to another campaign, unless the member was a child that never launched |
| CampaignRuns.ReceiptsAreQuiet | apps/control-plane/src/campaign-budget.ts:152-166 | Reads, usage triggers, receipts, settlements, notes and stops reserve nothing and keep every member and ceiling |
| CampaignRuns.AuthorizeStaysSound | apps/control-plane/src/campaign-budget.ts:315-370 | An accepted grant leaves its own campaign within its ceilings and every other campaign as it was |
| CampaignRuns.RelaunchStaysSound | apps/control-plane/src/sessions.ts:9375-9388 | A restart, sent or not, keeps the invariant and lowers no charge |
| CampaignRuns.RestoreUndoesReplace | apps/control-plane/src/campaign-budget.ts:575-591 | Restoring an unsent dispatch puts back the whole ledger that replacing it changed |
| CampaignTotals.TotalSplits | apps/control-plane/src/campaign-budget.ts:277-289 | A campaign's total is its spend plus its outstanding reservations, and what is held plus the excess |
| CampaignTotals.SumUpdate | apps/control-plane/src/campaign-budget.ts:277-289 | Replacing one row moves a total by exactly what that row's own value moves |
| CampaignReceipts.AttestationIsExact | apps/control-plane/src/campaign-budget.ts:803-814 | After every run, a completion is attested only for an inactive member, at exactly its charge and its current generation |
| CampaignReceipts.StaleReceiptsNeverMatter | apps/control-plane/src/campaign-budget.ts:795-801 | Once a session has left a generation, every checkpoint, hold, release and media result naming it can be struck from any run without changing the ledger |
| CampaignReceipts.ReplacedGenerationIsLeft | apps/control-plane/src/campaign-budget.ts:797-801 | Replacing a dispatch leaves the generation it replaces and keeps no checkpoint |
| CampaignReceipts.ReleasedNeverSettlesAgain | apps/control-plane/src/campaign-budget.ts:684-748 | In every run without a media result for it, a generation that a person released gains no further settlement and stays released |
| CampaignReceipts.MediaResultIgnoresReleases | apps/control-plane/src/campaign-budget.ts:540-560 | A media result settles a released generation again exactly when the member is active at it |
| CampaignReceipts.ReleasedSettlesAgain | apps/control-plane/src/campaign-budget.ts:540-560 | Some run from the empty ledger reaches that state: a released generation is active again, and a media result settles it a second time |
| CampaignReceipts.SettlingReplays | apps/control-plane/src/campaign-budget.ts:738-767 | A settled checkpoint that is reported again settles to the very same ledger |
| CampaignReceipts.LaunchesStayWithinConcurrency | apps/control-plane/src/campaign-budget.ts:15-37 | Launching through `admit` leaves at most the larger of the concurrency limit and the slots occupied before |
| CampaignOutcomes.CheckpointSettles | apps/control-plane/src/campaign-budget.ts:738-767 | A checkpoint settles exactly when its session ended with no stop pending, it is of the current generation, nobody released that and its retirement can be proved, the hydrated history covers it and its usage can be priced; the charge is then the larger of what was recorded and what it states, the tools stay, the member is inactive, and the one settlement kept for it is within that charge, equal when new |
| CampaignOutcomes.UnsettledCheckpointKeeps | apps/control-plane/src/campaign-budget.ts:754-759 | Otherwise nothing changes, but that unpriceable final usage stops an active allowance |
| CampaignOutcomes.MediaResultSettles | apps/control-plane/src/campaign-budget.ts:540-560 | A media result settles exactly an active member of its campaign and generation, with both charges the larger of recorded and reported |
| CampaignOutcomes.UnpricedMediaResultStops | apps/control-plane/src/campaign-budget.ts:549-552 | Unpriced media usage settles nothing and stops the allowance |
| CampaignOutcomes.ReleaseSettles | apps/control-plane/src/campaign-budget.ts:684-720 | A release settles exactly a held slot, at the larger of recorded and a final checkpoint of the generation, or at what was recorded, and records charge, reason and which it was |
| CampaignOutcomes.ReleaseElsewhereKeeps | apps/control-plane/src/campaign-budget.ts:684-700 | A release of anything else changes nothing, and one made before is answered from its record to its own campaign |
| CampaignOutcomes.ReadSettles | apps/control-plane/src/campaign-budget.ts:774-783 | A read settles exactly the active members whose checkpoint may settle now, each at the larger of recorded and stated cost, and leaves every other row |
| CampaignOutcomes.ReportCounts | apps/control-plane/src/campaign-budget.ts:152-157 | A usage report leaves each meter at the larger of its spend and the report |
| CampaignOutcomes.CallCounts | apps/control-plane/src/campaign-budget.ts:158-166 | A tool call leaves the tool meter at the larger of its spend and the number of different calls |
| CampaignOutcomes.ReplacementRenews | apps/control-plane/src/campaign-budget.ts:797-801 | A relaunch gives the new generation, marked where its retirement cannot be proved, and forgets the old checkpoint |
| CampaignOutcomes.AttestsExactly | apps/control-plane/src/campaign-budget.ts:803-814 | An attestation is given exactly for an ended member whose last settlement is final, of its generation and at least its charge |
| CampaignAdmissions.SlotsAre | apps/control-plane/src/campaign-budget.ts:15-37 | The occupied slots are those of active workers whose end is not proved |
| CampaignAdmissions.AdmitsExactly | apps/control-plane/src/campaign-budget.ts:832-858 | An admission is accepted exactly when the allowance is active, the session is its own, a needed slot is free and both dimensions have room; it then writes that one row |
| CampaignAdmissions.PrepareOffers | apps/control-plane/src/campaign-budget.ts:460-473 | The default offer: what was asked, what the member had, or an equal part of what is unreserved |
| CampaignAdmissions.StandingAfterRead | apps/control-plane/src/campaign-budget.ts:252-313 | A read stops an active allowance where its cost cannot be accounted for or spend reached a ceiling, and no other |
| CampaignAdmissions.GrantsExactly | apps/control-plane/src/campaign-budget.ts:315-370 | A grant is refused for a stopped allowance, an incomplete tool history, or when the proposed ledger passes it, and is in force otherwise |
| CampaignAdmissions.GrantDivides | apps/control-plane/src/campaign-budget.ts:347-360 | A grant gives each claiming member the smaller of its own limit and its spend plus an equal part of what is not spent |
| CampaignAdmissions.TreeIsResumed | apps/control-plane/src/campaign-budget.ts:375-405 | A grant after a revocation runs members that have not ended again, at a new generation, with lowered limits kept |
| CampaignAdmissions.RestartAdmits | apps/control-plane/src/sessions.ts:9375-9388 | A restart admits the member with what it was allocated and renews its dispatch, or puts it back when unsent |
| CampaignShares.FairDivision | apps/control-plane/src/campaign-budget.ts:453-473 | As many new workers as there are free slots are all admitted with default shares that differ by at most one and sum to what was unreserved, whatever earlier ones spend inside their limits and whatever changes outside the campaign |
| CampaignShares.ReviewerLeavesRoom | apps/control-plane/src/campaign-budget.ts:453-473 | A reviewer's admission leaves at least half of what it found and as much as it took for each free slot, and takes no slot |
| CampaignShares.FirstDivisionFits | apps/control-plane/src/campaign-budget.ts:347-364 | The reservations of a first grant fit its ceiling whenever the spend does |
| CampaignShares.ReadTwice | apps/control-plane/src/campaign-budget.ts:252-293 | Reading an allowance that stays active a second time changes nothing |
| CampaignLedger.SettleStep | apps/control-plane/src/campaign-budget.ts:774-783 | Settling ended members one after another, in any order, settles exactly the set |
| CampaignLedger.CampaignBudgetLedger.SettleEnded | apps/control-plane/src/campaign-budget.ts:774-783 | The loop leaves every ended member settled from its own checkpoint |
| CampaignLedger.CampaignBudgetLedger.AddUp | apps/control-plane/src/campaign-budget.ts:276-289 | The loop computes a campaign's spend and outstanding reservations |
| CampaignLedger.CampaignBudgetLedger.ReadAllowance | apps/control-plane/src/campaign-budget.ts:252-313 | A view settles, notes and stops as the model's read does, and shows exactly what the ledger then holds |
| CampaignLedger.CampaignBudgetLedger.AdmitMember | apps/control-plane/src/campaign-budget.ts:832-858 | Admission on the tables gives the model's result, and a refusal rolls everything back |
| CampaignLedger.CampaignBudgetLedger.PrepareAllocation | apps/control-plane/src/campaign-budget.ts:460-473 | The prepared allocation is the model's offer on the allowance it read |
| CampaignLedger.CampaignBudgetLedger.AuthorizeCampaign | apps/control-plane/src/campaign-budget.ts:315-370 | A grant on the tables enrolls, divides and checks as the model does, and a refusal rolls everything back |
| CampaignLedger.CampaignBudgetLedger.DivideRows | apps/control-plane/src/campaign-budget.ts:347-360 | The loop divides the allowance among live members without finite reservations, and touches no other |
| CampaignLedger.CampaignBudgetLedger.SettleFromCheckpoint | apps/control-plane/src/campaign-budget.ts:738-767 | A checkpoint settles, stops the allowance or is left pending as the model says |
| CampaignLedger.CampaignBudgetLedger.SettleMedia | apps/control-plane/src/campaign-budget.ts:540-560 | A media result settles once, is refused, or is answered from the attestation |
| CampaignLedger.CampaignBudgetLedger.ReleaseHeldSlot | apps/control-plane/src/campaign-budget.ts:684-720 | A release settles its generation once and is answered from its record afterwards |
| CampaignLedger.CampaignBudgetLedger.OnToolCall | apps/control-plane/src/campaign-budget.ts:158-166 | A tool call is counted once however often it is reported, and never lowers the peak |
| CampaignLedger.CampaignBudgetLedger.RestartMember | apps/control-plane/src/sessions.ts:9375-9388 | A restart admits, redispatches and puts back an unsent dispatch as the model says |
| Scheduler.CatchUpHasNoGap | apps/control-plane/src/automations.ts:1259-1362 | Under catch-up, after every run of ticks, triggers and settlements, the claimed occurrences are exactly the cron fires from the first up to the cursor, each once |
| Scheduler.RunsStaySound | apps/control-plane/src/automations.ts:1312-1362 | Under every policy, claims rise strictly, the cursor is a later fire, and a recorded wait leads forward |
| Scheduler.TickReports | apps/control-plane/src/automations.ts:1259-1310 | A tick claims what it counts: at most `maxRuns` occurrences of a parallel catch-up, and one otherwise |
| TickOutcomes.DueOccurrence | apps/control-plane/src/automations.ts:1312-1362 | What a tick makes of the due occurrence at its cursor: skipped as a late misfire, waiting for or skipped beside a live execution, left alone on a lost pin, dispatched when its target resolves, expired exactly when it may wait no longer, and otherwise left waiting with the time it was first seen kept |
| TickOutcomes.TickInsertsJustified | apps/control-plane/src/automations.ts:1312-1362 | A tick inserts an execution as dispatched only where its target resolved, as expired only where it did not in time, and as skipped only for an overlap or a skipped misfire, and changes none that was there |
| TickOutcomes.TriggerDecides | apps/control-plane/src/automations.ts:1400-1463 | A pending invocation stays pending, or takes its slot as skipped, dispatched or expired |
| TickOutcomes.TriggerGoes | apps/control-plane/src/db.ts:34047-34057 | A trigger's slot is when it was received, or right behind the latest execution, and not the cursor's |
| Scheduler.CatchUpDispatchesOldest | apps/control-plane/src/automations.ts:1290-1310 | A parallel catch-up whose targets resolve dispatches exactly its oldest due occurrences, all or `maxRuns` of them |
| TickOutcomes.WaitedCatchUpDispatchesOldest | apps/control-plane/src/automations.ts:1266-1279 | A parallel catch-up that had to wait for its target dispatches exactly its oldest due occurrences too, once targets resolve |
| TickOutcomes.WaitedMovesOn | apps/control-plane/src/automations.ts:1261-1266 | After an occurrence that waited, the cursor goes past the backlog exactly when one run stands for it and the wait began a minute late or later, and otherwise to the recorded next fire |
| Scheduler.PlanIsDue | apps/control-plane/src/automations.ts:541-555 | The plan lists consecutive due fires from the cursor and then the least fire after now, overflow or not |
| Scheduler.SkipPassesBacklog | apps/control-plane/src/automations.ts:1281-1286 | A skipped misfire claims one occurrence, runs none and moves the cursor past the whole backlog |
| Scheduler.FireOncePassesBacklog | apps/control-plane/src/automations.ts:1287-1289 | Firing once dispatches one occurrence for the whole backlog |
| Scheduler.ExclusiveExecution | apps/control-plane/src/automations.ts:1312-1324 | Under `wait` or `skip` no run ever has two executions dispatching or running |
| Scheduler.TickStaysClear | apps/control-plane/src/db.ts:33964-34019 | While no execution holds a slot that the cursor is at or will come to, ticks never throw and keep it so |
| Scheduler.TriggerClearsExactly | apps/control-plane/src/db.ts:34047-34057 | A trigger takes no slot of the schedule exactly when it stays pending (a live execution to wait for, a lost pin, an unresolved target that has not expired) or its slot is before the cursor or no fire |
| Scheduler.HarmlessRunsNeverThrow | apps/control-plane/src/automations.ts:1259-1362 | In every run from a new automation in which every trigger meets that condition, no tick throws |
| Scheduler.TakenFireIsNeverPassed | apps/control-plane/src/db.ts:33983-34019 | Under catch-up the cursor never passes a fire whose slot an execution took, whatever runs later |
| Scheduler.HarmfulTriggerStopsSchedule | apps/control-plane/src/db.ts:34047-34057 | Under catch-up a trigger that does not meet the condition is final: no later run moves the cursor past its slot |
| Scheduler.TriggerSlotIsFree | apps/control-plane/src/db.ts:34047-34057 | The slot computed for a trigger is never taken |
| Scheduler.TakenSlotStopsSchedule | apps/control-plane/src/db.ts:33983-34019 | Once an execution holds the cursor's slot, no run moves the cursor or claims anything |
| Scheduler.TriggerStopsSchedule | apps/control-plane/src/db.ts:34047-34057 | For every parallel catch-up schedule of more than one run there is a run in which a trigger does so |
| AutomationScheduler.FindDue | apps/control-plane/src/automations.ts:541-555 | The loop computes the plan of due occurrences |
| AutomationScheduler.AutomationRows.ClaimOccurrence | apps/control-plane/src/db.ts:33964-34019 | A claim compares and sets the cursor and inserts one execution, or changes nothing |
| AutomationScheduler.AutomationRows.TickAutomation | apps/control-plane/src/automations.ts:1259-1310 | A tick on the rows leaves and reports what the model's tick does |
| AutomationScheduler.AutomationRows.DispatchSelected | apps/control-plane/src/automations.ts:1290-1310 | The loop over selected occurrences stops where the model's does, with the same claims |
| AutomationScheduler.AutomationRows.ProcessTrigger | apps/control-plane/src/automations.ts:1400-1463 | A pending invocation is left, skipped, dispatched or expired as the model says |
| Outbox.CommandsMoveForward | apps/control-plane/src/db.ts:34358-34432 | Over any run no command's state or revision goes back, terminal and superseded rows stay as they are, and settled executions stay settled |
| Outbox.AtMostThreeReplacements | apps/control-plane/src/automation-command-outbox.ts:181-212 | Over any run a staged plan gains at most three replacements, one for each superseded command |
| Outbox.FailureIsDecidedByLiveCommand | apps/control-plane/src/automations.ts:1082-1107 | An execution that fails by its commands was decided by one that nothing superseded |
| Outbox.WrittenOffIsNeverTransmitted | apps/control-plane/src/automations.ts:948-973 | Once a sweep has written an execution off, no later run sends any of its commands |
| Outbox.WrittenOffIsSettled | apps/control-plane/src/db.ts:34292-34317 | A sweep that writes an execution off settles it with every command ended |
| Outbox.FlushSparesSwept | apps/control-plane/src/automations.ts:867-888 | What is due after the sweep of a tick belongs to an execution that the sweep left alone |
| Outbox.AcknowledgedIsNeverSwept | apps/control-plane/src/automations.ts:944-953 | Work that its runner acknowledged is never written off by the sweep |
| Outbox.FlushSendsEndedExactly | apps/control-plane/src/automation-command-outbox.ts:85-133 | A flush sends a row of an execution that is no longer live exactly when its list has a sendable row of it behind one that the flush ends |
| Outbox.FlushSendsExactly | apps/control-plane/src/automation-command-outbox.ts:85-133 | A flush sends exactly the sendable rows of the list it began with, in order |
| Outbox.FlushSendsAfterFailure | apps/control-plane/src/automation-command-outbox.ts:85-133 | That includes a row whose execution an earlier row of the same flush ended |
| OutboxOutcomes.PlanSendsAfterDependency | apps/control-plane/src/db.ts:34237-34240 | Over every run from a staged plan, a command is sent only once what it depends on is completed |
| OutboxOutcomes.FlushSendsOnly | apps/control-plane/src/db.ts:34219-34249 | A flush sends only activated commands of a live execution that nothing refused for good, not before their next attempt, not at or after their expiry, not past their delivery deadline with nothing acknowledged, and not before their dependency is completed |
| OutboxOutcomes.MaySendIsSent | apps/control-plane/src/automation-command-outbox.ts:85-133 | Such a command is sent when it is listed; its attempt is counted and the next is due after a delay that doubles up to thirty seconds |
| OutboxOutcomes.ReceiptRecords | apps/control-plane/src/db.ts:34358-34432 | A receipt is recorded exactly when its command has not ended and it is newer, or ends it at its revision, and does not lead back; then the execution fails, runs or stays by its commands |
| OutboxOutcomes.TransientRefusalRetries | apps/control-plane/src/automation-command-outbox.ts:181-212 | A transiently refused launch is superseded by a fresh one, due after one, two or four minutes, and the execution does not fail by it |
| OutboxOutcomes.SweepWritesOff | apps/control-plane/src/automations.ts:948-973 | The sweep writes off exactly live executions of which nothing was acknowledged and whose undelivered commands are all past their deadline |
| OutboxOutcomes.ExpiryEnds | apps/control-plane/src/db.ts:34293-34316 | A command at its expiry ends, uncertain if it may be running and rejected otherwise |
| CommandOutbox.OutboxRows.DrainRunner | apps/control-plane/src/automation-command-outbox.ts:74-83 | The drain loop ends with none of the runner's commands active, moves rows forward only, and leaves other executions as they were |
| CommandOutbox.RowsDrain | apps/control-plane/src/automation-command-outbox.ts:223-241 | Failing a whole batch ends every one of its commands, also of executions that an earlier row settled, activates none, and touches no execution that the runner had no part in |
| CommandOutbox.OutboxRows.FailBatch | apps/control-plane/src/automation-command-outbox.ts:81 | The loop over a batch fails its rows in turn |
| CommandOutbox.DrainsOn | apps/control-plane/src/automation-command-outbox.ts:223-241 | Failing one active row strictly shrinks the runner's active rows and activates none |
| CommandOutbox.DrainedMeans | apps/control-plane/src/db.ts:34251-34265 | No row is active exactly when every command of the runner has ended or belongs to a settled execution |
| ArchivePages.DeliveredExactlyOnce | apps/control-plane/src/archive-session-page.ts:141-205 | A session at or below the anchor that exists and matches throughout a complete reading is delivered exactly once |
| ArchivePages.DeliveredInOrder | apps/control-plane/src/archive-session-page.ts:102-112 | Whatever changes between pages, what is delivered is in archive order and none is above the anchor |
| ArchivePages.NoSessionTwice | apps/control-plane/src/archive-session-page.ts:141-205 | No session is delivered twice |
| ArchivePages.DeliveredMatched | apps/control-plane/src/archive-session-page.ts:141-205 | Every delivered session was there and matched the filters when its page was made |
| ArchivePages.NothingMissed | apps/control-plane/src/archive-session-page.ts:141-205 | A session that is there and matches throughout is delivered by the end |
| ArchivePages.StaticPages | apps/control-plane/src/archive-session-page.ts:141-205 | On a table at rest the pages concatenate to the filtered, sorted list |
| ArchiveFilters.DeliversExactlyWanted | apps/control-plane/src/archive-session-page.ts:158-175 | A complete reading at rest delivers exactly the sessions in the archive state asked for, with equal project, location, agent and lifecycle where given, and with the searched text in their own or their transcript |
| ArchiveFilters.StatesPartition | apps/control-plane/src/archive-session-page.ts:161-163 | The archived and the unarchived readings partition the reading of all |
| ArchiveFilters.PageShowsWanted | apps/control-plane/src/archive-session-page.ts:141-205 | One page shows, in order, all sessions its request is for, or the first fifty of them and where it stopped |
| ArchiveFilters.RefusedExactly | apps/control-plane/src/archive-session-page.ts:125-139 | A request is refused exactly for an unknown archive state or lifecycle, an unreadable cursor, or a cursor of other filters |
| ArchivePages.OwnCursorAccepted | apps/control-plane/src/archive-session-page.ts:65-81 | The cursor a page returns is accepted next exactly when it is within the decoder's limits |
| ArchivePages.OrderedInOrder | apps/control-plane/src/archive-session-page.ts:106-108 | Sorting keeps the sessions and puts them newest first, ties by id |
| JsonText.MembersParse | apps/control-plane/src/automation-trigger-ingress.ts:195-226 | Every printed member list parses back to its syntax tree, whatever follows it |
| JsonText.ValueSound | apps/control-plane/src/automation-trigger-ingress.ts:195-226 | Whatever parses is the printed form of a valid syntax tree and the rest of the text |
| JsonText.Unambiguous | apps/control-plane/src/automation-trigger-ingress.ts:165-231 | A text has at most one syntax tree |
| JsonText.UnitsAre | apps/control-plane/src/automation-trigger-ingress.ts:165-193 | White space and the characters that stand for themselves are those of RFC 8259 |
| JsonText.ShortEscapesAre | apps/control-plane/src/automation-trigger-ingress.ts:170-193 | The two-character escapes are the eight of RFC 8259, with their meanings |
| JsonText.WellFormedIsEncodable | apps/control-plane/src/automation-trigger-ingress.ts:233-243 | A well-formed string is the UTF-16 form of some scalar values |
| JsonText.EncodableIsWellFormed | apps/control-plane/src/automation-trigger-ingress.ts:233-243 | The UTF-16 form of scalar values is well formed |
| TriggerRecords.AcceptsExactly | apps/control-plane/src/automation-trigger-ingress.ts:165-231 | The parser accepts exactly the RFC 8259 texts of objects at most three levels deep with distinct well-formed keys and well-formed string leaves, and returns their meaning |
| TriggerRecords.ScanAgrees | apps/control-plane/src/automation-trigger-ingress.ts:170-193 | Scanning to the closing quote and decoding the slice agrees with the grammar of strings |
| TriggerRecords.CheckWellFormed | apps/control-plane/src/automation-trigger-ingress.ts:233-243 | The loop decides whether a string is well formed |
| TriggerRecords.RecordParser.Parse | apps/control-plane/src/automation-trigger-ingress.ts:165-231 | The parser over a shared offset returns what the grammar says, for every text |
| TriggerRecords.RecordParser.ReadMembers | apps/control-plane/src/automation-trigger-ingress.ts:204-226 | The member loop ends, and reads or refuses as the grammar says |
| CanonicalJson.ParsesBack | apps/control-plane/src/automation-command-outbox.ts:37-43 | The parser returns an object from its canonical text exactly when the object is within the parser's depth and well formed |
| CanonicalJson.CanonicalTextIsMeaning | apps/control-plane/src/automation-command-outbox.ts:37-43 | Two objects have the same canonical text exactly when they mean the same, whatever the order of their keys |
| CanonicalJson.SortedAscending | apps/control-plane/src/automation-command-outbox.ts:41-42 | Sorting puts distinct keys in ascending order and keeps every pair |
| CanonicalJson.QuoteMeans | apps/control-plane/src/automation-command-outbox.ts:38 | A quoted string is a valid literal that decodes to the string |
| CanonicalJson.UnitIsWritten | apps/control-plane/src/automation-command-outbox.ts:38 | Each unit is written as itself, by its short escape, or by six characters |
| DeliveryFraming.FrameRoundTrip | apps/control-plane/src/automations.ts:811-820 | The text between the first opening and the first closing tag is one JSON object that means the delivery context, for every prompt, and the prompt stands behind the closing tag |
| DeliveryFraming.DeliveryReadsBack | apps/control-plane/src/automations.ts:811-820 | For every accepted delivery that text parses back to exactly its context |
| DeliveryFraming.NodeEscapes | apps/control-plane/src/automations.ts:817 | Escaping every less-than sign of a JSON text keeps it the text of a tree with the same meaning |
| DeliveryTemplate.SubstitutionIsSinglePass | apps/control-plane/src/automations.ts:790-800 | Substitution in any template replaces exactly the references of its leftmost reading and copies their values as they are, whatever they hold |
| DeliveryTemplate.ReadingIsUnique | apps/control-plane/src/automations.ts:123 | A template has exactly one reading that prints back to it and leaves no reference unread |
| DeliveryTemplate.RefusesExactly | apps/control-plane/src/automations.ts:790-803 | A rejecting automation refuses a delivery exactly when its template refers to a value that the delivery omits, other than by an inherited name beside delivered parameters |
| DeliveryTemplate.PromptFollows | apps/control-plane/src/automations.ts:803 | An accepted delivery starts with the filled template and, behind an empty line, a delivered prompt that it does not place |
| DeliveryTemplate.NamesAre | apps/control-plane/src/automations.ts:121-124 | A parameter name is a letter followed by at most 63 letters, digits and underscores |
| DeliveryTemplate.RefusesEveryOmission | apps/control-plane/src/automations.ts:797-803 | A delivery that omits referenced values is accepted exactly when it delivers parameters and omits only inherited names |
| DeliveryTemplate.InheritedNameIsNotRefused | apps/control-plane/src/automations.ts:798-799 | For every inherited name a delivery that omits it is accepted, and the prompt receives what is inherited |
| DeliveryTemplate.ConstructorIsNotRefused | apps/control-plane/src/automations.ts:798-799 | For example the name `constructor` |
| DeliveryTemplate.PlacedIsReferenced | apps/control-plane/src/automations.ts:791 | Searching the text for the prompt's reference finds it exactly when the reading has it |
| BlobStore.PathIsAbsentOrComplete | apps/control-plane/src/artifact-blob-store.ts:159-297 | Under any interleaving, failure, crash and delete, the content path is absent or a complete file whose digest is the key, and a durable call's file appears only after its hook finished |
| BlobStore.NeverReplaced | apps/control-plane/src/artifact-blob-store.ts:184-196 | Once linked, the content path names the same file with the same bytes until it is deleted |
| BlobStore.ReturnedMeansPublished | apps/control-plane/src/artifact-blob-store.ts:159-297 | Without deletes, every call that returned has its content published |
| BlobStore.FinishedCallLeavesNothing | apps/control-plane/src/artifact-blob-store.ts:199-205 | A finished call leaves a temporary file exactly when removing it failed |
| BlobStore.PublishedIsCallers | apps/control-plane/src/artifact-blob-store.ts:229-241 | What is published when a call returned has its digest, and is its bytes unless the digest collides |
| BlobOutcomes.SteadyCallReturns | apps/control-plane/src/artifact-blob-store.ts:159-297 | Under any interleaving without deletes, a call whose own steps succeed never fails, unless its bytes have not the digest or another call's bytes collide with it, and has returned with its bytes published after at most ten steps more than it has bytes |
| BlobOutcomes.FirstCallPublishes | apps/control-plane/src/artifact-blob-store.ts:176-198 | A first call whose steps all succeed returns with its bytes as the content and no temporary file |
| BlobOutcomes.FailedStepLeads | apps/control-plane/src/artifact-blob-store.ts:181-205 | A failed step changes no file; the call cleans up and throws, but recovers from a refused link, and `put` from a failed unlink behind its own |
| BlobOutcomes.RefusedLinkReturns | apps/control-plane/src/artifact-blob-store.ts:188-198 | A call that finds another's file there goes on exactly when size and digest match, and for `put` the bytes |
| Retention.PruningWaitsOutDelay | apps/control-plane/src/archived-history-retention.ts:345-358 | For every history of environment and organization changes, a batch prunes by `days` only where retention was on with at most `days` throughout the whole delay before |
| Retention.PruningStartsAfterDelay | apps/control-plane/src/archived-history-retention.ts:113-131 | Once the delay has passed since the last change, an organization whose retention is on prunes |
| Retention.ShorteningWaitsExactly | apps/control-plane/src/archived-history-retention.ts:392-401 | Turning retention on or shortening it waits exactly the delay |
| Retention.ChangeTakesEffect | apps/control-plane/src/archived-history-retention.ts:113-131 | A person's change is in force for its organization, a restart for all without a setting of their own, armed from when the current policy allowed it unless it turns retention on or shortens it |
| Retention.PruningGoesOn | apps/control-plane/src/archived-history-retention.ts:392-401 | A change that neither turns retention off nor shortens it leaves an organization pruning that already pruned |
| Retention.PageShowsUnvisited | apps/control-plane/src/archived-history-retention.ts:326-341 | A page longer by fifty than what was visited shows an unvisited candidate while there is one |
| Retention.PrunePass.Prune | apps/control-plane/src/archived-history-retention.ts:305-341 | The pass ends having visited every open run and every candidate exactly once, although failed ones stay candidates |
| ForgeObserver.BoundedAndFair | apps/control-plane/src/campaign-forge-observations.ts:401-416 | In every reachable state at most two reads hold a slot, at most eight wait, they wait only while all slots are taken, and reads begin in the order asked |
| ForgeObserver.RefreshesNeverOverlap | apps/control-plane/src/campaign-forge-observations.ts:267-307 | Two refresh reads of one pull request never overlap |
| ForgeObserver.RefreshWaitsOutInterval | apps/control-plane/src/campaign-forge-observations.ts:267-307 | A refresh reads only pull requests whose last read finished at least the interval before, however long it had waited and whatever was forgotten |
| ForgeOutcomes.RefreshReadsWaiting | apps/control-plane/src/campaign-forge-observations.ts:267-307 | A refresh reads every named pull request that has rested and is not in flight, unless the queue is full when it ends, each in one added read of at most sixteen, and no other |
| ForgeOutcomes.ReadsNowAllOrNone | apps/control-plane/src/campaign-forge-observations.ts:331-348 | An authoritative read asks for all of its batches, or for none when the queue cannot hold them |
| ForgeOutcomes.AnswerPassesSlot | apps/control-plane/src/campaign-forge-observations.ts:401-416 | An answer passes its slot to the read that waited longest |
| ForgeObserver.CampaignForgeObserver.RefreshGroup | apps/control-plane/src/campaign-forge-observations.ts:276-305 | The loops start the due refs batch by batch and drop what the full queue cannot take |
| ForgeObserver.CampaignForgeObserver.FindDue | apps/control-plane/src/campaign-forge-observations.ts:281-290 | The loop finds each due ref once |
| BoxOrchestrator.PickRemoteTunnelPort | apps/control-plane/src/box-orchestrator.ts:177-188 | The loop picks the first free port from the random start on |
| BoxOrchestrator.PickIsExact | apps/control-plane/src/box-orchestrator.ts:177-188 | For every start the port is in range and not excluded, and there is none exactly when every port is excluded |
| BoxOrchestrator.PortsStayApart | apps/control-plane/src/box-orchestrator.ts:1227-1233 | While fewer than 900 ports are held or known occupied at each allocation, boxes hold distinct ports in every run |
| BoxOrchestrator.PortOpsLeave | apps/control-plane/src/box-orchestrator.ts:1227-1233 | What creation, a taken port, registration and removal leave of each box's port, of the ports it found taken and of its quick retries |
| BoxOrchestrator.AllocatedPort | apps/control-plane/src/box-orchestrator.ts:1227-1233 | The allocated port is in range, and neither excluded nor held while such a port exists |
| BoxOrchestrator.QuickRetriesAreBounded | apps/control-plane/src/box-orchestrator.ts:1747-1770 | At most seven quick retries happen between two registrations, however few ports are left |
| BoxLifecycle.BumpFencesAttempts | apps/control-plane/src/box-orchestrator.ts:1589-1783 | After a lifecycle operation bumps the epoch, every later step of earlier attempts can be struck from the run without changing statuses, tunnels, timers or later attempts |
| BoxLifecycle.PlatformsFencedExactly | apps/control-plane/src/box-orchestrator.ts:1606-1611 | After a bump, attempts from before change what platforms are stored exactly when one of them was detecting at the bump and first hears in the run that this ended well |
| BoxLifecycle.PlatformsFenced | apps/control-plane/src/box-orchestrator.ts:1606-1611 | With no attempt detecting at the bump, the stored platforms are fenced as well |
| BoxLifecycle.SupersededAttemptStoresPlatform | apps/control-plane/src/box-orchestrator.ts:1606-1611 | A stopped attempt still stores the platform it detected |
| BoxOutcomes.StartedBoxConnects | apps/control-plane/src/box-orchestrator.ts:1594-1724 | An attempt whose stages end well shows that it begins and deploys, and spawns exactly one tunnel |
| BoxOutcomes.ExitReconnects | apps/control-plane/src/box-orchestrator.ts:1725-1783 | When its tunnel exits the box is shown offline, and a reconnect is armed where it reconnects by itself |
| BoxOutcomes.GoesOn | apps/control-plane/src/box-orchestrator.ts:1594-1783 | What a current attempt does next at each stage that ended well |
| BoxOutcomes.AttemptFails | apps/control-plane/src/box-orchestrator.ts:1635-1650 | A failed attempt is over, shown failed, and reconnects |
| BoxOutcomes.SupersededEnds | apps/control-plane/src/box-orchestrator.ts:1589-1592 | A superseded attempt shows, spawns and arms nothing |
| BoxOutcomes.ReconnectBegins | apps/control-plane/src/box-orchestrator.ts:1772-1783 | A reconnect begins an attempt exactly if it was armed at the current epoch of a box that is still there |
| DecisionChecks.OneCheckAtATime | apps/control-plane/src/campaign-decision-checks.ts:76-89 | Checks of one subject never run at once, whenever the chain behind them is cleaned up, whichever throws and whenever the process ends |
| DecisionChecks.RefusalsStickFromStart | apps/control-plane/src/campaign-decision-checks.ts:91-128 | Once a linked occurrence of a subject was refused, uncertain or failed, nothing that returns afterwards confirms, reworded, replayed, waiting or racing |
| DecisionChecks.RefusalSticksExactly | apps/control-plane/src/campaign-decision-checks.ts:91-128 | After every run, no later run confirms exactly when an occurrence that did not confirm is linked to the subject |
| DecisionChecks.UnlinkedRefusalIsLost | apps/control-plane/src/campaign-decision-checks.ts:108-122 | A process that ends between a refusal and its link leaves one that a reworded request gets past |
| DecisionChecks.RefusalWins | apps/control-plane/src/campaign-decision-checks.ts:116-127 | With an unconfirmed occurrence linked to the subject, no wording's outcome is a confirmation |
| DecisionChecks.OutcomesAreBacked | apps/control-plane/src/campaign-decision-checks.ts:103-127 | Over every run, a confirmation is backed by the call's own linked occurrence that confirmed, and any other outcome by a linked one that did not |
| BrowserShards.BrowserShards | playwright.shards.ts:24-35 | The loop partitions the files on ten shards, each on a least-loaded shard at its turn, longest first, with the loads it records; no shard exceeds 39/30 of the fullest shard of any other assignment |
| ShardLoads.MakespanBound | playwright.shards.ts:24-35 | For every number of shards m, preload and other assignment with largest load M, a shard's load L satisfies 4L <= 5M or 3mL <= (4m - 1)M |
| ShardLoads.FourThirdsExactly | scripts/browser-shard-count.mjs:3 | 3mL <= (4m - 1)M holds for all inputs exactly when the number of shards is neither two nor three |
| ShardLoads.LoadsAddUp | playwright.shards.ts:24-35 | The loads of all shards sum to the preload and every weight |
| BrowserShards.FilesPartition | playwright.shards.ts:24-35 | The shards' files are the given files, each on one shard |

## Left out

- Campaign ledger: live cost estimates and their rounding, the tolerance of one billionth of a dollar, follow-up counts, session-level `admissionError`, native review jobs and the cancellation of media reservations that were never dispatched. Costs are whole micro-USD, so a default cost share is rounded down where the source keeps fractions.
- Campaign ledger: a member's generation is drawn when it is inserted; the source draws it on first use, before anything can name it.
- Campaign ledger: a grant's tree enrolls only new sessions and its own members, as a session belongs to one campaign; nothing else in the source prevents a nested campaign's member in the tree.
- Slots: that no campaign ever occupies more than its concurrency is not claimed. A generation already freed can be marked unprovable later and occupies its slot again.
- Scheduler: cron arithmetic and time zones are a function that gives the least fire after a time, and always has one. Edits, disabling and deletion of an automation, saved installation pins beyond their failure to be saved, and notifications are not modelled. Whether a target resolves is a parameter.
- Outbox: command ids are positions, so that replacement names are unique is not modelled. Batches of a flush and of an expiry are any listed rows rather than the hundred oldest. Governance pauses and the success of an execution are an outside settlement.
- Archive pages: search facets, snippets, metadata and the base64url and JSON form of cursors; ids are bytes, and lower-casing of search text happens before it reaches the model.
- Canonical printer: arrays, numbers, booleans and null, and properties whose value is undefined.
- Trigger ingress: signatures, and the checks of a parsed body's fields.
- Blob store: modes, directory creation, and durability across power loss; a crash ends a call between two steps and keeps what the directory shows. The in-memory store is not modelled.
- Retention: the batches of one session, their budgets and pacing, the trimming of runner histories, and stopping or disarming in the middle of a pass.
- Forge observer: what is read and stored, the grouping of refs by reader, and the background pass, which only asks for refreshes.
- Box orchestrator: deployment, credentials, adoption of legacy data, and the child process of an attempt. Waiting for a stopping child is an order of the modelled operations.
- Decision checks: a person's later decision on the request is not modelled.
- Delivery template: which names an object inherits, and their text, are a parameter.
- SHA-256, HMAC, SQLite, timers, SSH and the network are functions, maps, steps and parameters.
