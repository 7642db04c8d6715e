# Norte: verified model

Norte is a single-process WhatsApp assistant. Its state lives in SQLite tables
that are driven by steps: an outbox pass, a scheduler tick, an inbound message,
a nudge check, a menu answer, a boot. better-sqlite3 is synchronous, so no other
code sees a table between two awaits; but outside a transaction every statement
commits on its own, so a crash can leave any prefix of them behind. This project
models the parts that have to be right over whole runs, crashes between two such
statements included, and proves what they promise.

| Area | Files | Shape |
|---|---|---|
| Civil time | `Calendar`, `ZonedTime`, `Recurrence`, `ResponsePattern`, `ExpandChain` | functions on instants in milliseconds, loops where the source loops |
| Outbox | `OutboxTable`, `OutboxMachine`, `OutboxSafety`, `OutboxTheorems`, `OutboxProcessor` | queries, a state machine over its events, its invariants, the promises over every run, and the classes whose executions are runs of the machine |
| Task store | `TaskTables`, `ChainInvariants`, `ChainTheorems`, `CommandOutcomes`, `StoreChanges`, `TornCommands`, `BrainRetries`, `Capture`, `TaskServices` | commands as functions on the tables, the invariant each keeps, what each leaves row by row, crashes inside them, what even those keep, and the services as classes that refine them |
| Scheduler | `SchedulerMachine`, `SchedulerSafety`, `SchedulerTheorems`, `DueStarts`, `OneShots`, `Scheduler` | ticks, jobs, commands, seeds and crashes interleaved, over the same task store |
| Inbound messages | `InboxMachine`, `InboxTheorems`, `InboxRecovery` | webhooks, background handlers, crashes and boot sweeps |
| Nudges and menus | `Priorities`, `MenuTables`, `MenuSafety`, `MenuTheorems`, `NudgeService` | two stacks popped separately, the nine menu commands, and the services as classes |
| Loops | `CostMonitor`, `BrainLoop` | the cache-regression alarm and the tool-use transcript |

`Common` holds `Option` and `Result`; `Counting` holds the lemmas about counting rows.

Every class method is tied by its `ensures` to a specification function or to a
run of a state machine, so the theorems about those hold of the code. What an
await lets in (other commands, the clock, network outcomes) is chosen
arbitrarily at each await.

## What the code does where its documentation says otherwise

The model follows the code. Each point is stated as a lemma.

- The table learns of a send only when its reply is in. A text is lost to it when
  the delivery callback, which runs inside the `try` that guards the send, throws
  and the row is put back or failed; when the reply fails after the gateway took the
  text; or when the process dies with it out. Losses are counted event by event, for
  each message and each day (`LossesOfMessage`, `LossesOfDay`). The first two send
  the message again while attempts remain (`LostSendGoesTwice`), the third frees a
  place under the cap (`CrashedSendPassesCap`). The cap on the table holds all the
  same (`DailyCapHolds`). What the recipient gets on a day is what arrived or is
  under way, never more than the cap, plus one text for each loss (`RecipientCount`).
- The statements that settle a message commit one by one. A crash after the attempt
  is counted leaves the row unfailed for good, even at five attempts, and one after
  the failed mark takes its alert away; `AttemptBudget` says that nothing else does,
  and `LastFailureCutShort` gives runs of both. A message whose callback threw stays
  delivered when the process dies before the row is put back or failed
  (`DeliveredUnlessPutBack`, `ThrownYetDelivered`).
- Ties between response windows are documented as going to the most recent
  sample. The samples are read newest first and the greatest index wins, so the
  oldest peak wins (`OldestPeakWins`); `TieRuleIff` says exactly when that makes
  no difference.
- Monthly steps clamp and do not recover: `AddMonthsAdditiveIff` gives the exact
  condition under which two steps equal one, `MonthsDrift` a family that fails.
- A comment says a dropped Google event comes back on the next sync. The unique
  index also covers cancelled rows, so it never does (`DroppedNeverResynced`).
- A retry of the brain's tool call is recognised exactly while no accepted drop or
  move of its appointment, whole or cut short, got to cancelling it; afterwards
  it creates a second appointment, unless the event that replaced the first was given
  a Google id or the retry brings an id seen before (`BrainRetryIff`).
- A drop, a move with its chain, a nudge and a response to a charge are series of
  separate statements. `TornIff` says at which of their statements a crash leaves
  the store consistent, and `StoreConsistentIff` that a run is consistent throughout
  if and only if no crash fell at another; `TornNudge` and `TornResponse` do the
  same for the two menu stacks, and `StacksStayAligned` for runs.
- A tick does not read a job's status again before running it. A cancelled job can
  still run if and only if a tick in progress has read it and not started it
  (`CancelledRunsIff`), and a one-shot job runs at most once if and only if no tick
  starts while the job is due and another tick holds it (`OneShotRunsOnceIff`).
  `CancelledAlertRuns` and `ReminderRunsTwice` are runs that show both failures.
- The next occurrence of an `every` rule is later than the firing only when its
  interval is positive (`StrictlyLaterIff`).

## Model

| member | source | states |
|---|---|---|
| Calendar.DayFromYearCounts | src/core/scheduler/domain/timezone.ts:52-52 | Counting leap years one by one agrees with the closed formula of section 21.4.1 of ECMA-262, on every year |
| Calendar.CivilRoundTrip | src/core/scheduler/domain/timezone.ts:81-84 | Reading a day number as a date and numbering it again is the identity on all days |
| Calendar.DateRoundTrip | src/core/scheduler/domain/timezone.ts:79-84 | Numbering a valid date and reading it back is the identity on all dates, so day numbers name dates uniquely |
| ZonedTime.ResolveWallClock | src/core/scheduler/domain/timezone.ts:51-71 | For any offset function an exit by `break` is an instant that reads as the wall clock asked for; under the fixed offset the loop always exits so, on one named instant |
| ZonedTime.WallClockRoundTrip | src/core/scheduler/domain/timezone.ts:33-71 | Every valid wall-clock record survives the trip to an instant and back |
| ZonedTime.InstantRoundTrip | src/core/scheduler/domain/timezone.ts:33-71 | Every instant survives the trip to wall-clock fields and back, floored to the second, and its fields are always valid |
| ZonedTime.StartOfDayBounds | src/core/scheduler/domain/timezone.ts:73-76 | The start of the local day of an instant is not after it and is less than a day before it |
| ZonedTime.AddDaysShifts | src/core/scheduler/domain/timezone.ts:78-89 | Adding n local days moves the instant by exactly n times 86400 seconds, keeps the time of day and yields a valid date |
| ZonedTime.AddDaysAdditive | src/core/scheduler/domain/timezone.ts:78-89 | Adding days is additive, and adding the opposite number undoes it |
| ZonedTime.AddMonthsLands | src/core/scheduler/domain/timezone.ts:91-104 | Adding months, negative counts included, lands on a valid date of the intended month, with the day kept when it fits and clamped otherwise |
| ZonedTime.AddMonthsAdditiveIff | src/core/scheduler/domain/timezone.ts:91-104 | Two steps equal their sum if and only if the middle month does not clamp below what the last one keeps; always for days up to the 28th |
| ZonedTime.MonthsDrift | src/core/scheduler/domain/timezone.ts:91-104 | January 31st plus one month twice is never March 31st, while plus two months always is |
| ZonedTime.MonthStep | src/core/scheduler/domain/timezone.ts:91-104 | One month later is between 28 and 31 days later |
| ZonedTime.WeekdayOfLocalDay | src/modules/nudges/nudge-service.ts:50-52 | The weekday read at local midnight is the weekday of the local day at every hour |
| Recurrence.StepSize | src/core/scheduler/domain/recurrence.ts:19-34 | Daily and weekly steps are exactly 1 and 7 days after the firing floored to the second, monthly ones 28 to 31, `every` ones the minutes given |
| Recurrence.StrictlyLaterIff | src/core/scheduler/domain/recurrence.ts:19-34 | The next occurrence is after the firing if and only if the rule is not an `every` rule without a positive interval |
| Recurrence.KeepsTimeOfDay | src/core/scheduler/domain/recurrence.ts:24-33 | Daily, weekly and monthly rules keep the local time of day |
| Recurrence.MonthlyLands | src/core/scheduler/domain/recurrence.ts:31-32 | The monthly occurrence reads the same time of day in the next month, on the same day when that month has it and on its last day otherwise |
| Recurrence.DailyRunIsNext | src/modules/rituals/job-scheduling.ts:14-21 | The first run is the least instant strictly after now that reads hour:minute:00 locally |
| ResponsePattern.SelectMostFrequentWindow | src/modules/nudges/domain/response-pattern.ts:17-33 | The counting loop returns the head of the ranking by count, then by last index |
| ResponsePattern.MostFrequentWindow | src/modules/nudges/domain/response-pattern.ts:12-33 | The window chosen outranks every other window that occurs; none is chosen only for no samples |
| ResponsePattern.TallyCounts | src/modules/nudges/domain/response-pattern.ts:17-25 | The tally of a window is the number of samples in it |
| ResponsePattern.OldestPeakWins | src/modules/nudges/patterns-repository.ts:26-38 | On samples read newest first, the oldest sample of a most frequent window decides |
| ResponsePattern.TieRuleIff | src/modules/nudges/domain/response-pattern.ts:12-33 | The documented rule, the most recent of the tied, is met if and only if the newest and oldest peaks are the same window |
| ResponsePattern.OlderOfTwoWins | src/modules/nudges/nudge-service.ts:191-200 | Any two responses in different windows: the older one decides |
| ResponsePattern.RecentAreNewest | src/modules/nudges/patterns-repository.ts:26-38 | The samples ranked are the last ones recorded, as many as asked for or all of them, newest first |
| ResponsePattern.OccurrenceIsNext | src/modules/nudges/domain/reschedule-proposal.ts:25-35 | The occurrence is the least instant strictly after now on that local weekday at hour:00:00 |
| ResponsePattern.ProposalFollowsHabit | src/modules/nudges/domain/reschedule-proposal.ts:44-60 | The proposal is the least later instant at the weekday and hour of the habitual window, the one with more samples than any other, or as many and its last at a greater position; without samples it is the fallback time of the next local day |
| ResponsePattern.HabitIsUnique | src/modules/nudges/domain/response-pattern.ts:27-33 | No two windows are the habitual one |
| ResponsePattern.ProposalIsFuture | src/modules/nudges/domain/reschedule-proposal.ts:44-60 | Both the pattern and the fallback propose a strictly future instant |
| ExpandChain.ChainContents | src/modules/chains/domain/expand-chain.ts:20-51 | A stage is in the chain if and only if its alert time lies strictly between now and the start, at that time: midnight of the eve or of the day plus its hour, or the start less travel and margin; in the order eve, morning, departure, none twice |
| ExpandChain.StageDays | src/modules/chains/domain/expand-chain.ts:21-27 | The eve alert falls on the previous local day and the morning one on the same day, across months, years and leap days |
| ExpandChain.LeavesInTime | src/modules/chains/domain/expand-chain.ts:29-30 | The departure alert plus the travel time plus the margin is the start |
| ExpandChain.EveComesFirst | src/modules/chains/domain/expand-chain.ts:23-27 | The eve alert precedes the morning alert and the appointment |
| OutboxTable.QueueOrder | src/core/outbox/outbox-repository.ts:56-64 | A pass takes exactly the pending rows whose retry time, if any, has come, each once, anchors first and each class in id order |
| OutboxTable.SentTodayCounts | src/core/outbox/outbox-repository.ts:66-74 | With no delivery in the future, the count since local midnight is the count of the local day |
| OutboxTable.BackoffDoubles | src/core/outbox/domain/backoff.ts:1-13 | The delay doubles with each attempt from a minute on and stays at one hour from the sixth |
| OutboxTable.CommittedIsSize | src/core/outbox/outbox-repository.ts:76-98 | The count behind the nudge budget is the number of proactive rows enqueued since local midnight that have not failed |
| OutboxSafety.DailyCapHolds | src/core/outbox/processor.ts:58-121 | Over every run, crashes and midnight during the delay included, no local day holds more delivered proactive rows than the cap |
| OutboxTheorems.HeldAnchorStopsOrdinary | src/core/outbox/processor.ts:66-101 | A pass that holds back an anchor ritual on a local day sends no ordinary proactive message that day, before or after |
| OutboxTheorems.TurnOutcome | src/core/outbox/processor.ts:75-107 | In every reachable state the next message of a pass is sent unless it is proactive and its local day holds as many delivered proactive rows as the cap; a reply is never held back, a held anchor ritual is noted, and no other row changes |
| OutboxTheorems.SettlementOutcome | src/core/outbox/processor.ts:109-137 | A settlement leaves the row delivered and stamped now, back in the queue with one attempt more after 2, 4, 8 or 16 minutes, or failed at the fifth attempt, and changes no other row |
| OutboxTheorems.AttemptBudget | src/core/outbox/processor.ts:123-137 | Over every run a row is claimed at most five times, each retry at least 2, 4, 8 and 16 minutes after the claim before; it has failed if and only if five attempts are counted and no crash fell right after a count of it, and then had its one alert if and only if no crash fell right after the failed mark |
| OutboxTheorems.LastFailureCutShort | src/core/outbox/processor.ts:124-130 | Runs in which the process dies while settling the fifth failure: five attempts and still `sending`, or failed with no alert |
| OutboxTheorems.TotalSendAttempts | src/core/outbox/domain/backoff.ts:6-17 | Send attempts over a run are at most five times the rows enqueued |
| OutboxTheorems.ClaimAlwaysWins | src/core/outbox/outbox-repository.ts:100-111 | What a pass still holds is unchanged and pending when its turn comes, so with one processor no claim is lost |
| OutboxTheorems.SettledForever | src/core/outbox/processor.ts:103-121 | Delivered, failed and orphaned rows are never touched or sent again, whatever follows |
| OutboxTheorems.OrphanNeverResent | src/core/outbox/processor.ts:103-121 | A row being sent when the process dies keeps the sends it had, for good; if its text was out, that send is lost to the table |
| OutboxTheorems.DeliveredUnlessPutBack | src/core/outbox/processor.ts:109-136 | Wherever the settlement of a confirmed message ends or dies, the row is delivered if and only if its callback returned or the process died before putting it back or failing it; else, and only then, its text is lost, and no day's count changes |
| OutboxTheorems.DeliveredOnce | src/core/outbox/processor.ts:116-120 | Over every run a row is delivered if and only if one settlement delivered it, and no row is delivered by two |
| OutboxTheorems.ThrownYetDelivered | src/core/outbox/processor.ts:116-124 | A run in which the callback throws, the process dies before the row is put back, and the row stays delivered with its text not lost |
| OutboxTheorems.RecipientCount | src/core/outbox/processor.ts:109-121 | Over every run what the recipient gets on a local day is what arrived or is under way, which never passes the cap, plus one text for each event that lost one; so the cap holds for the recipient if and only if those events are no more than the room left |
| OutboxTheorems.SendsOfMessage | src/core/outbox/processor.ts:116-120 | Over every run a message went out once for each event that lost it, plus once if it arrived or is under way; so it went out twice if and only if two events lost it, or one did and it arrived or is under way |
| OutboxTheorems.LossesOfMessage | src/core/channel/whatsapp-evolution/evolution-client.ts:42-53 | Over every run the lost sends of a message are as many as the events that lose it: a callback that throws with the row then put back or failed, a reply that fails or a crash with the text out |
| OutboxTheorems.LossesOfDay | src/core/outbox/processor.ts:109-137 | Over every run the proactive texts lost of those that went out on a local day are as many as the events that lost one of them |
| OutboxTheorems.ReachedIsDelivered | src/core/outbox/outbox-repository.ts:66-74 | With every text answered and stamped on the day it went out, what arrived is what the table counts |
| OutboxTheorems.RecipientSeesAtMostCap | src/core/outbox/processor.ts:75-121 | In a run with no event that loses a text no message goes out twice and the recipient gets at most the cap of proactive texts a day |
| OutboxTheorems.LostSendGoesTwice | src/core/outbox/processor.ts:116-137 | Runs with a cap of one in which a throwing callback, or a reply that fails once the text is out, sends the same message twice |
| OutboxTheorems.CrashedSendPassesCap | src/core/outbox/processor.ts:103-117 | A run with a cap of one in which a crash while a text is out lets a second one go out the same day, with one counted |
| OutboxProcessing.OutboxRepository.ClaimForSending | src/core/outbox/outbox-repository.ts:106-111 | Succeeds if and only if the row is still pending, and changes that row's status alone |
| OutboxProcessing.OutboxProcessor.ProcessPending | src/core/outbox/processor.ts:58-73 | A pass is a run of the machine; refused while one is running, else every message ready at the start gets exactly one turn and the flag is released |
| OutboxProcessing.OutboxProcessor.ProcessOne | src/core/outbox/processor.ts:75-121 | One turn is a run of the machine with anything outside interleaved in its awaits; it sends the message if and only if its row is pending and it is not a proactive one on a full day |
| OutboxProcessing.OutboxProcessor.SendAndSettle | src/core/outbox/processor.ts:109-121 | The `try` and `catch` are a run of the machine, for every outcome of send and callback, with anything outside interleaved in their awaits; after each statement the table is what the machine says a crash there leaves |
| OutboxProcessing.OutboxProcessor.HandleSendFailure | src/core/outbox/processor.ts:123-137 | Counts from the attempts the pass read, then sets the retry time, or fails the row and awaits the alert: a run of the machine that starts with the failed reply, each statement leaving the table of a crash right after it |
| ChainInvariants.CommandKeeps | src/modules/tasks/item-service.ts:94-161 | Every command keeps: one active event per item, its start the item's date, pending chain reminders only of active events, unique capture positions and Google ids |
| ChainInvariants.CancelChainKeeps | src/modules/chains/chain-service.ts:86-100 | Cancelling an active event with its pending reminders keeps the store consistent |
| ChainInvariants.AddAppointmentKeeps | src/modules/chains/chain-service.ts:48-77 | Adding an event with its chain keeps the store consistent when its item is due at its start and has no active event |
| ChainInvariants.RescheduledKeeps | src/modules/chains/chain-service.ts:108-124 | Moving the date and replacing the chain keeps the store consistent |
| ChainTheorems.RescheduleReplacesChain | src/modules/chains/chain-service.ts:86-124 | Rescheduling refines "replace the chain": pending reminders are exactly the expansion for the new date, old pending ones change status alone, other items' chains and all other rows are untouched, no row is deleted |
| CommandOutcomes.RefusedIff | src/modules/tasks/domain/item.ts:44-65 | Completing, archiving, dropping and moving are refused if and only if the item is unknown or done, archived or dropped, and then change nothing |
| CommandOutcomes.StatusChanges | src/modules/tasks/item-service.ts:94-124 | Completing and archiving change the status of the item and nothing else; a move to no date changes nothing |
| CommandOutcomes.DropLeaves | src/modules/tasks/item-service.ts:106-112 | A drop changes the status of the item, cancels its active event and exactly the pending reminders of that event, and nothing else |
| CommandOutcomes.MoveLeaves | src/modules/chains/chain-service.ts:108-124 | A move postpones the item once more; its active event is cancelled with its pending reminders and replaced by one with the new start and no Google id, with one pending reminder for each stage of the new chain; nothing else changes |
| CommandOutcomes.CaptureLeaves | src/modules/capture/capture-service.ts:89-123 | A captured position becomes one item with its fields; a dated appointment comes with its event and every reminder of its chain, any other dated item with one reminder at its date |
| CommandOutcomes.CaptureRefused | src/modules/tasks/migrations/003_tasks_items_source_item_index.ts:19-20 | A position already recorded is refused and nothing changes |
| CommandOutcomes.SyncLeaves | src/modules/integrations/google-calendar/google-calendar-service.ts:352-384 | A sync adds the item, the event and every reminder of its chain, field by field, if the event has a start and its id is on no row, and changes nothing otherwise |
| CommandOutcomes.BrainLeaves | src/modules/integrations/google-calendar/google-calendar-service.ts:278-339 | The brain's call does the same under its message, unless the first item of the message has an active event with a Google id; a known id is refused |
| CommandOutcomes.GcalIdLeaves | src/modules/tasks/migrations/006_tasks_events_gcal_id_unique.ts:18-21 | A Google id is written to its event alone, unless another event has it |
| StoreChanges.ChangeSound | src/modules/chains/chain-service.ts:86-124 | Every change of the store, a drop or a move cut short at any statement and the scheduler's work included, keeps at most one active event per item, every event of a known item, and capture positions and Google ids unique |
| TornCommands.TornIff | src/modules/chains/chain-service.ts:86-124 | Whichever statement of a drop or a move a crash falls at, cancelled in part or chained in part included, the store left is consistent if and only if no reminder of a cancelled event is pending and no event starts off its item's date |
| TornCommands.TornLeaves | src/modules/tasks/item-service.ts:106-161 | What a tear leaves of the appointment: its old event, none, or the new one with the first of its reminders and no flag, all of them if and only if the last insert was reached |
| TornCommands.RefusedIsNotTorn | src/modules/tasks/domain/item.ts:44-65 | A drop or a move of an unknown or closed item is refused before its first statement, so a crash in it changes nothing |
| ChainTheorems.SyncAllOrNothing | src/modules/integrations/google-calendar/google-calendar-service.ts:352-384 | A sync adds one item, one active event and its chain if the event has a start and its id was never seen, else changes nothing at all |
| ChainTheorems.SyncIdempotent | src/modules/integrations/google-calendar/google-calendar-service.ts:352-384 | Syncing the same event again, under any settings, changes nothing |
| ChainTheorems.DroppedNeverResynced | src/modules/tasks/migrations/006_tasks_events_gcal_id_unique.ts:18-21 | An event whose appointment was dropped is never brought back by a sync, against the comment on `findByGcalId` |
| BrainRetries.BrainGuardIff | src/modules/integrations/google-calendar/google-calendar-service.ts:278-339 | A tool call changes nothing if and only if the message already has its event or the Google id was ever seen |
| BrainRetries.BrainRetryIff | src/modules/integrations/google-calendar/google-calendar-service.ts:278-339 | Over any changes after the first call, crashes inside commands included, its event is active if and only if no accepted drop or move of its item got to cancelling it; a retry changes nothing if and only if that holds, or the replacing event was given a Google id, or the id it brings is known; else it creates a second appointment |
| BrainRetries.BrainRetryIsNoop | src/modules/integrations/google-calendar/google-calendar-service.ts:278-339 | The first tool call of a message creates its appointment; repeating it then changes nothing |
| BrainRetries.MovedOrDroppedIsForgotten | src/modules/integrations/google-calendar/google-calendar-service.ts:331-339 | Once that appointment is moved or dropped, the guard no longer recognises it |
| Capture.ExactlyOnce | src/modules/capture/capture-service.ts:86-140 | After any attempts stopped anywhere, with any commands, crashes inside them and scheduler work in between, one complete attempt leaves exactly one item per position |
| Capture.AttemptRecords | src/modules/capture/capture-service.ts:125-137 | No insert of an attempt is refused, rows already there are kept, and each position gone through ends up recorded |
| Capture.NothingHalfCaptured | src/modules/capture/capture-service.ts:89-123 | At every crash point of any series of attempts, each dated item has its event and whole chain, or its single reminder |
| TaskServices.ChainService.ScheduleForEvent | src/modules/chains/chain-service.ts:48-77 | The loop inserts exactly the chain of the event and then sets its flag |
| TaskServices.ChainService.CancelPendingJobsForEvent | src/modules/chains/chain-service.ts:86-93 | The loop cancels exactly the pending reminders of the event |
| TaskServices.ChainService.OnItemDropped | src/modules/chains/chain-service.ts:96-100 | Cancels the active event and its chain, or nothing if the item has none |
| TaskServices.ChainService.OnItemRescheduled | src/modules/chains/chain-service.ts:108-124 | Replaces the chain as `RescheduleReplacesChain` states, or nothing if the item has no event |
| TaskServices.ItemService.Complete | src/modules/tasks/item-service.ts:94-98 | The whole new state and the error are those of the command specification |
| TaskServices.ItemService.Drop | src/modules/tasks/item-service.ts:106-112 | The same, with the chain cancelled through the bus |
| TaskServices.ItemService.Archive | src/modules/tasks/item-service.ts:120-124 | The same |
| TaskServices.ItemService.Snooze | src/modules/tasks/item-service.ts:133-161 | The same, with the chain replaced; a text without a date changes nothing |
| TaskServices.GoogleCalendarService.SyncEvent | src/modules/integrations/google-calendar/google-calendar-service.ts:352-384 | The transaction, its rollback on a duplicate id included, is the sync specification |
| TaskServices.GoogleCalendarService.CreateEventFromBrain | src/modules/integrations/google-calendar/google-calendar-service.ts:278-321 | The store half of the tool call is the command specification, refusal on a duplicate id included |
| TaskServices.CaptureService.CaptureOneItem | src/modules/capture/capture-service.ts:89-123 | One position is the capture specification: item with event and chain, or item with one reminder, or item alone |
| TaskServices.CaptureService.CaptureItems | src/modules/capture/capture-service.ts:86-140 | A complete attempt captures exactly the positions still owing, in order, each under the settings of its moment, returns their ids, and leaves one item per position, whatever commands and scheduler work run in its awaits |
| SchedulerTheorems.StoreConsistentIff | src/core/scheduler/scheduler.ts:44-92 | The store is consistent all along a run of commands, overlapping ticks, crashes and boots if and only if no crash inside a drop or a move fell at a harmful statement |
| SchedulerSafety.SchedulerMakesProgress | src/core/scheduler/job-repository.ts:78-120 | What ticks and seeds do to the store is progress of its jobs: no row changes its kind, payload or recurrence, and no chain reminder is reopened or moved |
| SchedulerSafety.StepIsChange | src/core/scheduler/scheduler.ts:44-92 | Every step of the scheduler machine is one of the store changes that the capture and retry theorems range over: a command, a crash inside one, or progress of the jobs |
| SchedulerTheorems.RecurrenceNeverLost | src/core/scheduler/scheduler.ts:65-92 | A recurring row is always pending or in a running handler unless a crash caught it there; without crashes, pending whenever no tick is running |
| SchedulerTheorems.RescheduledAfterRun | src/core/scheduler/job-repository.ts:112-120 | Over every run: when a recurring job's handler ends, well or badly, the row is pending again, in the future if and only if its interval is positive, the tick goes on, and the row stays so until it runs again |
| SchedulerTheorems.AbortLeavesTheRest | src/core/scheduler/scheduler.ts:75-91 | Over every run without overlapping ticks: a failing one-shot job ends its tick, the jobs not reached are untouched and still due unless cancelled meanwhile, and the next tick takes just those still due |
| SchedulerTheorems.NeverTwoPending | src/infra-ops/job-scheduling.ts:8-17 | At no point of any run are two rows of a seeded type pending |
| SchedulerTheorems.SeededExactlyOnce | src/modules/rituals/job-scheduling.ts:29-44 | Right after its seed at boot a type has exactly one pending row, whatever crashes came before |
| OneShots.OneShotRunsOnceIff | src/core/scheduler/scheduler.ts:44-66 | A one-shot job runs at most once, along the run and from each of its points, if and only if no tick of the run starts while the job is due and another holds it |
| OneShots.OneShotRunsOnce | src/core/scheduler/scheduler.ts:44-66 | If ticks do not overlap, every one-shot job runs at most once ever, across crashes and restarts |
| OneShots.OverlapShares | src/core/scheduler/scheduler.ts:100-106 | A tick that starts during another reads every due job the other holds |
| OneShots.SharedJobRunsTwice | src/core/scheduler/scheduler.ts:55-69 | Two ticks that hold a job, anywhere in what they have to go, get to run it twice with no further tick started |
| OneShots.ReminderRunsTwice | src/core/scheduler/scheduler.ts:44-69 | A run from the empty store in which a captured reminder runs twice |
| OneShots.CancelledRunsIff | src/core/scheduler/scheduler.ts:44-69 | After any run a cancelled job can still run if and only if a tick in progress has read it and not started it |
| OneShots.QuietForever | src/core/scheduler/job-repository.ts:98-103 | A cancelled job that no tick holds stays cancelled and never runs again, whatever follows |
| OneShots.HeldJobRuns | src/core/scheduler/scheduler.ts:48-65 | A tick that holds a job gets to run it, with no other tick disturbed |
| OneShots.CancelledAlertRuns | src/core/scheduler/scheduler.ts:55-69 | A run from the empty store in which the alert of a dropped appointment still runs |
| SchedulerSafety.DueContents | src/core/scheduler/domain/due-jobs.ts:14-22 | In whatever order the query returns the pending jobs, a tick takes exactly those pending, not delivered and whose time is not after now, each once |
| DueStarts.StartWasDue | src/core/scheduler/scheduler.ts:44-63 | Over every run a handler starts only from a tick that, when it started, read the job pending, not delivered and with its time come |
| DueStarts.OneShotNeverEarly | src/core/scheduler/domain/due-jobs.ts:14-18 | Over every run a one-shot job whose handler has started has its time come |
| DueStarts.JobEndLeaves | src/core/scheduler/scheduler.ts:68-91 | When a handler ends, well or badly, a recurring row is pending for the next occurrence of its rule from now, with no attempts; a one-shot row keeps `running`, with one attempt more if it failed; no other row changes |
| Scheduling.Scheduler.TickOnce | src/core/scheduler/scheduler.ts:44-53 | A tick is a run of the machine that takes up each job pending, not delivered and with its time come, once, in the order the query gave, and stamps the clock, unless a one-shot failure aborts it |
| Scheduling.Scheduler.RunJob | src/core/scheduler/scheduler.ts:55-92 | One job is a run of the machine, its handler's await open to anything; it aborts the tick only for a failed one-shot job |
| Scheduling.Scheduler.EnsureRecurringJob | src/infra-ops/job-scheduling.ts:8-17 | Leaves exactly one pending row of the type, first due one interval from now if it was inserted |
| Scheduling.Scheduler.EnsureDailyRitualJob | src/modules/rituals/job-scheduling.ts:29-44 | Leaves exactly one pending row of the type, first due at the next daily run if it was inserted |
| InboxTheorems.HandledOnce | src/core/channel/message-repository.ts:68-89 | Over every run, redeliveries included, a message has one row and is handled at most once more than crashes cut its handling short, never twice at a time |
| InboxTheorems.SettledForever | src/core/channel/message-repository.ts:160-166 | A processed or failed message is never touched or handled again |
| InboxTheorems.WebhookLeaves | src/core/channel/whatsapp-evolution/webhook-route.ts:194-260 | A webhook records a message if and only if its id is there and new, stamped with the second; it is processed at once if it has no handler, else its handler starts |
| InboxTheorems.EndingLeaves | src/core/channel/whatsapp-evolution/pending-recovery.ts:64-113 | A handler that ends settles its message alone: processed when it returns, or in a sweep when the audio is gone, else failed |
| InboxTheorems.SweepTakesOldest | src/core/channel/whatsapp-evolution/pending-recovery.ts:43-57 | A sweep takes exactly the oldest pending messages that have reached the threshold, up to its quota |
| InboxTheorems.BacklogDrains | src/core/channel/whatsapp-evolution/pending-recovery.ts:37-83 | Oldest first: for every instant, the messages pending from before it shrink by the quota with each completed boot, so n are settled by n over the quota boots, rounded up, whatever crashes, arrivals and failures happen in between |
| InboxTheorems.SweepReaches | src/core/channel/whatsapp-evolution/pending-recovery.ts:53-57 | For every instant, a sweep leaves out at most the messages pending from before it less the quota, in whatever order those of one second are listed |
| InboxRecovery.MessageRepository.TryRecordInbound | src/core/channel/message-repository.ts:68-89 | Refused if and only if the id is missing or already known, and then nothing changes |
| InboxRecovery.PendingRecovery.RecoverPendingMessages | src/core/channel/whatsapp-evolution/pending-recovery.ts:37-83 | A sweep is a run of the machine; a pending message stays so if and only if it is not among the oldest that reached the threshold, up to the quota |
| InboxRecovery.PendingRecovery.RecoverOne | src/core/channel/whatsapp-evolution/pending-recovery.ts:64-113 | One message is processed or failed by what it carries and how its handler ends, and no other changes |
| Priorities.SelectionIgnoresOrder | src/modules/tasks/domain/priority-selection.ts:28-42 | The selection is the same for any permutation of the items |
| Priorities.SelectionIsTop | src/modules/tasks/domain/priority-selection.ts:22-42 | An item is left out only for items due earlier, or of the same date with a smaller priority number, 3 for none, or the same and a smaller id; undated items come last |
| Priorities.SelectionFits | src/modules/nudges/domain/eligibility.ts:28-51 | What is selected is eligible, fits the room left today and holds no item twice |
| Priorities.SelectionTakesFirst | src/modules/nudges/domain/eligibility.ts:42-51 | The selection takes as many items that may be charged as there is room for, in listing order, each at the place that counts those before it |
| MenuSafety.ActiveItemsListed | src/modules/tasks/items-repository.ts:133-149 | The active items can be listed each once, nearest date first and undated last, which is all a check relies on |
| MenuSafety.ListingContents | src/modules/tasks/items-repository.ts:133-149 | A listing holds exactly the items active, in progress or postponed, each once with its priority and date, earlier dates first and undated last |
| MenuSafety.TopsIgnoreListing | src/modules/nudges/nudge-service.ts:80-86 | The top priorities are the same for every order the query leaves open |
| MenuSafety.SendChargesExactly | src/modules/nudges/nudge-service.ts:122-139 | A check charges as many eligible items, in order, as the global cap has room for: one charge, one message and one menu each, and nothing else changes |
| MenuSafety.CheckChargesInOrder | src/modules/nudges/nudge-service.ts:75-140 | A check charges the listed items that are overdue or a top priority and not charged today, in listing order, as many as both caps leave room for and none in return mode: one charge, one message, one menu each, and nothing else changes |
| MenuSafety.ResponsePopsSameItem | src/modules/nudges/nudge-service.ts:173-184 | Popping the newest menu and the newest charge separately pops the same item and keeps the stacks aligned |
| MenuTheorems.StacksStayAligned | src/core/menu/pending-menu-repository.ts:45-54 | Over every run, crashes included, the items of unresolved charge menus are, in order, the items of charges without a response if and only if no crash fell between a charge and its menu or between the two pops of a response; each such crash puts the charges one further ahead |
| MenuTheorems.DailyChargesCapped | src/modules/nudges/charges-repository.ts:40-53 | Over every run with a constant cap, crashes inside a check included, no local day has more charges than the cap and no item is charged twice a day |
| MenuTheorems.DayKeyIsLocalDay | src/modules/nudges/nudge-service.ts:38-41 | The date keys tell local days apart, and only local days |
| MenuTheorems.CheckRespectsGlobalCap | src/modules/nudges/nudge-service.ts:119-139 | A check adds as many messages and menus as charges, never past the global cap, and nothing in return mode |
| MenuTheorems.ChargesAreDue | src/modules/nudges/nudge-service.ts:80-105 | Each new charge is of an active item, overdue or a top priority, not charged before that day |
| MenuTheorems.ExactlyOneCommandMatches | src/modules/nudges/commands.ts:30-33 | A message matches one of the nine commands if and only if it is a bare 1, 2 or 3 and some menu is unresolved, and then exactly one |
| MenuTheorems.CommandOrderIrrelevant | src/modules/rituals/commands.ts:29-38 | In whatever order the commands are registered an answer has the same effect |
| MenuTheorems.AnswerActsOnNewest | src/modules/nudges/commands.ts:33-67 | Over every run an answer resolves exactly the newest menu, touches no other item, never asks an invalid transition, records the local weekday and hour of an answered charge, and marks the newest charge responded, which is the one of that item as long as no crash has torn the stacks |
| MenuTheorems.AnswerOutcome | src/modules/hygiene/commands.ts:34-63 | Over every run whose store is consistent an answer about a closed item changes nothing in the store; otherwise the option does what its label says, with the appointment following its item and a rescheduled charge moving to the next instant in the habitual window of the last ten responses |
| MenuTheorems.TornNudge | src/modules/nudges/nudge-service.ts:132-138 | A crash inside the three inserts of a nudge leaves the stacks aligned if and only if it falls before the first or after the last |
| MenuTheorems.TornResponse | src/modules/nudges/nudge-service.ts:173-184 | A crash inside the three updates of a response leaves the stacks aligned if and only if it does not fall between the menu and the charge |
| NudgeServices.NudgeService.CheckAndSendDue | src/modules/nudges/nudge-service.ts:75-140 | The loop with its `break` charges the items `CheckChargesInOrder` says, in that order and no others, for an order of the active items the query allows |
| NudgeServices.NudgeService.RecordResponse | src/modules/nudges/nudge-service.ts:173-184 | Pops both stacks and records the response window, on all tables |
| NudgeServices.NudgeService.ApplyReschedule | src/modules/nudges/nudge-service.ts:191-205 | Snoozes the item to the least later instant in the habitual window of the last ten responses, or to the fallback |
| NudgeServices.NudgeService.HandleCharge | src/modules/nudges/commands.ts:33-67 | The handler is the answer specification for charges |
| NudgeServices.NudgeService.HandleReview | src/modules/rituals/commands.ts:38-68 | The handler, which resolves the menu first, is the answer specification for the review |
| NudgeServices.NudgeService.HandleHygiene | src/modules/hygiene/commands.ts:34-63 | The handler, which resolves the menu first, is the answer specification for hygiene |
| CostMonitor.DetectCacheRegression | src/infra-ops/domain/cost-monitor.ts:113-136 | True if and only if the Sonnet calls contain as many consecutive ones as the threshold, all without cache reads and each close enough to the one before |
| CostMonitor.SonnetCallsAre | src/infra-ops/domain/cost-monitor.ts:117-118 | The Sonnet calls are the rows of any intent but triage, each once and in order |
| BrainLoop.RunBrainLoop | src/core/llm/brain-loop.ts:96-137 | At most six requests forming a paired transcript, each tool use answered in order by a result with its id and its own handler's output; the handlers run are exactly those the answers called for; the three ways it can end |
| BrainLoop.ResolveToolCall | src/core/llm/brain-loop.ts:139-170 | A handler runs only for a registered name and accepted input; every other call gets its error, and only a request error escapes |
| BrainLoop.RequestLength | src/core/llm/brain-loop.ts:128-132 | Request i is the original messages followed by i pairs of an assistant and a user message |
| BrainLoop.OnlyValidInvocations | src/core/llm/brain-loop.ts:145-158 | Every handler run is licensed by a call that names a registered tool and whose input its schema accepts |
| BrainLoop.LastToolWins | src/core/llm/brain-loop.ts:97-97 | A name finds the last tool registered under it, and none if there is none |
| BrainLoop.AssistantTurn | src/core/llm/brain-loop.ts:118-121 | The assistant's turn is its text, if not empty, then its tool uses as asked, in order |

## Left out

- Network, HTTP routes, WhatsApp, LLM, Google and mail clients, OAuth, token encryption, logging, settings storage: their outcomes are nondeterministic or parameters.
- SQL text, JSON and ISO strings: tables are sequences of typed rows with ids as positions, instants are integers in milliseconds; string comparison of instants and `datetime()` rounding to the second (day starts are whole seconds, so counts agree) become comparison of numbers.
- Serialising recurrences to text and back: the rule is stored as itself.
- Columns with no effect on the logic: message bodies, JIDs, job ids, origins, labels, updated timestamps, and the creation times of items and events (an item has one active event, and items of the same date may be listed in any order).
- Time zones: `Intl` is the fixed offset of -03:00 the source assumes since 2019, on the proleptic calendar; the limits of `Date`, and the shift `Date.UTC` applies to years 0 to 99, are not modelled.
- The clock never goes backwards in a run, and caps are constant over a run.
- The length of the delay before a proactive send: any amount of time may pass.
- An alert that throws ends the outbox pass in the same state as a crash, which the run theorems cover; the class `OutboxProcessor` assumes alerts return.
- The text matching of relative dates and the range check on dates the brain proposes: the parsed date, or none, is an input.
- The remote call inside the brain's tool: the model starts once it has returned, so the check for an existing event and the transaction are one step (two handlers of one message never overlap, by `HandledOnce`).
- Other code between the awaits of a menu answer or of one task command: a command is one step there. A crash inside one is a step of its own.
- Return-mode evaluation, the choice of items for review, hygiene and briefing, and their messages: the flag and the items asked about are inputs.
- Trimming a message before matching: the text is given trimmed.
- Audio handlers are taken as configured, as the application does; transcription and its recording are part of the handler's outcome.
- Cost amounts, monthly projection, disk and health checks: floating-point or one-branch code.
- Completing or archiving an item does not cancel its reminders in the source, and nothing is claimed about it.
- Capture.NothingHalfCaptured: speaks of runs of capture attempts alone, since other commands may legitimately drop or move the items.
- InboxTheorems.BacklogDrains: messages younger than the threshold at a boot wait for a later one, as in the source.
- OutboxTheorems.RecipientCount: a text goes out at most once for each attempt; what the gateway does with it afterwards is outside.
