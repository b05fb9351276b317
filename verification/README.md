# Durable delivery, durable work and recurring events, verified

This project models the parts of the repository that must stay right when processes
crash, providers give no answer and clocks move on, and proves what they promise for
every input and every run.

* **Durable email delivery** (`durable_email/`). `EmailStore` has the request and
  progress tables and the effect of every statement on them; `EmailEvents` folds delivery
  events; `EmailHandlers` has what each handler asks Cellar to do; `EmailProtocol` puts
  them together as a transition system in which any enabled action may happen next:
  a read, a stamp, a provider call or an applied result of Setup, Recovery, Post, the
  recovery fanout and Verify, a webhook, a crash, the recovery of submissions, a restart,
  the passing of time. A trace records what the provider saw. `EmailInvariant`,
  `EmailSteps`, `EmailSending` and `EmailApplying` prove that every action keeps one
  invariant over rows, cells, workers and trace; `EmailTheorems` and `EmailHistory` read
  the guarantees off it. `EmailOutcomes` says field by field what each applied answer
  does to the rows, `EmailEndings` when a Send sequence moves on and ends, and
  `EmailProvenance` where stored provider identifiers come from. `EmailWitness` exhibits
  a run with a failed submission, a recovery, a verification and a second submission, so
  they are not about nothing.
* **The Cellar runtime** (`cellar/`). `Cells` gives the abstract effect of every store
  operation; `MemoryStore` (a map and an order slice) and `SqliteStore` (a table, with
  transactions) are classes proved to have exactly those effects; `StoreErrors` compares
  the errors of the two. `Runtime` is the
  scheduler, its capacity tokens, its dispatch goroutines and the worker as a transition
  system over all interleavings, with crashes and restarts, and `RuntimeStops` says when
  the scheduler stops and with what. `Fanout` and `Timer` are the two kinds of cells
  built on top.
* **Recurring event dates** (`firebase_sub/.../event_recurrence.py`). `Calendar` is the
  Gregorian calendar; `Recurrence` says what it means for a date to fit a rule;
  `OccurrenceSearch` has the bounded search loops; `OccurrenceWindow`, `FifthWeekday` and
  `MonthlyWindow` say when their bounds are too short; `RollForward` has the materialised
  next date and its repeated application.
* **Queue runner, scheduled housekeeping and profile migration** (`firebase_sub/`).
  `Agenda` is the priority queue behind both runners; `QueueRunner` and `QueueRuns` are
  the event loop and its runs; `ScheduledRunner` the time-triggered plugins;
  `ProfileMigration` the planner, the merge that applies its plan and the audit.

`dafny verify dfyconfig.toml` verifies the whole project.

## Assumptions

* A new Send sequence is submitted for a token only when none is live for it; the code
  does not lock Post per token.
* After a crash, submissions are recovered before workers start, and no worker of the
  crashed process is still running.
* Database transactions are atomic, and the clock never goes back.
* Provider answers, policy decisions, handler results, generated ids and clock readings
  are arbitrary: they are parameters of the actions.

## What the proofs found

* The two stores reject the same batches but can name different errors, because the
  SQLite store looks at handler names only when it inserts. The errors differ exactly when
  an unnamed handler is the first thing wrong for the reference store and, for the other,
  the allocator fails at it or later with no request without steps up to there, or every
  request has steps and an id and an earlier one's id is taken or repeated
  (`StoreErrors.ErrorsDifferIff`, with `SqliteStore.ErrorsCanDiffer` as an example).
* The two stores test for the end of a sequence on different copies of the cell: the row
  and what the caller passes back. They do the same exactly when the two copies agree on
  whether the step is the last (`SqliteStore.SameTransition`).
* A handler answer outside the result kinds (a nil result, or one given by address)
  leaves its cell claimed without any failed dispatch, so the cells still claimed after
  the scheduler returns are those whose last dispatch failed or was answered that way
  (`Runtime.UnrecognisedLeavesClaimed`, `Runtime.ClaimedAfterReturn`).
* A fixed-rate timer's next deadline is the next tick exactly while that tick is within
  the largest 64-bit duration of the previous deadline; beyond it the product wraps and
  the deadline moves before the previous one (`Timer.NextDeadlineCorrect`). Over a whole
  history the deadlines keep to the grid and increase exactly when every firing is in
  range (`Timer.DeadlinesOnGrid`).
* The search for a yearly occurrence gives up after 40 years. It finds every rule that
  any year can meet, leap days included, except the fifth weekday of February asked for
  after this year's, with a common century 12 to 28 years ahead: then the next one is 40
  years away (`OccurrenceWindow.YearlyWindow`; the fifth Monday of February is missed from
  March 2072 on, `OccurrenceWindow.FebruaryGapExample`).
* The search for a monthly occurrence gives up after 240 months. It misses an existing
  date exactly when this month's is past and the first month, k intervals ahead, that has
  the day lies 240 months ahead or more (`MonthlyWindow.MissedIff`). For days 1 to 28 and
  the first four or the last weekday that means an interval of 240 or more; day 30 is
  missed from 121 on, day 31 from 53 on, day 29 from 36 on and the fifth weekday from 12
  on, and every shorter interval is safe (`MonthlyWindow.MonthlyEarly`,
  `MonthlyWindow.MonthlyThirtieth`, `MonthlyWindow.ThirtyFirstSafe`,
  `MonthlyWindow.TwentyNinthSafe`, `MonthlyWindow.FifthSafe` and their examples).
* The nth-weekday test compares months but not years. It is right exactly unless the
  candidate lands in the same month of a later year, which needs an nth above 52
  (`Recurrence.NthWeekdayCorrect`, `Recurrence.SmallNthStays`, `Recurrence.LargeNthLands`).
  The search is therefore wrong exactly when a month of its window lands that way
  (`OccurrenceSearch.FoundIsNextIff`).
* Rolling forward is documented to wait until a week is completed, but the test compares
  today with the start of the occurrence's own week and so never holds a past date back
  (`RollForward.WeekHasBegun`): a date is replaced too early exactly on the days after it
  in its own week (`RollForward.ReplacedEarly`). Yearly rules ignore their interval, and every negative nth
  means the last such weekday.
* 1025 consecutive retryable failures of one key stop the queue runner, because the power
  of two no longer converts to a float (`QueueRuns.StopsExactly`).
* Two rounds of profile migration leave a public field missing in one case although the
  first plan skips nothing: a private `customPhotoUrl` of an unexpected type beside a
  public `False` (`ProfileMigration.MigrationSettles`, `ProfileMigration.UnsettledExample`).

## Model

| member | source | states |
|---|---|---|
| EmailTheorems.NoBlindResend | durable_email/send.go:215-293 | In every run, between two submissions of one recipient lies a verification of that recipient that answered "not found" |
| EmailTheorems.VerifiedLateEnough | durable_email/send.go:144-204 | In every run, a verification is asked at least VerifyDelay after the recorded submission time it carries, and that time is not before any earlier stamping of the recipient |
| EmailTheorems.BestEffortSentOnce | durable_email/send.go:297-324 | Once a best-effort acceptance commits, its recipients appear in at most one later submission, the best-effort one of exactly that batch |
| EmailTheorems.OneMessageId | durable_email/store.go:402-423 | Every submission and every verification of a token shows the provider the same message id, whatever ids re-run Setups generate |
| EmailTheorems.RowsStayConsistent | durable_email/store.go:455-610 | In every reachable state: recovery rows have a submission time; pending and recovery rows have no provider id; a token never has both recovery states, nor either beside a stamped pending row |
| EmailHistory.HistoryIsKept | durable_email/store.go:560-610 | Over any run a written provider id never changes, a recipient once accepted or later never returns to pending or recovery, and stored requests, recipients and owners stay |
| EmailHistory.SetupNeverConflicts | durable_email/store.go:275-391 | Setup re-run at any later point with any fresh message id succeeds and changes nothing |
| EmailWitness.ResendHappens | durable_email/send.go:129-388 | Some run does submit a recipient twice: after a failed Send, recovery, the delay, a fanout and a verification that found nothing |
| EmailApplying.RunKeepsInv | durable_email/send.go:129-388 | Every run keeps the joint invariant of rows, cells, workers and trace |
| EmailApplying.ActionKeepsInv | durable_email/send.go:129-388 | Each single action, at any moment, keeps that invariant |
| EmailApplying.ResultKeepsInv | durable_email/store.go:560-610 | Applying any handler's result, with its application work and new cells in one transaction, keeps the invariant |
| EmailSending.MarkKeepsInv | durable_email/store.go:481-493 | Stamping the pending rows before the provider call keeps the invariant |
| EmailSending.SendKeepsInv | durable_email/send.go:277-284 | Sending to the provider keeps the invariant, so the trace stays lawful |
| EmailSending.AcceptNowKeepsInv | durable_email/send.go:297-300 | Committing a best-effort acceptance keeps the invariant |
| EmailSending.AskKeepsInv | durable_email/send.go:359-388 | Asking the verifier keeps the invariant |
| EmailSteps.RecoverAllKeepsInv | durable_email/store.go:160-166 | Recovering submissions after a crash turns exactly the stamped pending rows into recovery rows and keeps the invariant |
| EmailSteps.CandidatesFit | durable_email/send.go:144-170 | A recovery candidate excludes a live fanout of its token and any waiting or pending row beside it |
| EmailSteps.ExpansionFits | durable_email/send.go:183-204 | When a fanout expands, no verify cell of a waiting recipient is live |
| EmailEvents.FoldNeverLowers | durable_email/store.go:215-252 | No sequence of delivery events lowers a recipient's progress, and terminal states stay |
| EmailEvents.FoldIsStrongest | durable_email/store.go:215-252 | Without hard bounces the final state is the stronger of the initial state and the strongest event |
| EmailEvents.FoldDependsOnSet | durable_email/store.go:215-252 | Without hard bounces the final state depends only on the set of events |
| EmailEvents.BounceWinsIffFirst | durable_email/store.go:215-252 | From an undelivered, non-terminal state the recipient ends hard bounced exactly when a hard bounce precedes every proof of arrival |
| EmailEvents.LateBouncesIgnored | durable_email/store.go:244-248 | From a delivered, opened, clicked or terminal state, leaving out all hard bounces changes nothing |
| EmailStore.AcceptBestEffortAllOrNothing | durable_email/store.go:455-478 | Best-effort acceptance succeeds exactly when the listed recipients are distinct, pending and unsubmitted |
| EmailStore.AcceptBestEffortContents | durable_email/store.go:455-478 | It then accepts each listed recipient under its own synthetic id and moves no other row |
| EmailStore.InsertRowsContents | durable_email/store.go:275-391 | Storing a request adds exactly one fresh row per recipient |
| EmailStore.SetupIsIdempotent | durable_email/store.go:275-391 | After a successful Setup, the same request with another message id is accepted and changes nothing |
| EmailStore.SetupOutcome | durable_email/store.go:275-391 | A stored request is left alone exactly when content and recipients agree; a new one is stored with one fresh row per recipient and its owners; the remaining cases fail with their own error and change nothing |
| EmailStore.SuppressedIdsDiffer | durable_email/store.go:462-466 | Synthetic identifiers are equal only for the same message and position |
| EmailStore.Store.RecoverAll | durable_email/store.go:160-166 | No row is added or lost, a row goes to recovery exactly when it was pending with a submission time and keeps everything else, and every other row is as before |
| EmailStore.Store.Record | durable_email/store.go:169-204 | The row addressed by message id and recipient advances by the event in its state alone, every other row, request and owner stays, and the event is appended; with no such row nothing changes |
| EmailOutcomes.StateFollowsEvents | durable_email/store.go:169-252 | Over any run in which only webhooks change a row, its state is the fold of its first state over the events recorded for it, and events are only appended |
| EmailOutcomes.SettledFollowsEvents | durable_email/store.go:169-252 | In any run, from its acceptance on, a recipient's state is that fold, whatever workers, crashes and restarts do |
| EmailStore.Store.ListByState | durable_email/store.go:426-453 | Lists exactly the recipients in the state, each once, in recipient order |
| EmailStore.Store.HasUnresolved | durable_email/store.go:551-558 | True exactly when some row of the token awaits verification |
| EmailStore.Store.Mark | durable_email/store.go:481-493 | No row is added or lost, the pending rows of the token get the submission time and keep everything else, and every other row is as before |
| EmailStore.StampSurvivesCrash | durable_email/store.go:160-166 | Stamping and then recovering turns exactly the rows pending for the token, and rows stamped before, into recovery rows with their submission times; recovering again changes nothing |
| EmailStore.Store.AcceptAll | durable_email/store.go:455-478 | The loop over the batch commits the specified rows or leaves the table alone |
| EmailStore.Store.Insert | durable_email/store.go:275-391 | Stores a new request, accepts an identical stored one, and otherwise reports the conflict without a change |
| EmailStore.Store.CompareRecipients | durable_email/store.go:326-357 | Comparing row by row and counting decides whether the stored recipients are exactly the request's |
| EmailHandlers.LatestDeadline | durable_email/send.go:149-155 | The loop finds the latest verification deadline: an upper bound that some candidate attains |
| EmailHandlers.BuildPostResult | durable_email/send.go:277-293 | A full list of provider ids accepts each recipient under its own id; anything else sends the batch to recovery |
| EmailOutcomes.SetupApplied | durable_email/store.go:275-391 | Applying Setup's result has that outcome in the running system |
| EmailOutcomes.MarkStamps | durable_email/send.go:272-275 | Before the provider is called exactly the token's pending rows carry the time of the call |
| EmailOutcomes.AcceptNowHandles | durable_email/send.go:297-300 | Exactly the batch is accepted, each recipient under its own synthetic identifier |
| EmailOutcomes.SendAnswerStored | durable_email/store.go:582-610 | Applying a full list of ids accepts each pending recipient of the batch under its own id; one already reported keeps its state, and its id if it has one; no other row moves and none of the token is pending |
| EmailOutcomes.SendAnswerLost | durable_email/send.go:277-293 | Applying any other answer sends exactly the stamped pending rows to recovery and restarts the sequence at once |
| EmailOutcomes.VerdictStored | durable_email/send.go:359-388 | Only an answer not found, or found with an id, is applied; the waiting row becomes pending and unsubmitted or accepted under that id, a reported row keeps its state, no other row moves, and the cell is gone |
| EmailOutcomes.RecoveryScheduled | durable_email/send.go:144-170 | Exactly the recovery rows wait for verification; one new fanout cell and the sequence may run from the deadline |
| EmailOutcomes.FanoutExpanded | durable_email/send.go:183-204 | The fanout cell is replaced by one Verify cell per waiting recipient; no table changes |
| EmailOutcomes.ComesBack | durable_email/send.go:171-180 | Recovery asks to run again a second later exactly while a recipient waits; Post restarts the sequence exactly when an outcome is unknown, completes exactly when nothing is pending, and comes back after a delay |
| EmailEndings.SequenceEndsSettled | durable_email/send.go:215-293 | In every run a Send sequence ends only with every recipient of its token accepted, reported on or refused |
| EmailEndings.RecoveryPassesResolved | durable_email/send.go:139-180 | In every run Recovery passes only with no outcome of its token unknown and nothing stamped |
| EmailProvenance.EveryIdWasIssued | durable_email/store.go:455-610 | In every run each stored provider id was returned by a Send at that recipient's position, found by its verification, or is its synthetic one |
| Cells.ApplyResultEffect | cellar/pkg/cellar/memory_store.go:107-187 | Applying a result changes only the claimed cell, never its steps, and adds exactly the requested cells |
| Cells.ApplyResultAccepted | cellar/pkg/cellar/memory_store.go:107-187 | A result is applied exactly to a cell claimed at the claimed step, when its kind, delay, work and new cells allow it |
| Cells.OneStepEffect | cellar/pkg/cellar/memory_store.go:80-104 | Completing removes exactly the claimed cell and adds the additions; retrying makes exactly it ready from the given time |
| Cells.ApplyResultKeepsWellFormed | cellar/internal/sqlite/store.go:207-272 | The step index stays inside the step list, so the two end-of-sequence tests agree |
| Cells.InsertProblemNone | cellar/pkg/cellar/memory_store.go:307-338 | A batch is accepted exactly when every request is valid and no id is taken or repeated |
| MemoryStore.MemoryStore.Add | cellar/pkg/cellar/memory_store.go:34-52 | Refines the abstract addition, appends the new ids in order, and changes nothing on failure |
| MemoryStore.MemoryStore.ClaimNext | cellar/pkg/cellar/memory_store.go:55-77 | Claims the first runnable cell in order, or none exactly when none is runnable |
| MemoryStore.MemoryStore.Complete | cellar/pkg/cellar/memory_store.go:80-104 | Refines the abstract removal with additions, including the order slice; failure changes nothing |
| MemoryStore.MemoryStore.ApplyResult | cellar/pkg/cellar/memory_store.go:107-187 | Refines the abstract result application, including the order slice; failure changes nothing |
| MemoryStore.MemoryStore.Retry | cellar/pkg/cellar/memory_store.go:190-206 | Refines the abstract retry; failure changes nothing |
| MemoryStore.MemoryStore.Recover | cellar/pkg/cellar/memory_store.go:209-220 | Makes every claimed cell ready and touches nothing else |
| MemoryStore.MemoryStore.ListActive | cellar/pkg/cellar/memory_store.go:223-241 | Lists every cell once, in insertion order |
| SqliteStore.SqliteStore.Add | cellar/internal/sqlite/store.go:81-138 | Refines the same abstract addition, returns the new ids in order and dates the new rows; failure leaves the table alone and names the error the insertion meets first |
| SqliteStore.SqliteStore.ClaimNext | cellar/internal/sqlite/store.go:141-180 | Claims a runnable row no other runnable row is older than, the smallest id among equals, or none exactly when none is runnable; creation times stay |
| Basics.TextLeqDecides | cellar/internal/sqlite/store.go:155 | Ids compare by their first difference, and a prefix comes first |
| SqliteStore.SqliteStore.ApplyResult | cellar/internal/sqlite/store.go:207-287 | Replaces the claimed row, adds the new cells and runs the application work in one transaction, for any copy passed back; equals the abstract application exactly when that copy agrees on the last step; failure rolls all of it back |
| SqliteStore.SameTransition | cellar/internal/sqlite/store.go:225-272 | The row and the copy passed back lead to the same cells exactly when they agree on whether the completed step is the last |
| SqliteStore.RunWorksInTurn | cellar/internal/sqlite/store.go:274-281 | Application work runs in turn, each piece on what the one before left, and fails as a whole |
| SqliteStore.SqliteStore.Retry | cellar/internal/sqlite/store.go:310-332 | Refines the same abstract retry |
| SqliteStore.SqliteStore.Recover | cellar/internal/sqlite/store.go:335-344 | Refines the same abstract recovery |
| SqliteStore.LooseAdditionsAgree | cellar/internal/sqlite/store.go:289-307 | Both stores accept the same batches and add the same cells, and name the same error unless a request is invalid |
| StoreErrors.ErrorsDifferIff | cellar/internal/sqlite/store.go:289-307 | The errors differ exactly when, past an unnamed handler, the allocator fails before a request without steps, or an earlier id clashes in a batch whose requests all have steps and ids |
| SqliteStore.ErrorsCanDiffer | cellar/internal/sqlite/store.go:102-138 | A batch for which the two stores report different errors |
| Runtime.TokensConserved | cellar/pkg/cellar/scheduler.go:46-124 | In every run free tokens, the token held by the loop and the dispatches owing one add up to the workers, so returning a token never blocks |
| Runtime.NeverDispatchedTwice | cellar/pkg/cellar/scheduler.go:92-122 | No cell is in two live dispatches at once |
| Runtime.ClaimedAfterReturn | cellar/pkg/cellar/scheduler.go:59-71 | When the scheduler has returned nothing runs, and the cells still claimed are exactly those whose last dispatch broke or was answered with an unrecognised result |
| Runtime.UnrecognisedLeavesClaimed | cellar/pkg/cellar/result.go:120-160 | An answer outside the result kinds leaves its cell claimed and reports no error |
| RuntimeStops.StopsOnlyInTrouble | cellar/pkg/cellar/scheduler.go:59-124 | In every run the scheduler is stopping or has returned only if since its last start the context was cancelled, a claim failed or a dispatch failed |
| RuntimeStops.ErrorIffSomethingFailed | cellar/pkg/cellar/scheduler.go:59-71 | When it has returned, it returned an error exactly if a claim or a dispatch failed since its start, whatever stopped it |
| RuntimeStops.PollsAgain | cellar/pkg/cellar/scheduler.go:97-109 | Untroubled, a scheduler whose poll ends takes a token and claims again |
| RuntimeStops.IdlePolls | cellar/pkg/cellar/scheduler.go:97-109 | After finding nothing to run its next move ends the poll or stops |
| RuntimeStops.ExecutesWhenDue | cellar/pkg/cellar/worker.go:19-41 | In every run a handler is called only for a stored cell claimed at that step whose time has come, and the call is logged with its time |
| RuntimeStops.ReadyCellRuns | cellar/pkg/cellar/scheduler.go:73-122 | From every state of every run with an untroubled scheduler and a free token, every ready cell can be executed once its time has come |
| Runtime.NeverRunsEarly | cellar/pkg/cellar/worker.go:19-41 | In every run every execution, of a first step too, is of the step the cell stands at and not before the earliest run time |
| Runtime.StepsRunInOrder | cellar/pkg/cellar/worker.go:19-41 | In every run a step executes only after every earlier step completed since the cell was added or last restarted |
| Runtime.DisappearsOnlyWhenDone | cellar/pkg/cellar/memory_store.go:107-187 | A cell disappears only when its last step completes or it is killed |
| Runtime.LastStepCompletesOnce | cellar/pkg/cellar/fanout.go:94-112 | The last step of a cell completes at most once per addition of its id |
| Runtime.ChildrenFollowCompletion | cellar/pkg/cellar/fanout.go:94-112 | In every run the children of a single-step cell that only completes or fails are added in the block directly after its one completion, which removes it |
| Runtime.ChildrenInsertedOnce | cellar/pkg/cellar/fanout.go:94-112 | In every run two children of such a cell belong to one block and have different ids, unless the cell was added again in between |
| Runtime.RunKeepsInv | cellar/pkg/cellar/cellar.go:112-187 | Every run, with crashes and restarts, keeps tokens, ownership of claimed cells and the log in step with the store |
| Fanout.DeriveChildId | cellar/pkg/cellar/fanout.go:156-166 | The bytes written to the digest are the domain and the two length-prefixed parts |
| Fanout.BigEndianReads | cellar/pkg/cellar/fanout.go:156-166 | The length prefix is the length in eight bytes, most significant first |
| Fanout.EncodeInjective | cellar/pkg/cellar/fanout.go:156-166 | Length-prefixed lists of parts with equal encodings are equal |
| Fanout.ChildIdsDistinct | cellar/pkg/cellar/fanout.go:156-166 | Two child ids are equal exactly when parent and key are, or the digest collides on their encodings |
| Fanout.IdentifyTargets | cellar/pkg/cellar/fanout.go:125-154 | Succeeds exactly when all keys are present and different and all cells defined, with one child per target in order, a target's own time first; otherwise the error of the first bad target |
| Fanout.ChildrenDistinct | cellar/pkg/cellar/fanout.go:125-166 | Children of accepted expansions share no id across positions or parents unless the digest collides |
| Timer.NextDeadlineCorrect | cellar/pkg/cellar/timer.go:169-176 | The deadline is the least tick after now exactly when that tick is in range; otherwise it lies before the previous deadline |
| Timer.InRangeWhen | cellar/pkg/cellar/timer.go:169-176 | It is in range whenever elapsed time plus one interval fits a duration |
| Timer.OutOfRangeExample | cellar/pkg/cellar/timer.go:169-176 | A concrete input whose deadline moves back |
| Timer.DeadlinesOnGrid | cellar/pkg/cellar/timer.go:132-156 | Over any history with restarts anywhere, all deadlines lie on the first one's grid and strictly increase exactly when every firing is in range |
| Timer.HappensTo | cellar/pkg/cellar/timer.go:132-156 | Only a successful firing moves the deadline, with a fixed delay to one interval after it, and a callback error removes the timer |
| Calendar.MonthStep | firebase_sub/firebase_sub/database/event_recurrence.py:23-28 | The length of a month is the distance to the first of the next |
| Calendar.BeforeIsEarlier | firebase_sub/firebase_sub/database/event_recurrence.py:140-141 | Comparing dates by year, month and day is comparing day numbers |
| Recurrence.FirstAndLast | firebase_sub/firebase_sub/database/event_recurrence.py:44-50 | The weekdays of the dates of the first and the last of a month are those of the day numbers counted from |
| Recurrence.NthWeekdayCorrect | firebase_sub/firebase_sub/database/event_recurrence.py:39-52 | The result is the month's nth (or last) such weekday, if any, exactly unless the candidate lands in the same month of a later year |
| Recurrence.SmallNthStays | firebase_sub/firebase_sub/database/event_recurrence.py:43-47 | An nth up to 52 never lands in a later year |
| Recurrence.LargeNthLands | firebase_sub/firebase_sub/database/event_recurrence.py:43-47 | A family of months in which the 53rd Monday is reported in the next year |
| Recurrence.January2023 | firebase_sub/firebase_sub/database/event_recurrence.py:43-47 | January 2023 belongs to that family |
| Recurrence.FirstWeekdayOnOrAfter | firebase_sub/firebase_sub/database/event_recurrence.py:55-64 | Finds the first listed weekday within a week, or nothing exactly when no weekday is listed |
| Recurrence.NextIsFixed | firebase_sub/firebase_sub/database/event_recurrence.py:176-177 | Searching from a returned date returns that date, for every frequency |
| OccurrenceSearch.NextWeekly | firebase_sub/firebase_sub/database/event_recurrence.py:80-101 | Returns the first day from the reference on whose weekday is listed, or nothing exactly when none is; that is the first date that fits the weekly rule |
| OccurrenceSearch.NextMonthly | firebase_sub/firebase_sub/database/event_recurrence.py:103-144 | For every rule: what the months of the window give first, which is the first fitting date of all within 240 months, if any, exactly unless some month lands in a later year |
| OccurrenceSearch.NextYearly | firebase_sub/firebase_sub/database/event_recurrence.py:146-171 | The same for yearly rules and 40 years |
| OccurrenceSearch.NextOccurrence | firebase_sub/firebase_sub/database/event_recurrence.py:67-171 | The same for any rule; a one-off rule gives its own date |
| OccurrenceSearch.FoundIsNextIff | firebase_sub/firebase_sub/database/event_recurrence.py:67-171 | For every rule and reference the search is right exactly unless a month of the window has a candidate in a later year |
| OccurrenceSearch.SupportedFinds | firebase_sub/firebase_sub/database/event_recurrence.py:67-171 | With an nth up to 52 the search returns the first fitting date of all if it lies in the window, and otherwise nothing |
| MonthlyWindow.MonthlySearch | firebase_sub/firebase_sub/database/event_recurrence.py:103-144 | A monthly rule is found exactly when this month's date is still to come or a month a multiple of the interval ahead, below 240, has the day |
| MonthlyWindow.MonthlySatisfied | firebase_sub/firebase_sub/database/event_recurrence.py:103-144 | Whether any date fits at all is decided within 4800 intervals |
| MonthlyWindow.MissedIff | firebase_sub/firebase_sub/database/event_recurrence.py:103-144 | With the first later month that has the day k intervals ahead, it is missed exactly when this month's date is past and k intervals are 240 months or more |
| MonthlyWindow.NeverIff | firebase_sub/firebase_sub/database/event_recurrence.py:103-144 | Without such a month there is a date exactly when this month's is still to come, and then it is found |
| MonthlyWindow.MonthlyEarly | firebase_sub/firebase_sub/database/event_recurrence.py:103-144 | Days 1 to 28, the first four and the last weekday exist and are missed exactly when this month's is past and the interval is 240 or more |
| MonthlyWindow.MonthlyThirtieth | firebase_sub/firebase_sub/database/event_recurrence.py:103-144 | Day 30 exists and is missed exactly when this month's is past and the interval is 240 or more, or 120 or more and leading to February first but not always |
| MonthlyWindow.ThirtiethExample | firebase_sub/firebase_sub/database/event_recurrence.py:110-144 | With interval 121, asked for on any 31 January, it is missed |
| MonthlyWindow.MonthlyThirtyFirst | firebase_sub/firebase_sub/database/event_recurrence.py:103-144 | Day 31 exists and is missed exactly when this month is short and the first long month, read off month and interval modulo twelve, is 240 or more ahead |
| MonthlyWindow.ThirtyFirstSafe | firebase_sub/firebase_sub/database/event_recurrence.py:103-144 | Day 31 is never missed with an interval up to 52 |
| MonthlyWindow.ThirtyFirstExample | firebase_sub/firebase_sub/database/event_recurrence.py:110-144 | With interval 53, asked for in any June, it is missed |
| MonthlyWindow.MonthlyTwentyNinth | firebase_sub/firebase_sub/database/event_recurrence.py:103-144 | Day 29 where the interval leaves February: exists, and missed exactly when this month's is past and one interval, or two past a common February, are 240 or more |
| MonthlyWindow.MonthlyLeapDay | firebase_sub/firebase_sub/database/event_recurrence.py:103-144 | Day 29 of February by whole years: missed exactly when this year is common and the first leap year met is 240 months ahead or more |
| MonthlyWindow.TwentyNinthSafe | firebase_sub/firebase_sub/database/event_recurrence.py:103-144 | Day 29 is never missed with an interval up to 35 |
| MonthlyWindow.TwentyNinthExample | firebase_sub/firebase_sub/database/event_recurrence.py:110-144 | With interval 36, asked for in February 2091, it is missed |
| FifthWeekday.FifthAhead | firebase_sub/firebase_sub/database/event_recurrence.py:103-144 | Stepping by 5, 7, 8, 9, 10 or 11 months from any month, a fifth of any weekday is met within 240 months |
| MonthlyWindow.FifthSafe | firebase_sub/firebase_sub/database/event_recurrence.py:103-144 | The fifth weekday is always found with an interval up to 11 |
| MonthlyWindow.FifthMissed | firebase_sub/firebase_sub/database/event_recurrence.py:103-144 | With interval 12, in the February after one with five of the weekday and a gap ahead, it exists and is missed |
| MonthlyWindow.FifthExample | firebase_sub/firebase_sub/database/event_recurrence.py:110-144 | The fifth Monday, asked for in February 2073 with interval 12, is missed |
| OccurrenceWindow.YearlyWindow | firebase_sub/firebase_sub/database/event_recurrence.py:146-171 | For every yearly rule: a fitting date exists exactly when some year can meet the rule, and it is found exactly unless it falls into the February gap |
| OccurrenceWindow.EveryFortyYears | firebase_sub/firebase_sub/database/event_recurrence.py:146-171 | Ten multiples of four in a row hold a February with five of every weekday |
| OccurrenceWindow.AcrossCentury | firebase_sub/firebase_sub/database/event_recurrence.py:146-171 | Across a common century the fifth weekday of February comes round after forty years and not before |
| OccurrenceWindow.FebruaryGapExample | firebase_sub/firebase_sub/database/event_recurrence.py:155-171 | The fifth Monday of February is missed from March 2072, though 2112 has one |
| OccurrenceWindow.WeeklyWindow | firebase_sub/firebase_sub/database/event_recurrence.py:80-101 | A weekly rule naming a weekday is always found within the week |
| RollForward.Materialise | firebase_sub/firebase_sub/database/event_recurrence.py:180-195 | For a recurring rule with an nth up to 52: a past date of the rule gives way to the first date strictly after it that fits from the day after, a date of the rule from today on is kept, anything else becomes the first from today on, and nothing exactly when the window has none; a one-off rule gives its date |
| RollForward.RollAdvances | firebase_sub/firebase_sub/database/event_recurrence.py:189-191 | A matching past date of a recurring rule is replaced by a strictly later one, which matches again for an nth up to 52 |
| RollForward.FoundIsFixed | firebase_sub/firebase_sub/database/event_recurrence.py:176-177 | With an nth up to 52, searching from a date the search returned gives that date |
| RollForward.SettledIffFixed | firebase_sub/firebase_sub/database/event_recurrence.py:180-214 | For every rule the fixed points are exactly: nothing when nothing can be found, a date on or after today that matches or is what a search from today gives, or the date of a one-off event |
| RollForward.SettledMatches | firebase_sub/firebase_sub/database/event_recurrence.py:180-214 | With an nth up to 52 those dates are exactly the matching ones on or after today |
| RollForward.RollSettles | firebase_sub/firebase_sub/database/event_recurrence.py:180-214 | Repeated application at a fixed today reaches a fixed point within the days left to today and two more |
| RollForward.WeekHasBegun | firebase_sub/firebase_sub/database/event_recurrence.py:190-191 | The completion test holds for every past date |
| RollForward.ReplacedEarly | firebase_sub/firebase_sub/database/event_recurrence.py:189-191 | A matching date is replaced before its week is over exactly on the days after it in that week |
| QueueRunner.QueueRunner.DispatchNext | firebase_sub/firebase_sub/runtime/queue_runner.py:108-192 | Dispatching the next event changes queue, agenda and counters exactly as specified for its outcome, and stops when specified |
| QueueRunner.QueueRunner.EnqueueDueRetries | firebase_sub/firebase_sub/runtime/queue_runner.py:217-220 | Moves exactly the due prefix of the agenda to the queue, in order |
| QueueRunner.BackoffBounds | firebase_sub/firebase_sub/runtime/queue_runner.py:254-255 | Delays start at the base, double per attempt, never shrink and never exceed the maximum |
| Agenda.PushPlace | firebase_sub/firebase_sub/runtime/queue_runner.py:209-215 | A new entry goes behind everything due at its time or before, so entries of one time leave in order |
| QueueRuns.EventsConserved | firebase_sub/firebase_sub/runtime/queue_runner.py:81-207 | In every run each event ever put is completed, queued or waiting for a retry, exactly once; stopping loses at most the event in hand |
| QueueRuns.RequeuedWhenDue | firebase_sub/firebase_sub/runtime/queue_runner.py:217-220 | In every run a retry is re-queued exactly when its run time has come |
| QueueRuns.RetryWithinBounds | firebase_sub/firebase_sub/runtime/queue_runner.py:209-215 | A retry is scheduled between the base and the maximum delay after the failure |
| QueueRuns.RetriedAfterStreak | firebase_sub/firebase_sub/runtime/queue_runner.py:118-190 | In every run a failure that does not stop the runner schedules its event after the delay of its streak of such failures of that type and document |
| QueueRuns.UnknownErrorsBounded | firebase_sub/firebase_sub/runtime/queue_runner.py:152-190 | In every run a key has at most its budget of consecutive unknown errors, and is never counted in both maps |
| QueueRuns.StopsExactly | firebase_sub/firebase_sub/runtime/queue_runner.py:118-190 | A dispatch stops the runner exactly on a terminal error, an unknown error past the budget, or a streak above 1024 |
| ScheduledRunner.ScheduledRunner.RunDue | firebase_sub/firebase_sub/plugins/scheduled_housekeeping.py:73-154 | Terminates; runs each entry due at the start once, in order; puts each back for exactly the time it asks for, or a second from now when that is not after now, or drops it; never grows the queue; leaves only entries after now; stops early exactly when a plugin raises from its run time |
| ScheduledRunner.ScheduledRunner.RegisterPlugins | firebase_sub/firebase_sub/plugins/scheduled_housekeeping.py:46-64 | Queues exactly the enabled plugins that name a time; when one raises, exactly those before it stay queued |
| ProfileMigration.PlanUser | firebase_sub/firebase_sub/cli/audit_user_profiles.py:319-447 | Writes each name and photo address from the same private field exactly where the public one is missing, the flag where it is missing or turned on, and the custom photo by its legacy rules; lists exactly the fields left for review |
| ProfileMigration.RoundMigrates | firebase_sub/firebase_sub/cli/audit_user_profiles.py:319-484 | After a round each public field holds the value written that way, and every other field is as before |
| ProfileMigration.AuditUser | firebase_sub/firebase_sub/cli/audit_user_profiles.py:119-130 | Lists exactly the fields with a private value and none in public, a switched-off custom photo aside, each once |
| ProfileMigration.UsableKept | firebase_sub/firebase_sub/cli/audit_user_profiles.py:323-442 | No usable public value is overwritten except votesVisible false by true |
| ProfileMigration.TwoRoundsSettle | firebase_sub/firebase_sub/cli/audit_user_profiles.py:311-447 | Where the plan skips nothing, a third round changes nothing for a user, and no field is missing exactly when the user is not the unsettled case |
| ProfileMigration.MigrationSettles | firebase_sub/firebase_sub/cli/audit_user_profiles.py:311-447 | The same for all users together |
| ProfileMigration.OneRoundNotEnough | firebase_sub/firebase_sub/cli/audit_user_profiles.py:356-365 | A private address behind a public flag that is off comes through only in the second round |
| ProfileMigration.UnsettledExample | firebase_sub/firebase_sub/cli/audit_user_profiles.py:356-392 | The unsettled case with concrete documents |
| ProfileMigration.Plan | firebase_sub/firebase_sub/cli/audit_user_profiles.py:311-447 | One operation per user with changes, in order, each writing migrated values only |
| ProfileMigration.Apply | firebase_sub/firebase_sub/cli/audit_user_profiles.py:473-484 | Batches of 500 apply every operation once, in order |
| ProfileMigration.PlanThenApply | firebase_sub/firebase_sub/cli/audit_user_profiles.py:473-484 | Applying the plan for all users is one round |

## Left out

- OccurrenceSearch.NextOccurrence: an unknown frequency, which the code rejects, has no counterpart.
- RollForward.Materialise: parsing and printing of ISO dates, and years outside 1 to 9999.
- Provider clients, HTTP handlers, command lines, query reporting, logging, email templates and push messages.
- SQL text, schema creation and migration, JSON encoding (maps are compared as values), and commits whose outcome is unknown.
- ForceUpdate, ForceDelete and the inspector, which break the lifecycle on purpose.
- SHA-256, UUIDs and random generation: the digest is a parameter, generated ids are arbitrary.
- Daily-calendar timers and time zones, and the one-step path of stores that cannot apply results atomically.
- Several result appliers in a row: the worker has the store's applier only.
- The order of recipients in the protocol's reads is arbitrary; the query that sorts them is EmailStore.Store.ListByState.
- The binary heap inside heapq: the agenda is the sorted list that popping it produces.
- Rounding of delays to floats and microseconds.
- The value_differs, orphan and uid issues of the audit, and the older votesVisible and customPhotoUrl migrations beside the public profile migration.
- React hooks, the service worker, Firestore listeners and repositories, backup and restore.
