# Qhronos in Dafny

A model of the event → schedule → dispatch → retry → log pipeline of Qhronos, of the recurrence
arithmetic that feeds it, and of three smaller cores beside it: archiving, the two encodings of an
event's target, and the token bucket. `dafny verify dfyconfig.toml` checks the whole project.

The pipeline is one state machine (`Pipeline.dfy`). Its state holds the four Redis keys, what every
worker and every expansion has in hand, the tables `events` and `occurrences`, and a monotone clock.
Its steps are the loop turns of the two Lua scripts, the Redis and database calls of workers and
expansions, and the writes of the handlers and the archiver; any number of workers and expansions
interleave. An expansion takes three steps for each instant of its list: ExistsAtTime, HEXISTS, and
ZADD with HSET. Three groups of calls are single steps: ZADD with HSET (`HalfWrites` splits them), ZREM
with HDEL in a removal, and a failing read of an event with the diagnostic row and the removal that
follow it. A second group of state fields (`created`, `issued`, `fate`, `tries`, `failedAt`, `moved`,
`logged`, `reached`) is history; the steps read of it only that occurrence ids are new and that a
deleted event is not created again, which random UUIDs stand for.

The code that changes state in place is also there as classes and methods with loops: `Redis.Client`,
`Archive.Database`, `Worker.Dispatcher`, the methods of `Expander`, `Actions.Repository`,
`RateLimit.Bucket`, and the loops of the two recurrence engines. Each is proved against a function of
the old state, and most say outright what they leave; `MoverIsRun`, `PollerIsRun`, `ExpansionIsRun`,
`OnceExpansionIsRun` and `TurnIsRun` show that, undisturbed, they are runs of the state machine.

| file | contents |
|---|---|
| `Times`, `Calendar` | instants in nanoseconds; the Gregorian calendar with the normalisation of Go's `time.Date` and `AddDate`, in UTC |
| `Recurrence`, `RecurrenceLaws`, `ExactSets`, `Ordering`, `NextOccurrences` | the expander's series and windows, what they generate and in which order, and the second engine |
| `Tables`, `Archive` | the two tables, their queries, `archive_old_data` |
| `Redis`, `Pipeline`, `Expander`, `Worker` | the Redis structures, the state machine, expansion and dispatch as code |
| `Conservation`, `Overlap`, `Dispatching`, `Handover`, `Outcomes`, `Repeats`, `Expansions`, `AtMostOnce`, `DoubleMoves`, `NoMissed`, `KeptPlans`, `Inactivation`, `Draining`, `Counting` | properties of all runs, and runs that show where they end |
| `HalfWrites` | `ScheduleEvent` split into its three Redis calls |
| `Actions`, `RateLimit` | webhook and action columns; the token bucket |

## Where the code differs from its documentation or from what one expects

The model follows the code. Each point but the `action` column is a member below.

- Workers pop the end the mover pushes to, so the dispatch queue is last in, first out
  (`NewestIsPopped`).
- `until` excludes its own instant in the expander and includes it in `GetNextOccurrences`; section
  3.3.10 of RFC 5545 makes UNTIL inclusive (`EnginesAgree`).
- `count` cuts each list of the expander, not the series (`CountNeverEndsTheSeries`).
- Lists of days or months before the start's own yield instants before the start, and windows that
  disagree about them (`MonthDaysSlicedIff`, `MonthsSlicedIff`).
- A monthly or yearly series whose start day some visited month lacks drifts into the 1st to 3rd and
  stays there (`KeepsDayIff`, `DriftsAtMostOnce`).
- The day-of-week filter of `GetNextOccurrences` compares "Mo" with "MO" and matches nothing
  (`DaysOfWeekReturnNothing`).
- One-time events are planned without a look at the log, so the tick after a hand-over inside the grace
  period hands them over again (`OneTimeEventIsMovedTwice`, and exactly when: `OneTimeIff`).
- An instant whose row is not there yet, or is written between an expansion's look and its HEXISTS, is
  handed over again (`UnloggedInstantIsMovedTwice`, `LookAndWriteRace`). For expansions with nothing in
  between, exactly when is `WholeExpansionsMoveOnceIff`; a guard on clock, rows and hash that rules it out
  is `GuardedExpansionsMoveOnce`.
- Two overlapping calls for one key overwrite each other's entry (`OverlapOverwrites`). A second call, or
  the dispatcher's clean-up, between one call's ZADD and HSET leaves the entry in no sorted set
  (`TwoWritersStrandAnEntry`, `CleanUpStrandsAnEntry`, and exactly when: `InsideThroughoutIff`).
- Archiving loses rows and events that others insert between its statements (`InterleavedRowsIff`,
  `InterleavedEventsIff`).
- Archiving removes every event without a recent row, also one that has yet to start
  (`UndispatchedEventIsRemoved`), and its INSERT does not list the `action` column.
- The mover's range starts at score 0, so an entry from before 1970 stays for ever
  (`BeforeEpochIsStuck`).
- A webhook action whose URL begins with "q:" is stored as a websocket action
  (`WebhookActionBecomesWebsocket`); the second migration and the program disagree on the string
  "q:" (`MigrationAgreesIff`).
- With the default limits a rate-limited client is not held to one bucket plus refill
  (`DefaultsBreakTheBound`).
- `UpdateEvent` stores a new start before it compares the old one with it, so a start in the past is
  accepted silently and never answered with 400 (`ReplaceStart`).

## Model

| member | source | states |
|---|---|---|
| Calendar.DateReadsBack | internal/scheduler/expander.go:189 | a date that exists is read back; a day past the end of a month is one of the first three of the next |
| Calendar.DateExact | internal/scheduler/expander.go:189 | the day number of every date by the Gregorian rule alone: 365 days a year since 1970, the leap days, the days before the month |
| Calendar.KnownDates | internal/scheduler/expander.go:171 | 1970-01-01 is a Thursday, 2000-02-29 exists and is a Tuesday, 2100-02-29 does not exist |
| Calendar.CalendarRepeats | internal/scheduler/expander.go:189 | any 400 years are 20871 weeks |
| Calendar.WeekdaysFollow | internal/scheduler/expander.go:171 | weekdays follow one another and come back every seven days |
| Calendar.AddMonthsAdvances | internal/scheduler/expander.go:181 | AddDate by months moves forward, stands still or goes back as the number of months is positive, zero or negative, whatever the normalisation does |
| Recurrence.StepAdvances | internal/scheduler/expander.go:132-207 | the loop header of every frequency moves forward exactly for a positive interval and stands still exactly at 0 |
| Recurrence.SeriesIncreases | internal/scheduler/expander.go:132-207 | the infinite base series is strictly increasing for every accepted schedule |
| Recurrence.LoopsStopIff | internal/handlers/event_handler.go:365-381 | the expansion loops stop for every window if and only if the interval is at least 1, which the handlers' check guarantees |
| Recurrence.KeepInWindow | internal/scheduler/expander.go:169-176 | the inner loop keeps exactly the candidates strictly inside the window, in order |
| Recurrence.CollectOccurrences | internal/scheduler/expander.go:119-212 | the nested loops collect the windowed candidates of all base points before the end, and stop |
| ExactSets.FixedStepsExact | internal/scheduler/expander.go:132-157 | minutely, hourly, daily and weekly without by_day: exactly the instants start + k·interval·unit strictly inside the window, the unit in nanoseconds |
| ExactSets.MonthsAndYearsExact | internal/scheduler/expander.go:179-202 | monthly and yearly without lists, for every start, drifting or not: exactly the dates of every interval-th month or year strictly inside the window |
| ExactSets.BasePointExact | internal/scheduler/expander.go:179-212 | the k-th base point of a monthly or yearly schedule as a date, before and after the first month that lacks the day of the start |
| ExactSets.ListedDaysExact | internal/scheduler/expander.go:186-195 | by_month_day for every start and every list, days 29 to 31 included: exactly the listed days of the visited months, normalised as time.Date does |
| ExactSets.ListedMonthsExact | internal/scheduler/expander.go:203-211 | by_month for every start and every list, a drifting 29 February included: exactly those dates |
| ExactSets.WeekdayNames | internal/scheduler/expander.go:159-171 | the numbers of the seven names, Sunday 0; a name outside the map reads as Sunday |
| ExactSets.ValidScheduleIff | internal/handlers/event_handler.go:365-427 | a schedule is accepted if and only if its loops always stop, no listed weekday is read as Sunday by default, each listed day exists in some month, and each listed month in a year; Count positive, Until readable |
| Ordering.OccurrencesInOrder | internal/scheduler/expander.go:131-212 | every list with order and repetitions: base point by base point, and at each in the order of the listed days or months |
| Ordering.PlanPicks | internal/scheduler/expander.go:217-233 | the plan is the first Count of that list, and of those the ones before Until, in its order |
| Recurrence.OccurrencesExact | internal/scheduler/expander.go:131-212 | an instant is generated if and only if it is in the open window and some base point before the window's end proposes it |
| RecurrenceLaws.SlicedIffForward | internal/scheduler/expander.go:131-212 | all windows are slices of one fixed infinite set if and only if no instant is proposed only by base points after it |
| RecurrenceLaws.PlainIsSliced | internal/scheduler/expander.go:131-212 | schedules without by_month_day and by_month lists are slices in every window |
| RecurrenceLaws.AddMonthsLands | internal/scheduler/expander.go:181 | AddDate by months keeps the time of day and the day of the month, or lands on day 1 to 3 of the month after |
| RecurrenceLaws.SeriesBeforeDrift | internal/scheduler/expander.go:179-212 | while every visited month is long enough the k-th base point is month M0 + k·interval with the start's day and time |
| RecurrenceLaws.SeriesAfterDrift | internal/scheduler/expander.go:179-212 | from the first short month on, the series is one month further and keeps one day in 1..3 for ever |
| RecurrenceLaws.KeepsDayIff | internal/scheduler/expander.go:179-212 | the start's day of the month is kept for ever if and only if every visited month has it |
| RecurrenceLaws.DriftsIff | internal/scheduler/expander.go:179-212 | whether the series ever drifts is decided by its first 4800 base points, since month lengths repeat every 400 years |
| RecurrenceLaws.DriftsAtMostOnce | internal/scheduler/expander.go:179-212 | the day of the month changes at most once in the infinite series and is then 1, 2 or 3 |
| RecurrenceLaws.YearlyDrift | internal/scheduler/expander.go:196-202 | along years only a 29 February can drift, in a year whose February has 28 days |
| RecurrenceLaws.ShortDaySeries | internal/scheduler/expander.go:179-212 | the closed form of the series for start days up to the 28th |
| RecurrenceLaws.MonthlyExact | internal/scheduler/expander.go:180-185 | monthly and yearly expansion without lists, start day up to 28: exactly the start's day of every visited month in the window |
| RecurrenceLaws.WeeklyExact | internal/scheduler/expander.go:151-178 | weekly by_day expansion is exactly { start + j days : j ≥ 0, (j div 7) a multiple of the interval, weekday listed } inside the window |
| RecurrenceLaws.MonthDaysSlicedIff | internal/scheduler/expander.go:186-195 | a by_month_day schedule means the same instants in every window if and only if no listed day precedes the start's day |
| RecurrenceLaws.MonthDaysExact | internal/scheduler/expander.go:186-195 | with listed days between the start's day and the 28th, exactly those days of every interval-th month: none before the start, none missed at the window's end |
| RecurrenceLaws.MonthsSlicedIff | internal/scheduler/expander.go:203-211 | for every start, a by_month schedule means the same instants in every window if and only if no listed month precedes the start's and, when a 29 February drifts, February is not listed either |
| RecurrenceLaws.MonthsExact | internal/scheduler/expander.go:203-211 | with listed months from the start's on and no drift, exactly the start's day of the listed months of every interval-th year, normalised as time.Date does |
| NextOccurrences.GetNextOccurrences | internal/scheduler/schedule.go:126-170 | the loop with its early exits returns the bounded prefix of accepted instants up to Until |
| NextOccurrences.FromIsPrefix | internal/scheduler/schedule.go:137-166 | without filters the result is a prefix of the expander's series for the same window, cut at an inclusive Until |
| NextOccurrences.NextIsComplete | internal/scheduler/schedule.go:126-170 | with filters: below 1000 instants and below Count the result is exactly the base points before the end, up to Until, that the filters keep |
| NextOccurrences.FromIsCut | internal/scheduler/schedule.go:137-147 | a smaller limit returns the first of what a larger one does |
| NextOccurrences.FiltersByDate | internal/scheduler/schedule.go:189-220 | without weekdays the filters keep the instants whose date has a listed day and a listed month |
| NextOccurrences.EnginesAgree | internal/scheduler/schedule.go:126-170 | for one window the second engine gives the first 1000 instants of the list the expander plans but for one equal to Until, and they agree outright if and only if that one is absent or beyond the limit |
| NextOccurrences.DaysOfWeekReturnNothing | internal/scheduler/schedule.go:173-187 | a validated rule with days of the week yields no instant in any window |
| Tables.CountCompletedAppend | internal/repository/occurrence_repository.go:209-218 | one more row raises the count of completed rows by one exactly for a completed row of that event |
| Tables.CountCompletedExact | internal/repository/occurrence_repository.go:209-218 | the count is the number of rows of the event that are completed |
| Tables.CascadeFindsNothing | migrations/001_initial_schema.sql:66-69 | with the foreign key in place the cascade deletes nothing |
| Archive.Database.ArchiveOldData | migrations/001_initial_schema.sql:195-235 | the four statements in order, cascade included: rows scheduled before now − retention go to the archive with their multiplicity and the others stay; an event stays if and only if one of its rows does, and otherwise its listed columns are archived once |
| Archive.ArchiveStepExact | migrations/001_initial_schema.sql:195-235 | the archiving step of the state machine removes exactly the rows before now − retention and the events without a later one |
| Archive.ArchivingConserves | migrations/001_initial_schema.sql:195-235 | live plus archived rows, and live plus archived events (listed columns), are the same multisets before and after |
| Archive.ArchivingKeepsForeignKey | migrations/001_initial_schema.sql:66-69 | every row left behind still has its event |
| Archive.RunKeepsForeignKey | migrations/001_initial_schema.sql:66-69 | in every run every row has its event |
| Archive.ArchivingComposes | migrations/001_initial_schema.sql:195-235 | archiving at c1 and then at c2 ≥ c1 leaves, live and archived, what archiving at c2 alone leaves |
| Archive.SurvivesIff | migrations/001_initial_schema.sql:229-234 | an event survives if and only if it has a row inside the retention period |
| Archive.UndispatchedEventIsRemoved | migrations/001_initial_schema.sql:212-234 | an event without any row is archived and deleted, whenever it starts |
| Archive.InterleavedRowsIff | migrations/001_initial_schema.sql:199-234 | with rows and events inserted between the statements, no row is lost or duplicated if and only if every row inserted before the DELETE is recent and every later one is of an event with a recent row |
| Archive.InterleavedEventsIff | migrations/001_initial_schema.sql:212-234 | likewise no event is lost or duplicated if and only if no event already archived gets a recent row before the last DELETE and every new event has one by then |
| Redis.Client.ScheduleEvent | internal/scheduler/scheduler.go:36-77 | under the key of event and whole second, sorted set and hash gain the entry together, scored with the second, or nothing changes if the key is in the hash |
| Redis.Client.GetDueSchedules | internal/scheduler/scheduler.go:80-106 | exactly the entries with a score from 0 to now leave the hash, their data is appended to the queue by ascending score, a due key without data stays in the sorted set; the count is right |
| Redis.TakenInOrder | internal/scheduler/scheduler.go:85-91 | what is appended is the data of the answered keys that have any, each once and in the answer's order |
| Redis.MoverEffect | internal/scheduler/scheduler.go:82-95 | the mover empties exactly the due part of the hash, appends its items by score, and leaves due keys without data in the sorted set |
| Redis.Client.PollRetryQueue | internal/scheduler/dispatcher.go:220-227 | exactly the members with a score up to now leave the retry set and are appended to the queue by ascending score |
| Redis.PollerEffect | internal/scheduler/dispatcher.go:220-227 | the poller moves exactly the due members, each once, and touches nothing else |
| Redis.Client.PopForWorker | internal/scheduler/dispatcher.go:261-270 | a worker takes the element pushed last |
| Redis.Client.RemoveEventOccurrences | internal/repository/event_repository.go:251-275 | exactly the listed entries of the event leave sorted set and hash; everything else stays |
| Redis.RemovalEffect | internal/repository/event_repository.go:251-275 | removal drops exactly the event's entries and touches nothing of other events, queue or retry set |
| Pipeline.FetchShape | internal/scheduler/dispatcher.go:86-114 | reading the event moves one hand on, with the event as it stands or a failure, and adds at most an attempt-0 row |
| Conservation.StepConserves | internal/scheduler/dispatcher.go:253-316 | every step keeps: each issued occurrence is in exactly one of hash, queue, a worker's hand and retry set, or has met one fate (completed, dropped, cancelled, lost, overwritten), and nothing else is anywhere |
| Conservation.RunConserves | internal/scheduler/scheduler.go:36-95 | so does every run, with crashes, failed requeues and overlapping calls on one key included |
| Conservation.InitiallyConserved | internal/scheduler/scheduler.go:36-77 | the empty system starts so |
| Overlap.OverwritesIff | internal/scheduler/scheduler.go:40-75 | a step overwrites an occurrence if and only if it is the HSET on a key that has data |
| Overlap.AloneRunOverwritesNothing | internal/scheduler/scheduler.go:40-75 | while no two calls on one key are between HEXISTS and HSET, no run overwrites anything |
| Overlap.AloneMeansNoneOverwritten | internal/scheduler/scheduler.go:40-75 | so no occurrence of such a run from the empty system is ever overwritten |
| Overlap.OverlapOverwrites | internal/scheduler/scheduler.go:40-75 | when two calls on one key are both past HEXISTS, the second write leaves the first occurrence nowhere |
| Overlap.OverlapIsReachable | internal/handlers/event_handler.go:171-183 | the expansion a handler starts and the next one reach that state from the empty system |
| Dispatching.StepKeepsInv | internal/scheduler/dispatcher.go:86-316 | every step keeps the joint invariant of places, attempt counts, due times, scores and logged rows |
| Dispatching.AttemptsAreCountedAndBounded | internal/scheduler/dispatcher.go:281-313 | in every run AttemptCount is the number of earlier attempts, and no occurrence is dispatched more than max(1, maxRetries) times |
| Dispatching.HistoryIsOrdered | internal/scheduler/dispatcher.go:116-155 | in every run the rows of an occurrence (attempt 0 aside) have rising attempt counts, and only the last can be completed |
| Outcomes.DroppedAfterAllAttempts | internal/scheduler/dispatcher.go:290-313 | in every run an occurrence is dropped only after exactly max(1, maxRetries) dispatches |
| Outcomes.CompletedWasExecuted | internal/scheduler/dispatcher.go:116-134 | in every run an occurrence is completed only if its action was executed with success |
| Outcomes.AttemptIsRemembered | internal/scheduler/dispatcher.go:136-155 | an attempt whose INSERT succeeds, failed or not, has its row with its attempt number in every later state, until the event is deleted or the row is older than the retention period |
| Dispatching.TimingIsKept | internal/scheduler/dispatcher.go:304-308 | in every run nothing leaves the hash before its second, and a retried occurrence is in the queue only more than retryDelay − 1 s after its failure |
| Handover.RunKeepsTraced | internal/scheduler/scheduler.go:80-106 | in every run whatever is past the hash, and every logged row, was handed over, not before its second |
| Repeats.StepKeepsOnceIff | internal/scheduler/expander.go:237-256 | a step keeps "handed over at most once, and not pending again" if and only if it does not write an instant that was handed over |
| Repeats.MovedOnceIff | internal/scheduler/expander.go:237-256 | over whole runs from the empty system, any interleaving: once throughout if and only if no write is of an instant handed over; `WholeExpansionsMoveOnceIff` and `OneTimeIff` say it in what an expansion can read |
| Repeats.EarlyWritesMoveOnce | internal/scheduler/expander.go:261-293 | while every write comes before the instant's second, each instant of a one-time or recurring event is handed over at most once, without any look at the log |
| Expansions.PlansHaveDistinctSeconds | internal/scheduler/expander.go:131-212 | no two instants of one list share a Redis key: every candidate keeps the part of the second of the start |
| Expansions.ExpansionKeepsOnceIff | internal/scheduler/expander.go:119-259 | an expansion with nothing in between keeps "handed over at most once, and not pending again" if and only if each listed instant that was handed over has a row or a hash entry when it begins |
| Expansions.WholeExpansionsMoveOnceIff | internal/scheduler/expander.go:53-76 | in every run from the empty system whose expansions of the event have nothing in between, everything else interleaving between them: once throughout if and only if every one of these expansions begins so |
| Expansions.GuardedIffSafe | internal/scheduler/expander.go:237-256 | that condition follows from one on clock, rows and hash (each listed instant is not due, or has a row or an entry), and is the same where no due instant was missed |
| Expansions.GuardedExpansionsMoveOnce | internal/scheduler/expander.go:237-256 | with that guard at every expansion each instant is handed over at most once, whatever was lost, archived or logged late |
| AtMostOnce.StepKeepsClean | internal/scheduler/expander.go:237-256 | every step, archiving included, keeps: what a running expansion still has to do lies inside the grace period and has a row if it was handed over |
| AtMostOnce.MovedAtMostOnce | internal/scheduler/expander.go:237-256 | with gracePeriod ≤ retention, in every run from the empty system whose expansions of the event are atomic for it and begin when every instant inside the grace period that was handed over has a row, each instant is handed over at most once; what was lost without a row longer ago does not matter |
| AtMostOnce.PlanOfWindow | internal/scheduler/expander.go:119-233 | every listed instant lies strictly between grace start and look-ahead end, after Count and Until too |
| DoubleMoves.OneTimeIff | internal/scheduler/expander.go:261-293 | expanding a one-time event that was handed over leaves it handed over once if and only if its start lies ahead or its key is in the hash; without that guard the mover can take it at once |
| DoubleMoves.OneTimeEventIsMovedTwice | internal/scheduler/expander.go:261-293 | a run from the empty system, without any failure, that hands a one-time event over twice |
| DoubleMoves.UnloggedInstantIsMovedTwice | internal/scheduler/expander.go:239-256 | a run from the empty system that hands a recurring instant over twice because it has no row yet |
| DoubleMoves.LookAndWriteRace | internal/scheduler/expander.go:239-255 | a run in which the instant has logged a row when it is written again, because the expansion had looked before |
| NoMissed.PlanOfExact | internal/scheduler/expander.go:119-233 | the list of an event without Count is exactly the slice of its series, before Until, in the open window |
| NoMissed.CreationCovers | internal/handlers/event_handler.go:171-183 | the hand-off from creation: skipping the immediate expansion of a start beyond the window leaves nothing of the window uncovered |
| NoMissed.NoInstantIsMissed | internal/scheduler/expander.go:296-312 | after creation, in every faithful run, an instant of the series is accounted for before the clock passes it, and pending in Redis until its second begins |
| NoMissed.TicksSuffice | internal/scheduler/expander.go:296-312 | expansions that read the clock less than lookAhead apart join up, and less than lookAhead is exactly how far the clock may go on |
| NoMissed.TicksMissNothing | internal/scheduler/expander.go:296-312 | over whole runs: while expansions of the event read the clock less than lookAhead apart, from its creation or first expansion on, every instant of its series is accounted for before the clock can reach it and pending until its second begins |
| KeptPlans.PlannedIsKept | internal/scheduler/scheduler.go:80-95 | in every run an instant with an entry, one-time or recurring, keeps it until its second begins and is handed over before the entry goes, unless a handler removes the plan |
| KeptPlans.OneTimeIsNotMissed | internal/scheduler/expander.go:261-293 | a one-time event expanded with its start in the closed window is pending until its second begins and handed over before its entry goes |
| KeptPlans.OnceExpansionIsRun | internal/scheduler/expander.go:261-293 | an undisturbed expansion of a one-time event is a run that leaves what the code leaves, and there is none outside the closed window |
| Inactivation.StepKeepsGuard | internal/scheduler/dispatcher.go:126-190 | every undisturbed step keeps: an active event whose completed rows suffice has a worker on its way to write it inactive |
| Inactivation.InactivatedInTime | internal/scheduler/dispatcher.go:157-190 | with any number of workers, whenever none is between logging a success and writing the event, an active event has fewer than Count completed rows, a one-time event none |
| Inactivation.NeverReactivated | internal/scheduler/dispatcher.go:157-190 | no step but a handler's write of the event makes an inactive event active |
| Outcomes.WhyInactive | internal/scheduler/dispatcher.go:157-190 | in every run: a step other than a handler's write that makes an active event inactive is a worker's update with the row it read; it executed that row's action with success, and decided while the event was one-time, or had at least Count completed rows, or was past its Until |
| Outcomes.EndlessIsNotInactivated | internal/scheduler/dispatcher.go:167-190 | so no recurring event without Count and Until is ever made inactive by the dispatcher |
| Outcomes.EndlessStaysActive | internal/scheduler/dispatcher.go:167-190 | in every run in which handlers write only such active events under an id, it is active as long as it exists |
| Outcomes.SuccessWhenOverInactivates | internal/scheduler/dispatcher.go:157-190 | a logged success of an active event without a schedule or past its Until ends in Inactive, whatever the other workers do, if the worker is not lost, its update succeeds and nobody else writes the event |
| Draining.StepLowers | internal/scheduler/dispatcher.go:253-316 | every step that carries an occurrence on lowers the measure summed over hash, queue, hands and retry set |
| Draining.CarryingStepsAreBounded | internal/scheduler/dispatcher.go:253-316 | without new scheduling, a run has at most as many carrying steps as the measure at its start |
| Draining.Progress | internal/scheduler/dispatcher.go:238-316 | while anything is left, some carrying step becomes possible by waiting alone |
| Draining.CanDrain | internal/scheduler/dispatcher.go:238-316 | from every reachable state with entries from 1970 on, the pipeline can be emptied |
| Draining.BeforeEpochIsStuck | internal/scheduler/scheduler.go:83 | an entry ever comes due for the mover if and only if its second is not negative |
| Draining.GoneStaysGone | internal/repository/event_repository.go:215-248 | once a deleted event is in no worker's hand, no action of it is executed again, while its leftovers still drain |
| Counting.CountCutsWindows | internal/scheduler/expander.go:217-233 | for every schedule and window, whatever has completed: a list holds the instants before Until among the first Count of its window, and is those first Count if and only if all are before Until |
| Counting.CountNeverEndsTheSeries | internal/scheduler/expander.go:217-233 | for every schedule, each instant before Until that a base point at or before it proposes brings a clock reading at which the plan is not empty, however small Count is |
| Counting.SlicedIsForward | internal/scheduler/expander.go:131-212 | that is every instant of the series for schedules whose windows are slices |
| Counting.EveryInstantIsPlanned | internal/scheduler/expander.go:217-219 | without lists each instant of the infinite series heads the plan at some clock reading |
| Counting.ListsAreCounted | internal/scheduler/expander.go:217-219 | no single list is longer than Count |
| Expander.FilterOccurrences | internal/scheduler/expander.go:217-233 | truncating first and filtering by Until afterwards, in place, gives the list the state machine plans; an unknown frequency or an unreadable until gives none |
| Expander.ExpandRecurringEvent | internal/scheduler/expander.go:119-259 | the scheduling loop stores the list's instants without a row, one by one: old entries stay as they are, every new one is a first attempt of a listed instant under its own second; nothing at all when the schedule cannot be read |
| Expander.ExpandNonRecurringEvent | internal/scheduler/expander.go:261-294 | a one-time event gets its entry if and only if its start lies in the closed window and its key has none |
| Expander.PlanningEffect | internal/scheduler/expander.go:237-256 | afterwards the event's keys are the old ones and those of listed instants without a row; other events, queue and retry set are untouched |
| Expander.UpdateReplacesPlan | internal/repository/event_repository.go:251-275 | after remove-then-expand the pending keys of the event are exactly its new list without logged instants; other events' entries are unchanged |
| Expander.OnceReplacesPlan | internal/handlers/event_handler.go:298-308 | after an update a one-time event is pending exactly when its start lies in the closed window, whatever the log says |
| Expander.ReplanUpdatedEvent | internal/handlers/event_handler.go:298-320 | the Redis part of an update, as code, has these effects for one-time and recurring events, first attempts of the new instants only, and plans nothing for a schedule that cannot be read |
| Expander.ReplaceStart | internal/handlers/event_handler.go:243-275 | a new start is stored whatever it is, and never refused |
| Expander.MoverIsRun | internal/scheduler/scheduler.go:82-95 | the mover's script is a run of single moves at one clock reading |
| Expander.PollerIsRun | internal/scheduler/dispatcher.go:220-227 | the poller's script is a run of single moves at one clock reading |
| Expander.ExpansionIsRun | internal/scheduler/expander.go:119-259 | an undisturbed expansion is a run from its clock reading to its end; it hands nothing over, and the whole state it leaves is given |
| Worker.Dispatcher.DispatchAction | internal/scheduler/dispatcher.go:86-193 | success exactly when the event is there, has an action and it succeeds; the row of the attempt, or an attempt-0 row when the event cannot be run; the event inactive exactly when a success leaves it without further occurrences; and the effect of the state machine's steps |
| Worker.Dispatcher.Work | internal/scheduler/dispatcher.go:253-316 | one turn of the worker loop, its whole effect: the item popped, and after a failure with attempts left and an answered ZADD one attempt more in the retry set at the second of now + retryDelay; rows and event as by DispatchAction |
| Worker.Dispatcher.Requeue | internal/scheduler/dispatcher.go:290-313 | a failed item is due again retryDelay later if attempt + 1 < maxRetries and the ZADD is answered, and dropped otherwise |
| Worker.Dispatcher.IsLast | internal/scheduler/dispatcher.go:157-183 | a success is the last of an active event exactly when it is one-time, or Count rows are completed, or Until has passed |
| Worker.Dispatcher.IsFinished | internal/scheduler/dispatcher.go:169-183 | the flag is set if and only if Count is reached by a successful count or Until has passed |
| Worker.TurnIsRun | internal/scheduler/dispatcher.go:253-316 | a worker's undisturbed turn is a run of the state machine from pop to requeue or drop |
| Worker.NewestIsPopped | internal/scheduler/scheduler.go:88 | an item moved is popped before all queued earlier, which stay as they were |
| HalfWrites.StepKeepsSound | internal/scheduler/scheduler.go:36-77 | calls on different keys, each Redis call answered or failed, with the mover, removals and clean-ups outside a half-written key in between: every step keeps hash keys inside sorted-set keys, scores equal the second in the key, and the keys without data are exactly the half-written ones |
| HalfWrites.RunKeepsSound | internal/scheduler/expander.go:82-107 | so does every run of retried calls on different keys with the mover and removals interleaved, and clean-ups that fall between no ZADD and its HSET |
| HalfWrites.StepKeepsInsideIff | internal/scheduler/scheduler.go:63-75 | for any number of calls on any keys: a step keeps the hash inside the sorted set if and only if it is no answered HSET whose score is gone |
| HalfWrites.InsideThroughoutIff | internal/scheduler/scheduler.go:36-95 | throughout a run the hash stays inside the sorted set if and only if no answered HSET finds its score gone |
| HalfWrites.MoverLeavesHalfWritten | internal/scheduler/scheduler.go:85-93 | the mover changes nothing for a due key if and only if it is half written, and otherwise queues its data |
| HalfWrites.RepairCompletes | internal/scheduler/scheduler.go:36-77 | a later complete call on a half-written key is not refused and completes it |
| HalfWrites.ThirdTimeoutGivesUp | internal/scheduler/expander.go:82-107 | in every run a failing Redis call starts ScheduleEvent again if and only if it is a timeout and fewer than two came before; the third timeout or any other error gives the instant up |
| HalfWrites.TwoWritersStrandAnEntry | internal/scheduler/scheduler.go:40-75 | two interleaved calls on one key leave a hash entry that is in no sorted set, after the item was queued |
| HalfWrites.CleanUpStrandsAnEntry | internal/scheduler/dispatcher.go:94-98 | the dispatcher's clean-up between one call's ZADD and HSET leaves the entry in no sorted set, without a second call |
| Actions.WebhookRoundTrip | internal/repository/event_repository.go:35-91 | every nonempty webhook string survives string → action → string |
| Actions.ActionRoundTripIff | internal/handlers/event_handler.go:34-98 | an accepted action survives action → string → action if and only if it holds nothing but its target and is no webhook whose URL reads as a client's name |
| Actions.AcceptedIff | internal/handlers/event_handler.go:34-98 | a request is accepted with a target if and only if its action names it, or, without an action, its nonempty webhook is it; a given action wins and is kept as it is |
| Actions.WebhookActionBecomesWebsocket | internal/repository/event_repository.go:43-46 | a webhook action with URL "q:" and more is accepted and stored as a websocket action |
| Actions.InStepIffKept | internal/repository/event_repository.go:135-151 | a row that loads with a target is unchanged by load and save if and only if its two columns agree |
| Actions.ResavedOnceIsForAll | internal/repository/event_repository.go:172-213 | one load and save settles any row that loads with a target; further ones change nothing |
| Actions.CreatedIsStable | internal/handlers/event_handler.go:100-166 | after a create the webhook is the requested one, the action is the requested one exactly when it is plain, and any number of loads and saves leaves both |
| Actions.MigrationAgreesIff | migrations/002_add_action_system.sql:11-17 | the migration derives the same action as the program for every webhook string but "q:", and one save reconciles that one |
| Actions.ColumnsStayInStep | internal/handlers/event_handler.go:208-293 | in every run of creates, updates and auto-inactivations the two columns of every row agree |
| Actions.Repository.PopulateWebhookFromAction | internal/repository/event_repository.go:67-91 | sets the webhook field from readable params, and leaves it otherwise |
| Actions.Repository.DeriveAndSetAction | internal/repository/event_repository.go:35-63 | a nonempty webhook decides the action; otherwise the action decides the webhook |
| Actions.Repository.Create | internal/repository/event_repository.go:93-133 | the event is brought into step and the new row reads back as it |
| Actions.Repository.GetByID | internal/repository/event_repository.go:135-151 | a fresh event with the row's action and the webhook that the action names |
| Actions.Repository.Update | internal/repository/event_repository.go:172-213 | the event is brought into step and its row replaced, or reported missing |
| Actions.Repository.HandleCreate | internal/handlers/event_handler.go:118-166 | a request that asks for a target and is otherwise valid stores that target with its action; any other leaves the table alone |
| Actions.Repository.HandleUpdate | internal/handlers/event_handler.go:208-297 | the action wins over the webhook, and what is asked for is stored; neither keeps both columns; a refusal leaves the table alone |
| RateLimit.StoredInRange | internal/middleware/rate_limit.go:109-125 | in every run the stored tokens lie in 0..bucketSize − 1 |
| RateLimit.AdmissionBound | internal/middleware/rate_limit.go:88-131 | over any run of T seconds with r expiries at most bucketSize·(r + 1) + refillRate·T requests are admitted |
| RateLimit.BurstAdmitsExactly | internal/middleware/rate_limit.go:88-131 | after any run, of n prompt requests exactly min(n, tokens stored + refillRate for every whole second since, up to bucketSize) are admitted while the keys live, and min(n, bucketSize) without them |
| RateLimit.ExpiriesAreAWindowApart | internal/middleware/rate_limit.go:124-125 | two fresh buckets are at least windowInSec apart |
| RateLimit.ExpiriesFitInTheRun | internal/middleware/rate_limit.go:124-125 | a run holds no more expiries than windows |
| RateLimit.PlainBoundIff | internal/middleware/rate_limit.go:88-131 | bucketSize + refillRate·T bounds every run of prompt requests, whatever expires, if and only if bucketSize ≤ refillRate·windowInSec |
| RateLimit.DefaultsBreakTheBound | internal/middleware/rate_limit.go:12-17 | the default limits do not satisfy that bound |
| RateLimit.Bucket.Allow | internal/middleware/rate_limit.go:70-131 | admitted exactly when the tokens seen and the refill since the last second seen, up to bucketSize, are positive; then one less is stored with the second and a new deadline; a refused request writes nothing |

## Left out

- Inactivation.InactivatedInTime: assumes that the count query and the event update succeed and that nobody edits, deletes or archives the event; a failed update leaves the event active until the next success.
- AtMostOnce.MovedAtMostOnce: for expansions during which the clock stands still and the mover leaves the event's entries alone; without that, or for one-time events, it fails (`LookAndWriteRace`, `OneTimeEventIsMovedTwice`). The exact condition is `WholeExpansionsMoveOnceIff` for expansions with nothing in between, and `MovedOnceIff` for all runs.
- Conservation.RunConserves: ZADD and HSET of one call are one step here, and so are ZREM and HDEL; an entry stranded by splitting the first pair is in `TwoWritersStrandAnEntry`.
- Pipeline.AfterFetch: a failing read of an event, the diagnostic row and the removal that follow it are one step.
- Expansions from an event object that is no longer the row: `Begin` and `BeginOnce` read the row at the clock reading of the expansion, while the program passes the object that `ListActive` or a handler read earlier (internal/scheduler/expander.go:53-76, internal/handlers/event_handler.go:306-320). An expansion from a stale or deleted event is not a run of the model.
- Archive.Database.ArchiveOldData: the four statements with nothing in between, as in the state machine's archiving step; `InterleavedRowsIff` and `InterleavedEventsIff` say what holds with inserts in between. Updates and deletions in between are not modelled.
- NoMissed.NoInstantIsMissed: for events without Count whose instants are the same in every window; with Count the first instants of each window are planned instead.
- HalfWrites.RunKeepsSound: calls in progress are on different keys, and no clean-up falls between a ZADD and its HSET; otherwise it fails (`TwoWritersStrandAnEntry`, `CleanUpStrandsAnEntry`). `InsideThroughoutIff` is exact for the hash and the sorted set without these conditions.
- RateLimit.PlainBoundIff: requests in which clock reading, Redis reads and write fall on one instant; `AdmissionBound` covers slow ones. A window of 0 seconds, which sets no expiry, is not modelled.
- Worker.Dispatcher.Work: a turn at one clock reading; the state machine lets the clock and every other goroutine move between any two calls.
- Durations and instants are unbounded integers: overflow of `time.Duration` at about 292 years is not modelled.
- JSON, RFC 3339 and UUID texts: read as abstract values; a malformed `until` is one value that the handlers refuse. Strings are taken to be valid UTF-8.
- Two instants of one event inside one second share a Redis key, and only one is planned; the no-missed statement therefore accounts for instants by their second.
- Intervals below 1, with which the expansion loops do not stop (`LoopsStopIff`): refused by the handlers, so no run expands one.
- Ambiguous Redis timeouts (written, but reported as failed): a Redis error has no effect here. A worker crash, a marshal error and a failed requeue are steps into the fate `Lost`.
- The columns of an event that are copied along and never decide anything (name, description, metadata, tags, HMAC secret, updated_at).
- The status check of `ListActive` before an expansion: the state machine lets any existing event be expanded, as the handlers do.
- Executors, HTTP, HMAC signing, tokens, websocket registry and round-robin: `Execute` is an arbitrary success or failure.
- `PopDispatchQueue`, `AddEvent` and `calculateNextOccurrence` (internal/scheduler/scheduler.go:108-199): no part of the running system calls them.
- The archiver's advisory lock and its period check: when it runs is arbitrary here.
- Analytics and metrics tables, listing queries, configuration, logging.
