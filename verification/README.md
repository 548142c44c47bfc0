# Verified model of the ProjTrack backend's protocols

ProjTrack is a NestJS backend over PostgreSQL. Most of it stores and lists records; this project models the parts that are protocols, schedulers or relational computations, and proves what they keep over all inputs, all runs and all interleavings. Tables are maps from ids to rows, a conditional `updateMany` or a `$transaction` is one step, and the reads before it are separate steps wherever the code separates them and the property is meant to survive that.

| file | subject |
|---|---|
| `Calendar.dfy`, `BackupSchedule.dfy` | civil dates at a constant zone offset; next and latest scheduled backup |
| `BackupRuns.dfy`, `BackupTicks.dfy`, `BackupRetention.dfy`, `BackupVault.dfy` | the table of backup runs: worker ticks, retention, delete and protect, over time and interleaved |
| `MailQueue.dfy`, `MailMeaning.dfy`, `MailRuns.dfy`, `MailGuarantees.dfy`, `MailPromise.dfy`, `MailLateWrites.dfy`, `MailLimits.dfy` | the mail queue: statements and services, what each statement means for worker, admins and callers, all runs, what they guarantee, which steps keep the promise, runs that break it, send limits |
| `AuthSessions.dfy`, `AccountTokens.dfy`, `AccountRecovery.dfy` | refresh-session rotation, account links, activation and password reset |
| `RateLimits.dfy`, `LoginThrottle.dfy` | the HTTP limiter in its two forms, the login throttle |
| `SeedSections.dfy`, `SeedCandidates.dfy`, `SeedMeaning.dfy`, `SeedCleanup.dfy`, `SeedOverlooked.dfy` | seed cleanup: candidates, blockers and what these mean, the delete transaction, databases that it fails on |
| `DeletionLifecycle.dfy`, `DeletionExecutor.dfy` | data-deletion requests and executions, the twelve deletion steps |

How to read it. A service that changes rows in place is a `class` whose methods are proved equal to functions of the old table; the theorems are about those functions. What such a function does is also said without its own words, in lemmas named `...Means` and `...Exact`: which later query finds the row, which call is refused, what becomes of all other rows; and lemmas named `...Follow...` tie the steps of the runs to the services. A run is a sequence of events from a state, `Enabled` says when an event can happen, `After` what it does; an answer of a database query, such as the first of several rows, is a parameter that is only known to satisfy the query. `ValidRun` and `AfterAll` extend both to sequences. Calendar arithmetic follows sections 21.4.1.3 and 21.4.1 of ECMA-262; session rotation has the shape of section 4.14.2 of RFC 9700.

Some promises do not hold of the code as it stands. For each there is a concrete run or input that breaks it, and a lemma that says exactly when it holds:

| promise | broken by | holds exactly when |
|---|---|---|
| the mail queue keeps its bookkeeping: attempts, locks, holders, snapshots | `MailLateWrites.LateRetryStrands`, `LateArchiveHides` | `MailRuns.AlwaysOkExactly`: no retry or refresh lands on a job with a live holder, no cancellation either unless the job is keyless and on its last attempt, no archiving on a waiting or processed job, and recovery takes no live worker's lock |
| no mail job is stranded | `MailLateWrites.LateRetryStrands`, `LateArchiveHides` | together with the next: `MailPromise.PromiseExact` |
| no mail job is sent twice, and a SENT record stays | `MailLateWrites.LateCancelSendsTwice`, `SlowWorkerSendsTwice`, and `OverlappingCreatesSendTwice`, whose bookkeeping is in order throughout | `MailPromise.PromiseExact`: both hold, whatever comes next, exactly if the bookkeeping is kept and no bounce, no createJob after the window and no late retry, refresh or cancellation finds the job SENT; any other step takes the record away, or some continuation strands the job or sends it twice |
| a SENT record stays, when the bookkeeping is in order | `MailLateWrites.OverlappingCreatesSendTwice` | `MailGuarantees.SentStandsExactly`: none of these finds the job SENT; `AtMostOneSent` follows |
| retention spares the run that a tick has just made | `BackupTicks.OvertakenRetentionRunsTwice` | `BackupTicks.NewRunSparedExactly`: whatever the queries answer about ties, if it is protected, failed, or fewer than `retentionCount` other successes ended no earlier; and it is retired whatever they answer if that many ended later. `ExactlyOnePerOccurrence` then counts the runs |
| the newest backup is never deleted | `BackupVault.TiedBackupsBothVanish`, `RetractedBackupLeavesNone` | `BackupVault.SurvivalExact`: at every moment one success ended last, and its `createBackup` has returned |
| after a revoke-all or a password reset no earlier login is live | `AuthSessions.StoredAfterwards` | `AuthSessions.EscapesExactly`, `AccountRecovery.OvertakenLoginEscapes`: for every login but those that had checked the password and not yet stored their session |
| a user has one live link of a kind | `AccountTokens.OverlappingIssuesBreak` | `AccountTokens.SoundExactly`: an interrupted issue creates when there is none, and revokes what is unused |
| a reset link that is handed out works | `AccountRecovery.ResetForActiveAccountFails` | `AccountRecovery.WorksExactly`; over runs `AccountTokens.NeverUsedWhileActive` |
| decisions on deletion requests stand | `DeletionLifecycle.OverlappingReviewsBreak`, `OverlappingRequestsBreak` | `DeletionLifecycle.RunsExact`: every late write finds the request pending or as it writes it, and no other pending one |
| a deletion starts with its backup there | `DeletionLifecycle.LateStartLosesBackup` | `DeletionLifecycle.LateStartExact`: the last events on the execution and on the backup left them verified and usable |
| a repeated deletion changes nothing | `DeletionExecutor.SecondRunChanges` | `DeletionExecutor.SecondRunExact`: no mail is addressed to the anonymised address, or that was the user's before |
| a cleanup without blockers goes through | `SeedOverlooked.CourseIsOverlooked`, `RequestIsOverlooked`, `EnrollmentIsOverlooked` | `SeedCleanup.CleanupExact`: no row of these three kinds is there |
| both HTTP limiters answer alike | `RateLimits.FirstRequestDiffers` | `RateLimits.LimitersAgree`: every maximum is at least one |

## Model

| member | source | states |
|---|---|---|
| Calendar.YearOf | backend/src/backups/backups.service.ts:870-893 | the year returned is the one whose days contain the given day, for every day before or after 1970 |
| Calendar.MonthOf | backend/src/backups/backups.service.ts:870-893 | the month returned is the one whose days contain the given day |
| Calendar.MonthOfUnique | backend/src/backups/backups.service.ts:870-893 | no other month contains it, so zoned parts are unambiguous |
| Calendar.PartsName | backend/src/backups/backups.service.ts:870-893 | the parts of an instant are in range and name its local day and time |
| Calendar.PartsRoundTrip | backend/src/backups/backups.service.ts:904-908 | `Date.UTC` of the zoned parts is the instant moved by the offset, to the second; hence the offset recovered from a formatted date is the zone's |
| Calendar.UtcRoundTrip | backend/src/backups/backups.service.ts:870-908 | conversely the parts of a `Date.UTC` value are its arguments when these are in range |
| Calendar.DaysInMonthIsLength | backend/src/backups/backups.service.ts:910-912 | day 0 of the following month is the number of days between the starts of the two months, December included |
| Calendar.MonthLengths | backend/src/backups/backups.service.ts:910-912 | the length of each month, written out: 30 days, 31, or 28 and in leap years 29 |
| Calendar.Epoch | backend/src/backups/backups.service.ts:870-893 | time 0 is midnight of Thursday 1 January 1970 |
| Calendar.NextDay | backend/src/backups/backups.service.ts:870-893 | a day later it is the same time on the next weekday and the next date, over the ends of months and years |
| Calendar.ZonedTimeToUtc | backend/src/backups/backups.service.ts:895-902 | the two-pass loop ends at the instant with that local wall-clock time, for any day and month overflow |
| Calendar.StartsAscend | backend/src/mail/mail-limit.service.ts:45-51 | the start of the local day and of the local month never move back in time and never lie ahead of the instant |
| Calendar.StartsExact | backend/src/mail/mail-limit.service.ts:45-51 | an earlier instant lies in the current local day, or month, exactly if it has the same date, or year and month |
| BackupSchedule.Normalize | backend/src/backups/backups.service.ts:752-769 | whatever is entered, the stored settings are in range and a setting already in range is kept |
| BackupSchedule.NormalizeNearest | backend/src/backups/backups.service.ts:752-769 | each stored number is the one in range nearest to what was entered |
| BackupSchedule.WrittenIsRead | backend/src/backups/backups.service.ts:756-757 | a time of day written HH:MM is read back |
| BackupSchedule.OtherTextIsTwo | backend/src/backups/backups.service.ts:756-757 | and any other text means 02:00 |
| BackupSchedule.OccurrenceIsScheduled | backend/src/backups/backups.service.ts:808-868 | every occurrence, counted in days, weeks or months, is an instant the settings name (local time, weekday, clamped day of the month) |
| BackupSchedule.ScheduledIsOccurrence | backend/src/backups/backups.service.ts:808-868 | and there are no other instants the settings name |
| BackupSchedule.OccurrencesAscend | backend/src/backups/backups.service.ts:808-868 | consecutive occurrences are at least a day apart, in order |
| BackupSchedule.ComputeNextIsNext | backend/src/backups/backups.service.ts:808-846 | the computed next backup is the least scheduled instant after `from`, for every instant, offset and daily, weekly or monthly setting, on the calendar that `MonthLengths`, `Epoch` and `NextDay` pin down |
| BackupSchedule.LatestIsLatest | backend/src/backups/backups.service.ts:793-806 | the computed latest occurrence is the greatest scheduled instant at or before `now`, through the shift by a day, a week or a clamped month |
| BackupSchedule.ShiftsExactly | backend/src/backups/backups.service.ts:848-868 | a shift by any number of days or months lands exactly that many on, at the time of the settings and on a day that they name |
| BackupSchedule.CustomAddsHours | backend/src/backups/backups.service.ts:793-812 | with a custom interval the next backup is that many hours on, and the latest one is known for intervals of at most a day |
| BackupRuns.BackupsService.CreateBackup | backend/src/backups/backups.service.ts:165-259 | a run is left RUNNING if its worker dies, ends COMPLETED with its expiry, or FAILED, be it before or after its COMPLETED update; no other run changes |
| BackupRuns.BackupsService.CleanupExpired | backend/src/backups/backup-retention.service.ts:14-75 | exactly the expired runs whose artifact could be removed are marked deleted; each expired run is counted once, as deleted or as failed |
| BackupRuns.BackupsService.Tick | backend/src/backups/backup-worker.service.ts:40-55 | a run starts exactly if one is due and, in the table met then, none is recently running; if it ends, retention works on the table it meets by then |
| BackupRuns.BackupsService.Delete | backend/src/backups/backups.service.ts:339-376 | which refusal is given, and that only a permitted delete changes the table |
| BackupRuns.BackupsService.Protect | backend/src/backups/backups.service.ts:317-337 | only a live run changes, and dropping protection needs confirmation |
| BackupTicks.DueWithin | backend/src/backups/backups.service.ts:771-791 | a tick between two scheduled instants starts a run exactly if none started since the first of them |
| BackupTicks.DueAfterInterval | backend/src/backups/backups.service.ts:771-791 | with a custom interval a backup is due exactly if every live automatic run started at least that long ago |
| BackupTicks.StartsUnlessRunning | backend/src/backups/backups.service.ts:261-315 | a due backup starts exactly if backups are enabled and no automatic run of the last two hours is still running |
| BackupTicks.DeadRunBlocks | backend/src/backups/backups.service.ts:165-315 | a run whose worker dies stays running: it holds up automatic starts for two hours, and neither retention nor a delete takes it; any other end holds up nothing |
| BackupTicks.StartsBounded | backend/src/backups/backups.service.ts:261-315 | over any events, the runs started between two scheduled instants, with one on record before, are at most one more than the times that record was lost; and one starts or is on record if a tick falls there |
| BackupTicks.ExactlyOnePerOccurrence | backend/src/backups/backups.service.ts:261-315 | from any settled table, with anything happening between and within the ticks: between two scheduled instants at least one automatic run starts if a tick falls there, exactly one if its record is not lost, and in general exactly one for each time it was lost and one for the one on record at the end |
| BackupTicks.NewRunSparedExactly | backend/src/backups/backup-retention.service.ts:19-47 | every answer of the two queries spares the run that the tick has just made exactly if it is protected, failed, or fewer than `retentionCount` other unprotected successes ended no earlier; every answer retires it exactly if it is neither and that many ended later |
| BackupTicks.SavedIsSpared | backend/src/backups/backup-retention.service.ts:19-47 | the first condition spares it in any pass, however many runs are expired |
| BackupTicks.ExactlyOneWhenCareful | backend/src/backups/backup-worker.service.ts:40-55 | so exactly one run starts when nobody deletes a run of the interval and no retention is overtaken by that many successes, though retention follows each backup |
| BackupTicks.OvertakenRetentionRunsTwice | backend/src/backups/backup-retention.service.ts:33-47 | with a count of one, a manual backup that ends between the end of the automatic one and the retention of the same tick has the next tick, at any later time of the interval, start a second automatic run |
| BackupRetention.KeepsNewestOf | backend/src/backups/backup-retention.service.ts:19-31 | the keep set of a pass contains the newest `retentionCount` unprotected successful runs |
| BackupRetention.PassKeepsNewest | backend/src/backups/backup-retention.service.ts:33-66 | whatever ties there are, the newest unprotected successful runs after a pass were the newest ones before it |
| BackupRetention.PassShrinks | backend/src/backups/backup-retention.service.ts:33-66 | a pass that retires anything leaves fewer live runs |
| BackupRetention.RetentionConverges | backend/src/backups/backup-retention.service.ts:19-66 | retiring passes at a fixed clock are at most as many as the live runs; once a pass retires nothing, the unprotected successful runs left are the newest `retentionCount` of the original ones, and at most one more, tied with all of these |
| BackupRetention.PickedBounds | backend/src/backups/backup-retention.service.ts:19-47 | however ties are listed, a listed run within its retention period is left if it failed or fewer than `retentionCount` others ended no earlier, and picked if it succeeded and that many ended later |
| BackupRetention.FailedPickedByAge | backend/src/backups/backup-retention.service.ts:33-47 | a failed run is picked exactly if it ended before the retention period or its expiry is over |
| BackupRetention.RetiresUpToFifty | backend/src/backups/backup-retention.service.ts:33-66 | a pass works on at most fifty runs, and on all that are picked if no more are listed |
| BackupRetention.RankBounds | backend/src/backups/backup-retention.service.ts:19-31 | the place of a success among the listed ones lies between the number of those that ended later and of those that ended no earlier |
| BackupRetention.Arranged | backend/src/backups/backup-retention.service.ts:19-31 | the queries may answer with a run listed before, or after, all that ended with it, and with another latest if there is one as new |
| BackupVault.NewestSurvivesStep | backend/src/backups/backups.service.ts:339-376 | no step of any interleaving of backups, retention, delete and protect, decided and written apart, takes away the newest returned success, if decisions are taken while the newest success has returned and no other ended with it |
| BackupVault.NewestSurvives | backend/src/backups/backup-retention.service.ts:19-66 | so over every run a success at least as new as each returned one remains |
| BackupVault.NewestSurvivesExactly | backend/src/backups/backups.service.ts:339-376 | deletions, retention and protection can lose the newest success exactly if at that moment it is tied or not yet returned, whatever had been decided before |
| BackupVault.SurvivalExact | backend/src/backups/backups.service.ts:202-376 | over every run of backups, backfills, deletions, retention and protection, the newest success is safe at every moment exactly if at every moment it is untied and returned |
| BackupVault.ShieldedForever | backend/src/backups/backups.service.ts:317-376 | over every run of backups, backfills, deletions and retention, a protected run on which nobody had decided before stays, live and protected, until someone unprotects it |
| BackupVault.DeleteDoneExactly | backend/src/backups/backups.service.ts:339-376 | an admin deletes exactly a live, ended, unprotected run that is not the newest success, with confirmation |
| BackupVault.RunsFollowService | backend/src/backups/backups.service.ts:165-376 | the steps of the runs, with nothing in between, are the backup and the delete of the service |
| BackupVault.DecisionsFollowService | backend/src/backups/backup-retention.service.ts:19-66 | likewise a run recorded for an artifact that was found, and retention decides on exactly the expired runs |
| BackupVault.TiedBackupsBothVanish | backend/src/backups/backups.service.ts:339-376 | a run in which both of two tied backups are deleted |
| BackupVault.RetractedBackupLeavesNone | backend/src/backups/backups.service.ts:202-242 | a run in which an older backup is deleted for a newer one that then turns FAILED because its audit record could not be written |
| MailQueue.WithBudget | backend/src/mail/mail.worker.ts:185 | only found rows with attempts left are worked on |
| MailQueue.MailWorker.Claim | backend/src/mail/mail.worker.ts:186-206 | the compare-and-set wins exactly if the row is due, unarchived and still has the attempts and maximum that were read |
| MailQueue.MailWorker.ProcessClaimedJob | backend/src/mail/mail.worker.ts:229-427 | the outcome written for each of suppression, render failure, limit, delivery and error, an error's retry at the delay of that attempt; and the pause of the siblings of a bulk job |
| MailQueue.MailWorker.PausePendingBulkJobs | backend/src/mail/mail.worker.ts:575-611 | exactly the waiting bulk jobs of the same batch, or else of the same campaign, other than the job itself are paused |
| MailQueue.MailWorker.ProcessQueueType | backend/src/mail/mail.worker.ts:174-227 | the loop over the found rows equals one turn per usable row, in order, within the worker's share |
| MailQueue.MailWorker.RecoverStaleLocks | backend/src/mail/mail.worker.ts:429-496 | each stale row is requeued or declared dead by the attempts that were read, if it still holds that lock |
| MailQueue.MailService.RetryJob | backend/src/mail/mail.service.ts:596-648 | retry is refused for missing, sent, cancelled, waiting and processing jobs and for non-retryable dead ones without force; else the job is queued anew |
| MailQueue.MailService.CancelJob | backend/src/mail/mail.service.ts:486-512 | only a queued job can be cancelled |
| MailQueue.MailService.ArchiveJob | backend/src/mail/mail.service.ts:514-535 | only a sent, dead or cancelled job can be archived, and its first archiving time stays |
| MailQueue.MailService.CreateJob | backend/src/mail/mail.service.ts:650-750 | a job that holds the key is reused while processing or in its window, else refreshed; without one a job is created |
| MailQueue.MailWebhookService.HandleResendWebhook | backend/src/mail/mail.webhook.service.ts:45-181 | an event is recorded once; a new bounce or complaint suppresses the address and kills the job of its message |
| MailMeaning.ClaimMeans | backend/src/mail/mail.worker.ts:186-204 | when a claim wins, and that a claimed job has one attempt less left, is held under one lock and is due for nobody |
| MailMeaning.SuppressionMeans | backend/src/mail/mail.worker.ts:246-260 | a suppressed job is never due, sent or retried; only createJob queues it again |
| MailMeaning.UnrenderableMeans | backend/src/mail/mail.worker.ts:275-302 | a job that cannot be rendered is never due, and retried only by force |
| MailMeaning.LimitMeans | backend/src/mail/mail.worker.ts:555-573 | a job at a send limit is due for nobody until an admin resumes or retries it, with the attempt given back |
| MailMeaning.DeliveryMeans | backend/src/mail/mail.worker.ts:357-374 | a delivered job is SENT with the delivery's data and never due or retried again |
| MailMeaning.FailureMeans | backend/src/mail/mail.worker.ts:386-413 | a failed job waits for the worker exactly if it may be retried and has attempts left, and else for an admin |
| MailMeaning.ConcludeMeans | backend/src/mail/mail.worker.ts:229-427 | the outcome changes its own row and, for a bulk job at a limit, exactly the waiting siblings |
| MailMeaning.BatchExact | backend/src/mail/mail.worker.ts:185 | a found row with attempts left is worked on, in its place, exactly if fewer of these come before it than the worker takes |
| MailMeaning.StaleExactly | backend/src/mail/mail.worker.ts:429-465 | a lock is stale exactly when older than the wait, which a missing or old heartbeat shortens |
| MailMeaning.RecoversExactly | backend/src/mail/mail.worker.ts:467-494 | recovery changes exactly the rows still under the lock that was read: queued, or dead when no attempt was left |
| MailMeaning.RecoveredIsDue | backend/src/mail/mail.worker.ts:467-494 | a recovered job is due at once exactly if it had attempts left; else an admin may retry it without force |
| MailMeaning.RetryAllowedExactly | backend/src/mail/mail.service.ts:596-648 | which jobs may be retried, and which only by force |
| MailMeaning.RetryMeans | backend/src/mail/mail.service.ts:628-646 | a retried job is due at any time, with no attempt spent and no trace of an earlier delivery |
| MailMeaning.ResumeMeans | backend/src/mail/mail.service.ts:447-474 | so is a resumed one; and which paused jobs a selection names |
| MailMeaning.CancelMeans | backend/src/mail/mail.service.ts:486-512 | a cancelled job is never due or retried, and createJob may queue its key anew |
| MailMeaning.ArchiveMeans | backend/src/mail/mail.service.ts:514-535 | an archived job is never due, keeps its first archiving time and is else as it was |
| MailMeaning.ReusedExactly | backend/src/mail/mail.service.ts:680-692 | the holder of a key is answered with exactly while processed, or in its window while waiting, paused or sent |
| MailMeaning.CreateMeans | backend/src/mail/mail.service.ts:694-748 | a created or refreshed job is due from its scheduled time on, paused with its own batch or campaign only, and keeps its key for its window |
| MailMeaning.MailboxExact | backend/src/mail/mail.webhook.service.ts:45-181 | over any reports, repeated or not: exactly the addresses named by the first bounce or complaint of an event are suppressed, exactly the jobs whose message one names are dead, and nothing else changes |
| MailRuns.ClaimKeeps | backend/src/mail/mail.worker.ts:185-206 | a claim keeps the invariants of the job it may win |
| MailRuns.HolderKeeps | backend/src/mail/mail.worker.ts:229-427 | so does every step of the worker that holds the job, a crash included |
| MailRuns.RecoveryKeeps | backend/src/mail/mail.worker.ts:429-496 | so does recovery from a snapshot of any age, exactly if it takes no lock of a live worker |
| MailRuns.OutsideKeeps | backend/src/mail/mail.service.ts:447-750 | so do the admin operations and createJob where nothing comes between check and write, the pausing of siblings and bounces |
| MailRuns.StepKeeps | backend/src/mail/mail.worker.ts:174-496 | every step, late writes included, keeps exactly if it is timely: attempts within the budget and strictly so while waiting, a lock exactly while processing, attempt numbers 1, 2, 3, ..., one hand-off per claim, every acceptance accounted for, snapshots that match only the latest claim |
| MailRuns.LateWriteExact | backend/src/mail/mail.service.ts:486-648 | a retry or refresh that lands at any time after its check keeps the job in order exactly if no live worker holds it, a cancellation also if the job is keyless and on its last attempt; an archiving exactly if the job is settled or paused |
| MailRuns.StaleRowsAreOld | backend/src/mail/mail.worker.ts:429-465 | what recovery selects, with a fresh or a stale heartbeat, is older than the shorter of its two waits |
| MailRuns.KeysKeep | backend/src/mail/mail.service.ts:675-748 | there is never more than one job for an idempotency key |
| MailRuns.AlwaysOk | backend/src/mail/mail.worker.ts:174-496 | every state of the whole queue reached by timely steps keeps all of this for every job |
| MailRuns.AlwaysOkExactly | backend/src/mail/mail.service.ts:486-750 | a run of any workers, crashes, recoveries, admins and createJob calls, checks and writes apart, stays in order throughout exactly if every write by id and every recovery in it is timely |
| MailRuns.RunsFollowTable | backend/src/mail/mail.service.ts:447-559 | the runs take exactly the statements of the services when these concern many rows |
| MailRuns.RecoveryFollowsTable | backend/src/mail/mail.worker.ts:467-494 | likewise for recovery |
| MailRuns.ClaimFollowsTable | backend/src/mail/mail.worker.ts:186-206 | likewise for the claim |
| MailRuns.TurnFollowsTable | backend/src/mail/mail.worker.ts:186-413 | likewise for the whole turn of a worker, from the claim to the outcome it writes |
| MailRuns.CreateFollowsTable | backend/src/mail/mail.service.ts:675-748 | likewise for createJob |
| MailRuns.CallsFollowService | backend/src/mail/mail.service.ts:486-748 | a retry, cancellation, archiving or refresh whose write follows its check at once is the operation of the service, and one that is refused changes nothing |
| MailRuns.CountersCount | backend/src/mail/mail.worker.ts:304-374 | over any steps on a job the counters that the guarantees speak of grow by exactly the acceptances, SENT records and, until a reset, hand-offs among them |
| MailGuarantees.NoJobStranded | backend/src/mail/mail.worker.ts:50-60 | in every reachable state a due job passes the worker's filter, and a claim by whoever has just read it wins |
| MailGuarantees.HandoffsWithinBudget | backend/src/mail/mail.worker.ts:185-204 | in every reachable state a job has been handed to the provider at most maxAttempts times since its last reset |
| MailGuarantees.WinsOnlyGrow | backend/src/mail/mail.worker.ts:186-206 | between resets the list of won claims only grows |
| MailGuarantees.EachAttemptWonOnce | backend/src/mail/mail.worker.ts:186-206 | each attempt number has one winner for good, and no claim from an older read ever wins |
| MailGuarantees.RecoverySparesLaterClaims | backend/src/mail/mail.worker.ts:445-475 | a recovery that changes a row had read the row's latest claim |
| MailGuarantees.MeasureFalls | backend/src/mail/mail.worker.ts:185-496 | each claim, outcome, pause, recovery and cancellation lowers a measure of the job |
| MailGuarantees.WorkIsBounded | backend/src/mail/mail.worker.ts:185-496 | over every run without a reset the statements that move a job are at most twice maxAttempts |
| MailGuarantees.SentEndsOnlyBy | backend/src/mail/mail.service.ts:680-692 | a SENT record ends by a bounce of its message, by a createJob when the window is over, or by a retry, refresh or cancellation that had checked the job before, and by nothing else |
| MailGuarantees.SentStandsExactly | backend/src/mail/mail.service.ts:486-750 | over every run that is in order, the SENT record of a job stands throughout exactly if none of these finds the job SENT |
| MailGuarantees.AtMostOneSent | backend/src/mail/mail.service.ts:675-748 | in such a run, as long as none of these finds it SENT, a job is recorded SENT at most once, and accepted at most once more than acceptances are lost before the SENT write |
| MailPromise.StepExact | backend/src/mail/mail.service.ts:486-750 | a step on a job in order keeps the promise exactly if it is timely and takes no SENT record away; otherwise the record is gone, or some continuation strands the job or sends it twice |
| MailPromise.UntimelyBreaksPromise | backend/src/mail/mail.service.ts:486-648 | every untimely write by id and every recovery from a live worker has a continuation that strands the job or sends it twice |
| MailPromise.EndedIsSentAgain | backend/src/mail/mail.service.ts:680-692 | a job whose SENT record is taken away can be sent a second time |
| MailPromise.PromiseExact | backend/src/mail/mail.service.ts:486-750 | over every run of workers, crashes, recoveries, bounces, admins and createJob calls: every step keeps the promise to every job exactly if every step is timely and none takes a SENT record away |
| MailPromise.FineRunsKeep | backend/src/mail/mail.worker.ts:174-496 | in such a run no job is ever stranded and none is recorded SENT twice |
| MailPromise.FollowsIsRun | backend/src/mail/mail.worker.ts:174-496 | every continuation of a job is a run of any queue that holds it |
| MailLateWrites.LateCancelSendsTwice | backend/src/mail/mail.service.ts:486-512 | a valid run, without crash or bounce, in which a late cancellation has a message sent twice within the window of its key |
| MailLateWrites.LateRetryStrands | backend/src/mail/mail.service.ts:596-648 | a valid run of two overlapping retries that leaves a due job which no worker will take |
| MailLateWrites.LateArchiveHides | backend/src/mail/mail.service.ts:514-535 | a valid run in which a late archiving leaves a queued job that no query for due jobs ever finds |
| MailLateWrites.SlowWorkerSendsTwice | backend/src/mail/mail.worker.ts:357-475 | a valid run of two workers, neither of which crashes, in which a recovered job is sent and recorded by both |
| MailLateWrites.OverlappingCreatesSendTwice | backend/src/mail/mail.service.ts:675-748 | a valid run of workers and two overlapping createJob calls, with every state in order and no crash, in which a message is sent twice within the window of its key |
| MailGuarantees.LimitUndoesClaim | backend/src/mail/mail.worker.ts:555-573 | a claim that ends at a send limit costs no attempt: but for the provider the job is as if paused unclaimed |
| MailGuarantees.QueuedAnewIsDue | backend/src/mail/mail.service.ts:459-474 | what an admin retries or resumes is due at once with its whole budget |
| MailGuarantees.ResumeFreesPaused | backend/src/mail/mail.service.ts:447-483 | resuming changes exactly the paused jobs of the batch and campaign: these are due at once with their whole budget, none stays paused, rows stay in order, and resuming again does nothing |
| MailGuarantees.ArchiveHidesNoWork | backend/src/mail/mail.service.ts:537-559 | archiving old jobs changes exactly the settled, unarchived ones, and of these only the archiving time; what is due stays due, and a second pass changes nothing |
| MailGuarantees.RetryWaits | backend/src/mail/mail.worker.ts:386-413 | after a failure a job is due again exactly if it was retryable, attempts are left and the delay is over |
| MailGuarantees.ErrorWaits | backend/src/mail/mail.worker.ts:386-413 | after an error outcome the job is due exactly if it was retryable, attempts are left and the delay of that attempt, the last one beyond the list, has passed; no other row changes |
| MailGuarantees.FailedTurnWaits | backend/src/mail/mail.worker.ts:186-413 | so is a job whose turn, from the claim on, ends in an error |
| MailGuarantees.RetriesBackOff | backend/src/mail/mail.worker.ts:541-547 | with growing delays no retry waits less than the one before |
| MailGuarantees.RedeliveryChangesNothing | backend/src/mail/mail.webhook.service.ts:55-73 | an event that the provider delivers again, at any later time, changes nothing |
| MailGuarantees.PassSettlesWhatItClaims | backend/src/mail/mail.worker.ts:174-227 | an undisturbed pass keeps every row in order and leaves no lock of its own, nor touches one of others |
| MailLimits.EnvNumber | backend/src/mail/mail-limit.service.ts:35-43 | a limit is the first positive setting rounded down, or the fallback if there is none |
| MailLimits.AllowedExact | backend/src/mail/mail-limit.service.ts:61-122 | a send is allowed exactly when every window it would count in has room; `AllowedMeans` writes the windows out |
| MailLimits.WindowExact | backend/src/mail/mail-limit.service.ts:144-206 | a row counts in the minute exactly if it was sent at most 60 seconds ago, in the day if on the same local date, in the month if in the same year and month |
| MailLimits.UsedExact | backend/src/mail/mail-limit.service.ts:171-206 | what is counted is the number of SENT rows of the provider, and for the minute of the kind, in that window |
| MailLimits.AllowedMeans | backend/src/mail/mail-limit.service.ts:61-122 | a send is allowed exactly if in each window it counts in fewer rows than the limit were sent so recently |
| MailLimits.RefusalNamesWindow | backend/src/mail/mail-limit.service.ts:77-115 | a refusal names the month if that is full, else the day, else the minute of the kind |
| MailLimits.LimitsFollow | backend/src/mail/mail-limit.service.ts:144-167 | which setting gives which limit of which provider, and the default without one |
| MailLimits.OnlyRecordAddsSent | backend/src/mail/mail.worker.ts:357-374 | in the runs of the queue no step but the SENT write adds a counted row |
| MailLimits.StepsFollowQueue | backend/src/mail/mail.worker.ts:304-374 | the SENT write of these runs is the delivery of the queue, and checks, ticks and sends given up change no row |
| MailLimits.StepKeepsLimit | backend/src/mail/mail.worker.ts:304-374 | with at most k sends of a window under way, each step keeps SENT rows plus sends under way at limit - 1 + k |
| MailLimits.LimitHolds | backend/src/mail/mail-limit.service.ts:77-115 | so does every run, for the month, the day and the sliding minute of each kind |
| MailLimits.OneWorkerNeverExceeds | backend/src/mail/mail-limit.service.ts:77-115 | a single sequential worker never exceeds a limit |
| MailLimits.TwoAtOnceExceed | backend/src/mail/mail.worker.ts:304-374 | the bound is reached: two checks before the first SENT write let two messages through a limit of one |
| AuthSessions.LoginYieldsLive | backend/src/auth/auth-session.service.ts:22-40 | a login's session is live, alone in its login, and its token rotates exactly until it expires; all other sessions stay as they are |
| AuthSessions.AuthSessionService.RotateRefreshSession | backend/src/auth/auth-session.service.ts:42-153 | exactly the token of an unrevoked, unexpired session of its own user, with its own hash and an active owner, rotates; another hash, an inactive owner or a replaced session ends every session of the user |
| AuthSessions.AuthSessionService.RotateTransaction | backend/src/auth/auth-session.service.ts:83-142 | the compare-and-set creates the successor, or reacts to a replay |
| AuthSessions.AuthSessionService.RevokeRefreshSession | backend/src/auth/auth-session.service.ts:155-174 | logout revokes the session of the presented token only |
| AuthSessions.MismatchKillsSessions | backend/src/auth/auth-session.service.ts:80-89 | a token with another hash than its session's, or of an inactive owner, never rotates and ends all the user's sessions and no other, whatever came between |
| AuthSessions.ExpiryEndsOne | backend/src/auth/auth-session.service.ts:69-78 | a token of an expired session never rotates and ends that session only |
| AuthSessions.TurnedAwayExactly | backend/src/auth/auth-session.service.ts:58-67 | a token leaves the table as it is exactly if its session is unknown, another user's, or revoked and not replaced, or if nothing is left to revoke |
| AuthSessions.SuccessorTakesOver | backend/src/auth/auth-session.service.ts:99-142 | after a rotation the old token never rotates again and the new one does exactly until it expires, for the same user |
| AuthSessions.LogoutExact | backend/src/auth/auth-session.service.ts:155-174 | logout changes the table exactly for the unrevoked session of its own token |
| AuthSessions.RunsFollowService | backend/src/auth/auth-session.service.ts:42-181 | the runs take exactly the steps of the service |
| AuthSessions.RevokeAllEnds | backend/src/auth/auth-session.service.ts:176-181 | a revoke-all leaves the user no live session and every other session as it was: afterwards exactly the tokens of others rotate or log out that did before, and doing it again changes nothing |
| AuthSessions.ChainsStep | backend/src/auth/auth-session.service.ts:42-142 | every step of every interleaving keeps the sessions of a login one chain: one successor each, a replaced session revoked, no two at one place |
| AuthSessions.ChainsAlways | backend/src/auth/auth-session.service.ts:42-142 | so every reachable state is chained |
| AuthSessions.OneLivePerLogin | backend/src/auth/auth-session.service.ts:83-142 | at most one session of a login is live, the last of its chain |
| AuthSessions.ReplayReadKillsSessions | backend/src/auth/auth-session.service.ts:62-67 | a rotation that reads a replaced session leaves the user without live session at that step |
| AuthSessions.LostSwapKillsSessions | backend/src/auth/auth-session.service.ts:99-127 | so does one that loses the compare-and-set to another rotation |
| AuthSessions.CommitFromRead | backend/src/auth/auth-session.service.ts:42-97 | undisturbed, a rotation goes through exactly for an active user, an unrevoked and unexpired session and its own token |
| AuthSessions.RevokeAllIsFinal | backend/src/auth/auth-session.service.ts:176-181 | after a revoke-all no earlier token, not even one past its read phase, ever yields a live session, in every continuation |
| AuthSessions.EscapesExactly | backend/src/auth/auth-session.service.ts:22-40 | a token made before a revoke-all has a live session in some continuation exactly if its login had checked the password and not yet stored the session |
| AuthSessions.StoredAfterwards | backend/src/auth/auth.service.ts:49-75 | a run in which a login that is overtaken by a revoke-all stores its session afterwards and is live |
| AccountTokens.AccountActionTokenService.IssueToken | backend/src/auth/account-action-token.service.ts:71-128 | when a link is handed out again, when earlier ones are revoked, and the new one |
| AccountTokens.AccountActionTokenService.ConsumeToken | backend/src/auth/account-action-token.service.ts:130-200 | which refusal is given, and that only a valid consumption marks the link used |
| AccountTokens.IssueMeans | backend/src/auth/account-action-token.service.ts:71-128 | exactly a readable active reset link is handed out again; else the new one is live until its time is over and the earlier ones of the user and kind are revoked, and no others |
| AccountTokens.FreshIsReused | backend/src/auth/account-action-token.service.ts:71-128 | a reset link just issued is handed out again by the next request |
| AccountTokens.RefusalsExact | backend/src/auth/account-action-token.service.ts:167-200 | which refusal is given, case by case |
| AccountTokens.RunsFollowService | backend/src/auth/account-action-token.service.ts:71-200 | the runs, whose statements stand apart, end where the service does when nothing comes between |
| AccountTokens.IssueKeepsSound | backend/src/auth/account-action-token.service.ts:71-128 | issuing keeps at most one live link per user and kind |
| AccountTokens.SoundAlways | backend/src/auth/account-action-token.service.ts:71-160 | with issues that nothing interrupts, in every interleaving with consumers: one live link per user and kind, each consumed at most once, none both used and revoked |
| AccountTokens.StepExact | backend/src/auth/account-action-token.service.ts:71-128 | with the statements of an issue apart, each keeps this exactly if the link that it revokes by id has not been used, or the one that it adds is the only live one |
| AccountTokens.SoundExactly | backend/src/auth/account-action-token.service.ts:71-160 | so a run of any issues and consumers is sound throughout exactly if every statement of an interrupted issue is timely |
| AccountTokens.OverlappingIssuesBreak | backend/src/auth/account-action-token.service.ts:71-128 | a run of two overlapping issues that leaves two live links |
| AccountTokens.ConsumedOnce | backend/src/auth/account-action-token.service.ts:130-160 | whoever consumes a link ends it for all other consumers, whatever they had read |
| AccountTokens.IssueYieldsLive | backend/src/auth/account-action-token.service.ts:71-128 | the link handed out, fresh or reused, is live |
| AccountTokens.UsedForGood | backend/src/auth/account-action-token.service.ts:130-160 | over every run a used link stays used, and no consumer succeeds with it again |
| AccountTokens.NeverUsedWhileActive | backend/src/auth/account-action-token.service.ts:167-200 | over every run a link is never used while its account is active whenever it is presented |
| AccountRecovery.AuthService.CompleteLink | backend/src/auth/auth.service.ts:147-168 | the transaction consumes the link, sets password and status and revokes the sessions, or does nothing |
| AccountRecovery.WorksExactly | backend/src/auth/account-action-token.service.ts:167-200 | a link works exactly while open and unexpired, with its secret, for its kind, on an account that is not active |
| AccountRecovery.ChangesOneAccount | backend/src/auth/auth.service.ts:327-342 | one account, one link and that user's sessions change, nothing else; the status becomes active on activation and first set-up only |
| AccountRecovery.SpentForGood | backend/src/auth/account-action-token.service.ts:130-200 | a completed link never completes again, whatever is issued, read and consumed afterwards, nor does any link of an account while it is active |
| AccountRecovery.ResetForActiveAccountFails | backend/src/auth/account-action-token.service.ts:71-200 | a reset link is handed out live to an active account, and completes for no one |
| AccountRecovery.EarlierLoginsEnd | backend/src/auth/auth.service.ts:327-342 | after a completed link no earlier login of the user is ever live again, in every continuation |
| AccountRecovery.OvertakenLoginEscapes | backend/src/auth/auth.service.ts:49-75 | so after a completed link exactly the logins that had checked the password before and were not yet stored can be live |
| RateLimits.MemoryLimiter.Allow | backend/src/main.ts:207-217 | the bucket's new state and the answer |
| RateLimits.DatabaseLimiter.Allow | backend/src/main.ts:76-94 | the row's new state and the answer |
| RateLimits.LimitersAgree | backend/src/main.ts:76-217 | both limiters answer every request sequence alike exactly when every maximum is at least one |
| RateLimits.FirstRequestDiffers | backend/src/main.ts:207-217 | below one they differ on the first request |
| RateLimits.FewerThanTwicePerWindow | backend/src/main.ts:76-94 | any interval as long as the window lets at most 2 * max - 1 requests of a key pass |
| RateLimits.BoundIsReached | backend/src/main.ts:76-94 | that many do pass in one case |
| LoginThrottle.AuthThrottleService.AssertNotBlocked | backend/src/auth/auth-throttle.service.ts:45-69 | when an attempt is refused, and when a row past its window is dropped |
| LoginThrottle.AuthThrottleService.RecordFailure | backend/src/auth/auth-throttle.service.ts:71-110 | the failure is counted in a running or a new window, and blocks at the limit |
| LoginThrottle.BlocksExactly | backend/src/auth/auth-throttle.service.ts:45-110 | after failures of one window somebody is blocked exactly from the last allowed one on, for the block's time |
| LoginThrottle.WindowEndsExactly | backend/src/auth/auth-throttle.service.ts:52-98 | a window ends exactly its length after its first failure; the next failure is the first of a new one |
| LoginThrottle.ResetForgives | backend/src/auth/auth-throttle.service.ts:45-118 | from a dropped row on, attempts among which fewer failures are recorded than the limit block nobody, whenever they come |
| LoginThrottle.AccountedStep | backend/src/auth/auth-throttle.service.ts:71-110 | a failure keeps the count of an interval within what the row accounts for |
| LoginThrottle.FewerThanTwiceTheLimit | backend/src/auth/auth.service.ts:48-69 | with attempts that do not overlap, some of which record no failure, and no reset, an interval no longer than window and block holds at most 2 * limit - 1 failures |
| SeedSections.CountMembership | backend/src/admin/seed-cleanup.utils.ts:33-45 | the two counts add up; none live means all are seed, some demo means one is |
| SeedSections.Evaluate | backend/src/admin/seed-cleanup.utils.ts:73-110 | a section qualifies exactly by its label or by links to seed data and nothing else, and its relation kind says so |
| SeedCandidates.FindBlockers | backend/src/admin/admin-system-tools.service.ts:797-1086 | the loops of the preview report exactly the blockers that stand; `SeedMeaning.ReasonExact` and `AdminBlockersExact` say which these are |
| SeedMeaning.DoomedIsOnly | backend/src/admin/admin-system-tools.service.ts:524-698 | the rows to delete are the only set that contains the labelled rows and what belongs to them, and nothing without a reason |
| SeedMeaning.ReasonExact | backend/src/admin/admin-system-tools.service.ts:797-1086 | each kind of blocker is raised exactly for a row that is to be deleted and has the reference it is about to a row that is not, or the other way round |
| SeedMeaning.AdminBlockersExact | backend/src/admin/admin-system-tools.service.ts:798-816 | the two blockers about admins are raised exactly if the actor, or every active admin, is to be deleted |
| SeedMeaning.NothingOutside | backend/src/admin/admin-system-tools.service.ts:797-1086 | without blockers the teachers, sections, students, reviewers, groups and actors that deleted rows refer to are deleted too |
| SeedCleanup.NothingDangles | backend/src/admin/admin-system-tools.service.ts:524-698 | without blockers, every row that refers to a deleted row is deleted too or is one of the overlooked ones, for all 36 foreign keys |
| SeedCleanup.ChildrenFirst | backend/src/admin/admin-system-tools.service.ts:209-345 | the statements delete children before parents |
| SeedCleanup.StatementCleans | backend/src/admin/admin-system-tools.service.ts:209-345 | each statement then deletes just its own rows: none is refused, nothing is nulled, nothing cascades |
| SeedCleanup.DeleteLeavesNone | backend/src/admin/admin-system-tools.service.ts:209-345 | what the database leaves of any DELETE that it carries out: exactly the rows not named and not tied to these by a cascading key, with exactly the references to other rows |
| SeedCleanup.RunAborts | backend/src/admin/admin-system-tools.service.ts:679-685 | a surviving row with a restricting reference to a deleted row makes the database refuse |
| SeedCleanup.CleanupExact | backend/src/admin/admin-system-tools.service.ts:209-345 | without blockers the cleanup goes through exactly when there is no enrollment of a seed student in a seed subject placed elsewhere, no course of a seed year and no deletion request of a seed user; it then removes the candidates and nothing else and leaves every reference intact |
| SeedOverlooked.EnrollmentIsOverlooked | backend/src/admin/admin-system-tools.service.ts:679-685 | a database with such an enrollment that the preview passes and the transaction refuses |
| SeedOverlooked.CourseIsOverlooked | backend/src/admin/admin-system-tools.service.ts:209-345 | likewise with such a course |
| SeedOverlooked.RequestIsOverlooked | backend/src/admin/admin-system-tools.service.ts:209-345 | likewise with such a request |
| SeedCleanup.AdminsSurvive | backend/src/admin/admin-system-tools.service.ts:798-816 | the acting admin and the protected admin survive, and an active admin is left if there was one |
| SeedCleanup.MembersNeverBlock | backend/src/admin/admin-system-tools.service.ts:866-876 | one of the blockers can never be raised |
| SeedCleanup.SectionsByCounts | backend/src/admin/admin-system-tools.service.ts:561-601 | the evaluation by counting selects exactly the candidate sections |
| SeedCleanup.SeedCleanupTool.Execute | backend/src/admin/admin-system-tools.service.ts:209-345 | nothing happens while a blocker stands, and a refused statement rolls everything back |
| DeletionLifecycle.OnlyPendingMoves | backend/src/data-deletion/data-deletion.lifecycle.ts:17-28 | the transition table lets only a pending request change; it is transitive and never returns |
| DeletionLifecycle.DataDeletion.CreateRequest | backend/src/data-deletion/data-deletion.service.ts:42-89 | which requests are refused, and that one pending request is added otherwise |
| DeletionLifecycle.DataDeletion.CancelOwnRequest | backend/src/data-deletion/data-deletion.service.ts:117-152 | only the requester's own pending request is cancelled |
| DeletionLifecycle.DataDeletion.PerformReview | backend/src/data-deletion/data-deletion.service.ts:165-211 | only a pending request is decided, by a known admin |
| DeletionLifecycle.DataDeletion.GetOrCreateExecution | backend/src/data-deletion/data-deletion-execution.service.ts:114-157 | an approved request has its execution afterwards, created once |
| DeletionLifecycle.DataDeletion.StartDryRun | backend/src/data-deletion/data-deletion-execution.service.ts:159-202 | a dry run goes from pending to completed and changes no request |
| DeletionLifecycle.DataDeletion.VerifyBackup | backend/src/data-deletion/data-deletion-execution.service.ts:204-238 | only a completed, undeleted backup is linked |
| DeletionLifecycle.DataDeletion.BeginExecution | backend/src/data-deletion/data-deletion-execution.service.ts:240-314 | a deletion starts exactly when enabled, on an approved request with a verified backup that is there |
| DeletionLifecycle.StepKeepsRecords | backend/src/data-deletion/data-deletion-execution.service.ts:114-143 | every step of calls that are not interrupted keeps executions on approved requests, one each, and one pending request a user |
| DeletionLifecycle.DecisionStands | backend/src/data-deletion/data-deletion.service.ts:117-194 | for such calls approved, denied and cancelled are absorbing |
| DeletionLifecycle.StartsAreSafe | backend/src/data-deletion/data-deletion-execution.service.ts:268-314 | every move to EXECUTION_STARTED starts from BACKUP_VERIFIED with a linked backup that is completed and undeleted at that step |
| DeletionLifecycle.RunKeepsRecords | backend/src/data-deletion/data-deletion.service.ts:117-194 | over every run of them: executions belong to approved requests, and decisions stay |
| DeletionLifecycle.LateReviewExact | backend/src/data-deletion/data-deletion.service.ts:165-194 | a review that lands late keeps the records in order and every decision exactly when the request is still pending or already holds the status it writes |
| DeletionLifecycle.LateCancelExact | backend/src/data-deletion/data-deletion.service.ts:117-152 | so does a late cancellation; and where it undoes a decision it leaves the records in order exactly when the request has no execution |
| DeletionLifecycle.LateCreateExact | backend/src/data-deletion/data-deletion.service.ts:42-89 | a request that is written late does no harm exactly when the user has no pending one by then |
| DeletionLifecycle.LatePlanExact | backend/src/data-deletion/data-deletion-execution.service.ts:114-157 | an execution that is created late does no harm exactly when the request is approved or has one already |
| DeletionLifecycle.RunsExact | backend/src/data-deletion/data-deletion.service.ts:42-194 | over every run of requests, cancellations, reviews, plans, dry runs, verifications and starts, each checked and written apart: the records stay in order and every decision stands exactly if every write is timely |
| DeletionLifecycle.OverlappingReviewsBreak | backend/src/data-deletion/data-deletion.service.ts:117-194 | runs in which a late denial undoes an approval, and a late approval a cancellation |
| DeletionLifecycle.OverlappingRequestsBreak | backend/src/data-deletion/data-deletion.service.ts:42-89 | a run of two overlapping requests that leaves one user two pending ones |
| DeletionLifecycle.LateStartExact | backend/src/data-deletion/data-deletion-execution.service.ts:240-314 | a start written after any other calls, their checks and writes apart, still starts from BACKUP_VERIFIED on an approved request with a backup that is there exactly if the last writes on the execution, on the request and on that backup left them so |
| DeletionLifecycle.LateStartLosesBackup | backend/src/data-deletion/data-deletion-execution.service.ts:294-314 | a valid run in which a backup deleted between the check and the start leaves a started execution without one |
| DeletionLifecycle.StartsNeedVerification | backend/src/data-deletion/data-deletion-execution.service.ts:204-406 | an execution that is not verified, so one that has started, completed or failed, does not start before it is verified again |
| DeletionExecutor.StepTouchesWhatItCounts | backend/src/data-deletion/data-deletion-execution.service.ts:433-526 | each step changes one table only, and there exactly as many rows as it counts |
| DeletionExecutor.Executor.Execute | backend/src/data-deletion/data-deletion-execution.service.ts:321-392 | an attempt that stops after any step leaves exactly those steps done and those numbers entered |
| DeletionExecutor.ResumeCompletes | backend/src/data-deletion/data-deletion-execution.service.ts:321-392 | stopped after any step before the anonymisation and made again from the start, it ends where one uninterrupted attempt ends |
| DeletionExecutor.AnyInterruptionsComplete | backend/src/data-deletion/data-deletion-execution.service.ts:321-392 | likewise after any number of interrupted attempts |
| DeletionExecutor.SecondRunExact | backend/src/data-deletion/data-deletion-execution.service.ts:321-392 | after a completed attempt another one changes nothing exactly when no mail is addressed to the anonymised address, or that was the user's address before |
| DeletionExecutor.SecondRunChanges | backend/src/data-deletion/data-deletion-execution.service.ts:433-439 | a database on which a second attempt deletes mail that the first has left |
| DeletionExecutor.ErasesExactly | backend/src/data-deletion/data-deletion-execution.service.ts:433-526 | a completed attempt removes the user's rows, enrollments, teaching and personal data, and nothing of anybody else |
| DeletionExecutor.StopsExact | backend/src/data-deletion/data-deletion-execution.service.ts:321-392 | wherever an attempt stops, the categories whose steps it has taken, in the order written, are as at the end and the others as before |
| DeletionExecutor.ProfilesHoldThroughout | backend/src/data-deletion/data-deletion-execution.service.ts:342-380 | wherever an attempt stops, every enrollment and every subject's teacher still leads to a profile |
| DeletionExecutor.PlanIsWhatHappens | backend/src/data-deletion/data-deletion-execution.service.ts:549-600 | the planned count of each category is the number of rows that a completed attempt deletes or changes |
| DeletionExecutor.ReportIsThePlan | backend/src/data-deletion/data-deletion-execution.service.ts:326-386 | every number that the execution reports equals the dry run's |

## Left out

- Zones with changing offsets: an offset is a constant number of seconds; `Intl`'s hour 24 at midnight, the two-digit years of `Date.UTC` and its range limit are not modelled.
- BackupTicks.ExactlyOnePerOccurrence: assumes that ticks do not overlap one another and that retention follows its backup within the retention period; racing workers can start two runs, because due is not tested again after the lock. Artifacts found on disk that are recorded as automatic runs are left out of the ticks.
- BackupTicks.NewRunSparedExactly: said of a run that fewer than fifty others have overtaken, since a pass retires fifty, and whose artifact can be removed; `SavedIsSpared` needs neither.
- BackupRuns.BackupsService.Tick: the two queries of its retention and the writes after them share one moment; `BackupVault` has decisions and writes apart.
- BackupSchedule.ComputeNextIsNext: for daily, weekly and monthly settings; a custom interval names no instants and is in `CustomAddsHours`.
- BackupRuns.BackupsService.CreateBackup: the artifact, its manifest and its checks, local artifacts found on disk and legacy settings files are not modelled.
- BackupVault.NewestSurvives: decisions are taken while the newest success is untied and returned, which `SurvivalExact` shows to be needed.
- MailQueue.MailService.RetryJob: read and write are one step, as in CancelJob, ArchiveJob and CreateJob; the runs have them apart too.
- MailRuns.StepKeeps: assumes that clocks agree and that a claim commits before its own lock is stale.
- MailRuns.AlwaysOk: rows are never removed; seed cleanup, data deletion and the purge tool (`backend/src/repositories/system-tools.repository.ts`) do remove mail jobs.
- MailGuarantees.NoJobStranded: for timely runs, like the other guarantees; `MailPromise.PromiseExact` says what the other steps lead to.
- MailGuarantees.AtMostOneSent: an acceptance whose SENT write fails or whose worker dies is counted as lost, and the job may be sent again.
- MailQueue.MailWebhookService.HandleResendWebhook: the delivery time that a delivered event sets, the signature check and the payload's shapes are left out; a crash between recording and applying an event loses it.
- MailLimits.LimitHolds: a check counts its windows at one moment, and a send counts as under way from that moment on.
- The mail worker's heartbeat row, its log lines and its texts; recipients, templates and subjects.
- Tokens, hashes and links are fresh and injective values; their encryption, signatures and lengths are not modelled.
- AccountTokens.AccountActionTokenService.IssueToken: the method is an issue that nothing interrupts; `AccountTokens.SoundExactly` has its statements apart.
- AccountRecovery.AuthService.CompleteLink: password rules and the throttle around it are left out.
- LoginThrottle.FewerThanTwiceTheLimit: attempts on one key do not overlap and no reset intervenes.
- RateLimits.DatabaseLimiter.Allow: the fallback to memory when the database is away, and the choice of the rule by path.
- SeedCandidates.FindBlockers: departments, which teachers name by text and no key refers to, and the check that the protected admin is no candidate, which holds by the candidates' definition.
- SeedCleanup.CleanupExact: assumes that references hold and that a group member is filed under its group's subject, as `backend/src/repositories/subject.repository.ts` writes them; leaves out announcements, requests and mail jobs, which no key connects, audit logs that only name a deleted entity, and the references that the database nulls or cascades by itself from backup runs, import batches, deletion reviews and pending uploads; preview and transaction see the same database.
- SeedCleanup.SeedCleanupTool.Execute: the environment's locks, the typed confirmation, and stored files.
- DeletionLifecycle.DataDeletion.VerifyBackup: as in the code it does not look at the execution's status, so a completed execution can be verified and started again.
- DeletionLifecycle.DataDeletion.CreateRequest: the method is a call that nothing interrupts, like CancelOwnRequest and PerformReview; `DeletionLifecycle.RunsExact` has checks and writes apart.
- DeletionLifecycle.StartsAreSafe: for starts that nothing interrupts; `LateStartExact` says when a late one is safe.
- DeletionExecutor.ResumeCompletes: nobody else writes to the user's rows between the attempts.
- The spelling of request statuses in the database, audit logs, notifications of the outcome.
- HTTP controllers, guards and DTOs, storage, virus scanning, mail providers, HTML templates, listings, reports and the frontend: wiring, or cases without a protocol.
