# Verified model of the software-factory back end

A Dafny model of the protocols the back end runs over shared rows, and proofs about every run of
them. The source is TypeScript; nothing here executes it. Objects that the source updates in place
are classes whose methods are proved against functions of the old state; protocols with several
participants are state machines over single steps, and their results hold for every sequence of steps.

## What is modelled

**Build jobs** (`JobTable`, `JobEvents`, `JobReporter`, `JobControl`, `JobInvariants`, `JobResults`,
`AutoRetry`, `JobService`). A container reports numbered events over a link that may lose a request
before or after it was applied, be refused, or fail after storing. The api stores each number once.
Starts, redeliveries, token rotations, reports, kills and liveness-sweep verdicts are steps; the
automatic rebuild of a failed job is a step of its own, so a crash between the failure and the
rebuild is a run like any other. `JobService` is the same set of calls, statement by statement over
the jobs table and the event log, proved equal to those steps.

**Teardown and export** (`Lifecycle`, `OrderExports`, `Teardown`, `LivePreviews`, `FinalExport`). The
export row is a compare-and-set lock. In `Teardown` every statement of a lifecycle action is a step,
containers of active jobs ask for their previews, and all of it interleaves freely; `LivePreviews` is
about what is live in the end. In `FinalExport` the deletion certificate and the scheduled sweeps are
added; its first results take each service call as one step, the later ones statement by statement.

**Usage billing** (`SqlLogic`, `UsageReports`, `UsageBilling`). Reserve, confirm and release as SQL
statements under three-valued logic, the in-memory backend proved to agree with them, and any number
of billing runners that may crash anywhere.

**Limits** (`SlidingWindow`, `RateLimits`, `ContactService`, `DemoApprovals`, `MonthlyCap`). A pruned
and size-capped index against the full log of hits, the contact form's limits, the rolling weekly cap
on demo approvals, and the resident's monthly token cap across restarts and failing store calls.

**Deprovisioning** (`Sorting`, `Deprovision`, `Actuators`). The engine over any actuator, over the
in-memory world, and over the production dispatch to service handlers.

**Streams, logs and prices** (`TextLines`, `SseUsage`, `AuditLog`, `ModelPrice`). The incremental
usage parser for server-sent events, the JSON-lines audit log over a store that fails, and the
selection of the price a job bills at.

What comes from outside is a parameter: clocks, fresh ids and tokens, JSON codecs, ARN collation,
the outcome of each call to AWS, the payment provider, the mailer or the object store.

## Where the code falls short of its own words

Each item names what shows it, a run or a contract that counts the case, and the condition under
which the promise holds for all inputs, both ways.

- **Teardown.** An order can be torn down over a live preview. Containers of active jobs have their
  database and storage made by the api (apps/api/src/routes/internal/jobs/postJobDatabase.ts:22-28,
  apps/api/src/routes/internal/jobs/postJobStorage.ts:24-30), and neither that nor `jobService.start`
  and `redeliver` look at the lifecycle; and the teardown lists at most 200 jobs. Four runs show it: a
  job started after the listing (`LateJobIsLeftBehind`), a listed job still running
  (`RunningJobProvisionsAgain`), a redelivery under the id of its listed build
  (`RedeliveryProvisionsAgain`), a job cut from the list (`CutJobIsLeftBehind`). Nothing of the
  order's jobs is live if and only if no listed preview was made after its last teardown and no
  unlisted one is live (`TornDownOrderIsEmpty`). What a caller can check as the teardown lists the
  jobs: if none is started afterwards, nothing is left however the run goes on, if and only if no job
  is active, no request of one is in flight, and every live preview is listed (`ListingIsSafe`).
  `TeardownReachesEveryJob` says less: when every preview was torn down once by that action.
- **Held failure mails.** A build's failure mail is held on the understanding that a rebuild or an
  admin mail follows, and the comment at apps/api/src/services/jobService.ts:830-832 expects the
  verdict in the same batch as the notice. The reporter posts one event per request
  (apps/job/src/reporter.ts:176-181), so a budget failure's mail is held as well and then never sent
  (`BudgetVerdictMailIsLost`). A rebuild call that fails before it knows the job is a candidate is
  silent too: the sweep takes every throw for one that has mailed
  (apps/api/src/lib/jobSweep.ts:121-126). And a process that dies between the failure and its rebuild
  call forgets both the rebuild and the mail for good (`CrashForgetsTheRebuild`).
  `HeldMailIsAnswered` is the condition.
- **One rebuild per job.** Of two overlapping rebuild calls for one job, the second rebuilds it again
  if and only if the order has no active job when its insert runs (`RacingCallRebuildsAgain`): while
  the order gets no other job, exactly when the first rebuild has ended by then, because its launch
  failed or it was killed, swept or reported (`RacingCallNeedsTheFirstToEnd`). A refused second call
  stays silent only while the job's log is shorter than a page (`RacingCallStaysSilent`). One call per
  failure, the way the two callers make it, never rebuilds twice (`RetriesFormPairs`).
- **Ends are final.** A single status write checks only for `killed`. At statement level a report
  that authenticated before the sweep's verdict overwrites it, and a token rotation that raced a kill
  leaves a live token on the killed row (`StaleReportOverwritesFailed`). `EndedStatusIsKept` and
  `TokensStayLive` are the conditions; between whole calls neither happens (`StatusOnlyMovesForward`,
  `OneActiveJobOneToken`).
- **Side effects.** An event that was stored by an attempt which then failed never runs its mail or
  gate: its redelivery is a duplicate (`RetriedNoticeIsNeverMailed`, condition
  `EffectRanUnlessStoringFailed`).
- **Billing.** Taking a report row over for another provider starts its cents at zero, so returning to
  the first provider bills it again (`ProviderSwitchOverbills`); `TakeoverIsExact` is the condition for
  an undisturbed pass. The confirm names no provider, so a runner that is still at the old one credits
  the new one with cents it never accepted (`StaleConfirmCreditsTheNewProvider`); `TakeoversStayExact`
  is the condition for every run that returns to no provider.
- **Exports.** Finishing an export does not say whose claim it finishes
  (`LateFinishCompletesAnotherClaim`, condition `ClaimIsStillMine`). A teardown that skips a failed
  export puts its certificate on the failed row, which the next export call reclaims
  (`FailedExportLosesTheCertificate`, condition `CertificateSurvivesOverAnythingButAFailure`). An
  export call that read the order before it was torn down and then stalls reclaims the done row
  (`StalledExportDropsTheCertificate`, condition `ClosedSiteIsKept`). An export that claims the row
  between the gate of a teardown without an export and its certificate finishes over the certificate
  (`ExportInBetweenDropsTheCertificate`, condition `FileStaysListed`).
- **Sweeps.** An order torn down between the due list and its pass is counted neither as torn down nor
  as failed, and gets a second certificate (`PassIsSafe`; `RunHostingSweep` has the condition).
- **Audit log.** Earlier days are evicted on a later day's write, unwritten entries included
  (`MidnightLosesAnUnwrittenEntry`, condition `AppendAndOtherDays`).
- **Prices.** packages/models/schemas/ModelPrice.ts:118-121 promises the row with the latest
  instant; the code compares texts, and a whole second is a later text than any fraction of it
  (`WholeSecondBeatsItsFraction`, condition `LatestTextOrLatestInstant`). Both stores write one
  format, with three digits of a second (packages/db/src/memory.ts:359,
  packages/db/src/modelPrices.ts:28), and on rows in that format the promise holds
  (`StoredRowsChooseTheLatestInstant`). A later price does change an earlier order's cost in one
  case: when it is the first row of an empty table (`FirstRowReplacesTheDefaults`, which is also the
  condition).
- **Monthly cap.** packages/resident/src/cap.ts:17-18 says a restart forgets nothing; after a failed
  write it does (`RestartForgetsAFailedWrite`, condition `CountersAreExactWhenNothingIsForgotten`).
  Adds of concurrently running tasks may overlap and their writes land out of order: the store then
  has the whole count if and only if the newest write landed last (`OverlappingAddsKeepTheCount`).
- **Metering.** apps/job/src/anthropicForwardProxy.ts:231-233 estimates a successful response without
  usage so that nothing is free; a response that breaks off midway is reported as no usage at all,
  even when it had declared some (`SseUsage.Relay` counts the case).

## Model

| member | source | states |
|---|---|---|
| JobEvents.EventLog.AppendEventOnce | packages/db/src/memory.ts:496-503 | A numbered event is stored exactly when its number was not stored for the job before; a duplicate returns the stored event and changes nothing. The index makes the decision of the unique index on job and number. |
| JobEvents.EventLog.ListEvents | packages/db/src/memory.ts:506-510 | Returns the first 500 of the job's events after the cursor, in order. |
| JobEvents.PagingReadsTheLog | packages/db/src/jobs.ts:356-362 | A reader that keeps asking from the last id it saw gets, after n requests, exactly the first 500 n events after its cursor: none missed, none twice. |
| JobReporter.StoredLogIsFaithful | apps/job/src/reporter.ts:118-182 | Over every interleaving of emits, attempts of any fate and the api's own events: a job's numbered events are stored in strictly increasing order, each with the content emitted under its number, and no side effect of an event runs twice. |
| JobReporter.ResolvedEmitIsStoredOnce | apps/job/src/reporter.ts:176-182 | An emit that resolved is in the log, once, with what was emitted. |
| JobReporter.EffectRanUnlessStoringFailed | apps/api/src/services/jobService.ts:838-864 | A stored event was first stored by one attempt, and its mail or gate has run if and only if it is a notice or a gate and that attempt did not fail after storing. |
| JobReporter.RetriedNoticeIsNeverMailed | apps/api/src/services/jobService.ts:838-864 | A run in which a notice's emit resolves and its mail is never sent. |
| JobReporter.ResolvedEmitRanUnlessStoringFailed | apps/job/src/reporter.ts:118-150 | The same for every emit that resolved, by the kind it was emitted with: a retry after a half-applied attempt resolves without the effect. |
| JobReporter.FirstAttempt | apps/api/src/services/jobService.ts:838-864 | What a first attempt of any fate leaves: which fates store the event, which also run a notice's mail or a gate's entry, which settle the request and which resolve it. |
| JobReporter.AttemptsInARow | apps/job/src/reporter.ts:118-150 | The attempts of one request, none but the last final, are that many steps of the system and leave the request settled or its attempt counter raised. |
| JobReporter.ApiReporter.Request | apps/job/src/reporter.ts:118-150 | The retry loop stops at the first final outcome or after four attempts, resolves only on a delivered one, and the api has served exactly the attempts made. |
| JobReporter.ApiReporter.SendNext | apps/job/src/reporter.ts:154-159 | The head of the queue is sent before anything behind it, with the effect of its attempts as steps. |
| JobReporter.JobApi.Receive | apps/api/src/services/jobService.ts:552-555 | One attempt stores the event at most once, and runs its side effect only when it was new and the call got that far. |
| JobTable.MemoryJobs.InsertJob | packages/db/src/memory.ts:311-329 | A job is inserted, with its token, exactly when its order has no active job; otherwise nothing changes. |
| JobTable.MemoryJobs.UpdateJob | packages/db/src/memory.ts:456-494 | Refused exactly for a missing row, or a killed one when the write carries a status; otherwise the row and its token become what the update says, and every other row and token stays. |
| JobTable.KilledIsAbsorbing | packages/db/src/jobs.ts:271-310 | Whatever single statements of whatever callers follow, a killed job stays killed. |
| JobTable.EndedStatusIsKept | packages/db/src/memory.ts:456-494 | Over every run of single statements, an ended job has its status at every moment if and only if it was killed, or every statement on it carries no status or that one. |
| JobTable.TokensStayLive | packages/db/src/memory.ts:456-494 | Over every run of single statements, live tokens belong to active jobs at every moment if and only if each statement, on the table it finds, gives no token to an ended row and revokes the token of a row it ends. |
| JobTable.StaleReportOverwritesFailed | apps/api/src/services/jobService.ts:871-909 | At statement level a stale report overwrites a failed job, and a rotation that raced a kill leaves a live token on the killed row. |
| JobService.JobService.AuthenticateReport | apps/api/src/services/jobService.ts:803-809 | A token speaks for a job exactly when it is that job's and the job has not been delivered, failed or killed. |
| JobService.JobService.AutoRetryCandidate | apps/api/src/services/jobService.ts:428-434 | True exactly for a demo or S-sized job, with a reason that is no budget verdict and no retry event among its first 500. |
| JobService.JobService.ReportEvents | apps/api/src/services/jobService.ts:828-870 | The loop over a batch is the step of the protocol: events stored once, a new failure notice held exactly for a rebuild candidate by the batch's own reason. |
| JobService.JobService.ReportUpdate | apps/api/src/services/jobService.ts:871-909 | The status write is the step of the protocol: a lower rank is refused, an end revokes the token, a failure is owed its rebuild call. |
| JobService.JobService.Kill | apps/api/src/services/jobService.ts:750-774 | A job that has not ended becomes killed, without a token and with the event; a finished job is left alone. |
| JobService.JobService.FailDeadJob | apps/api/src/lib/jobSweep.ts:37-55 | Fails a job, with its verdict, its event and no token, exactly when it has not ended on the re-read, and it is then owed a rebuild call as a swept job. |
| JobService.JobService.Launch | apps/api/src/services/jobService.ts:646-667 | A launched row carries its task; a launch that fails ends the row with an event, a reason and no token. |
| JobService.JobService.InsertRetryRow | packages/db/src/memory.ts:417-426 | Refused while the order has an active job; otherwise the row, its token and both linking events appear together. |
| JobService.JobService.RetryFailedBuild | apps/api/src/services/jobService.ts:459-535 | For every outcome of the reads, the insert, the conflict re-read and the launch, a call for a failed job, the first or a later one, does what the protocol's rebuild does, and is its step when the call is owed; it starts a rebuild exactly for a failed demo or small job, for a reason other than the budget, never retried as far as the first 500 events tell, with no active job of the order. |
| JobInvariants.RetryIsNoCandidate | packages/db/src/jobs.ts:170-198 | A retry is never a rebuild candidate however long its log grows, because its marker is the first event of its log and so among the 500 read. |
| JobInvariants.StepKeepsInv | apps/api/src/services/jobService.ts:671-774 | Every call keeps the whole invariant: table, links, log markers, failures waiting for their rebuild call and held mails. |
| JobInvariants.RunKeepsInv | apps/api/src/services/jobService.ts:828-909 | The invariant holds after every run in which containers post no retry events of their own. |
| JobResults.OneActiveJobOneToken | apps/api/src/services/jobService.ts:671-739 | In every run at most one job of an order has not ended, a job has at most one live token, and an ended job none. |
| JobResults.StatusOnlyMovesForward | apps/api/src/services/jobService.ts:232-240 | Between any two moments of a run no job goes back to an earlier phase, and one that was delivered, failed or killed keeps its row unchanged. |
| JobResults.OnlyItsOwnTokenSpeaks | apps/api/src/services/jobService.ts:803-809 | Events, a status or a rotation under any token but the job's own, or for a job that has ended, change nothing. |
| JobResults.ReportLandsIff | apps/api/src/services/jobService.ts:871-909 | Under the job's token a status is refused if and only if it is an earlier phase; else the row takes what the report carries, an end revokes the token, and a failure is owed its rebuild call. |
| JobResults.RotatedIff | apps/api/src/services/jobService.ts:810-814 | A rotation gives the job the new token and ends the old one, and changes no row. |
| JobResults.RetriesFormPairs | packages/db/src/jobs.ts:170-198 | No job is rebuilt twice, no rebuild is rebuilt, the original has failed, and the rebuild has its order and its token ceiling. |
| JobResults.RebuildsAtMostDoubleTheCeiling | apps/api/src/services/jobService.ts:459-475 | Rebuilds never outnumber first attempts, and the ceilings of all jobs add up to at most twice those of the first attempts. |
| JobResults.RacingCallRebuildsAgain | apps/api/src/services/jobService.ts:459-505 | Of two overlapping rebuild calls for one job, whatever steps lie between the first one's launch and the second one's insert, the second rebuilds it again if and only if the order has no active job when its insert runs. |
| JobResults.RacingCallNeedsTheFirstToEnd | apps/api/src/services/jobService.ts:459-505 | While the order gets no other job, it has no active one exactly when the first rebuild has ended. |
| JobResults.RacingCallAtOnce | apps/api/src/services/jobService.ts:646-667 | With nothing in between, the first rebuild has ended exactly when its launch failed. |
| JobResults.RacingCallStaysSilent | apps/api/src/services/jobService.ts:475-488 | Whatever lies in between, a second call that the index refuses pages nobody if and only if its re-read works, the job's log held fewer than 500 events before the first call's marker, and no sweep mails for it. |
| JobResults.HeldMailIsAnswered | apps/api/src/services/jobService.ts:428-535 | Once the rebuild call of a failed job has run, its held mail was answered, by a rebuild or by a page, if and only if the call neither crashed nor failed to read and the failure was not a budget verdict the container reported. |
| JobResults.BudgetVerdictMailIsLost | apps/api/src/services/jobService.ts:843-862 | A run in which a budget failure's mail is held and nobody is ever told. |
| JobResults.CrashForgetsTheRebuild | apps/api/src/services/jobService.ts:894-901 | When the process dies after a failure and before its rebuild call, the job is never rebuilt and nobody is told, whatever is called later. |
| AutoRetry.OnlySmallOrDemoJobsAreRebuilt | apps/api/src/services/jobService.ts:428-434 | In every run, whatever containers post, a job that was rebuilt or whose mail was held is of a demo order, or S-sized or without a size. |
| AutoRetry.RebuiltIff | apps/api/src/services/jobService.ts:459-505 | A rebuild call that is owed makes a new queued build of the same order, class and ceiling if and only if its reads and insert work, no job of the order is active, the job is of that class, its reason is no budget verdict and none of its first 500 events is a retry; otherwise it changes no row. |
| AutoRetry.PagedIff | apps/api/src/services/jobService.ts:459-535 | An owed call is made once and lost exactly when its reads fail; else it pages if and only if the job was one to rebuild and the insert failed, another job was active or the launch failed, or the sweep made the call for a job that is not. |
| AutoRetry.NoticeIsHeldIff | apps/api/src/services/jobService.ts:828-862 | After a batch a job's mail is held if and only if it was before, or the job is of that class, the batch's own verdict, else the row's, is not the budget, and the batch brings a failure notice for the first time while no retry is among the first 500 events. |
| AutoRetry.BudgetFailureIff | apps/api/src/services/jobService.ts:194-195 | A reason is a budget verdict if and only if, after white space alone, it begins with one of the two verdicts as whole words. |
| AutoRetry.OrchestratorVerdicts | packages/harness/src/job/orchestrator.ts:292 | Both verdicts as the orchestrator words them count, whatever gate and findings follow; no reason does not. |
| AutoRetry.StartedIff | apps/api/src/services/jobService.ts:671-706 | A start makes a queued build with its class's ceiling and its token unless a job of the order has not ended; a launch that fails leaves it failed and without the token. |
| AutoRetry.RedeliveredIff | apps/api/src/services/jobService.ts:707-739 | A redelivery is for the build that the newest delivered job is or already redelivered, with that build's class and three million tokens, unless a job of the order has not ended. |
| AutoRetry.CeilingsAreByClass | apps/api/src/services/jobService.ts:371-374 | In every run a build that is no rebuild has 9, 15 or 40 million tokens by its class, a demo always 9; a redelivery has 3 and points at a build of its order and class. |
| OrderExports.MemoryExports.Claim | packages/db/src/memory.ts:838-859 | For every row the decision and the new row are those of the SQL statement read with three-valued logic; a lost claim changes nothing. |
| OrderExports.MemoryExports.Finish | packages/db/src/memory.ts:860-872 | Only a pending row is finished, with the status, files, error and time given; nothing else changes. |
| OrderExports.MemoryExports.AppendFiles | packages/db/src/memory.ts:873-879 | Files are added behind those listed, on a row in any status. |
| OrderExports.ClaimsAndFinishesAlternate | packages/db/src/orderExports.ts:46-106 | In every run successful claims and finishes alternate, except that a claim past the stale limit may be replaced; a claim or finish that fails changes nothing. |
| OrderExports.FilesGrowUntilTheNextClaim | packages/db/src/orderExports.ts:95-106 | On a finished row anything but a successful claim keeps the status and every listed file. |
| OrderExports.ClaimIsStillMine | packages/db/src/orderExports.ts:46-92 | While nothing is finished, the row stays the claim taken at an instant if and only if no claim came more than the stale limit after it. |
| OrderExports.FinishCompletesItsOwnClaim | packages/db/src/orderExports.ts:77-92 | A finish completes the claim of its own run if and only if nobody replaced that claim. |
| OrderExports.LateFinishCompletesAnotherClaim | packages/db/src/orderExports.ts:77-92 | A run that outlived the stale limit finishes the claim that replaced its own, and the newer finish is refused. |
| OrderExports.FileStaysListed | packages/db/src/orderExports.ts:46-106 | However the statements of all callers interleave, a listed file stays listed at every moment if and only if no claim wins the row and no finish lands on it with files that leave it out. |
| Teardown.TornDownIsEarned | apps/api/src/services/accountService.ts:202-305 | However actions, exports and new jobs interleave, a torn-down order was moved by one confirmed action with the feature on: at one step its gate found no export in flight and, unless it was told to skip the export, one done at most an hour before; at a later one the deprovision reported no failure, at a later one it listed the order's jobs as they then were, after that the preview of every listed provisioning id was torn down, and then it moved the order. |
| Teardown.GateIff | apps/api/src/services/accountService.ts:217-233 | A confirmed teardown passes the gate if and only if the feature is on, no export is in flight, and the export is skipped or was done at most an hour before; every other action passes. |
| Teardown.GatesReadTheRow | apps/api/src/services/accountService.ts:226 | The row a gate reads is what the export statements before it, and nothing else, made of it. |
| Teardown.LifecycleMovesByItsAction | packages/models/schemas/Lifecycle.ts:44-59 | Every change of lifecycle is one of the four allowed and the last statement of a confirmed action of that name that found the order as it had read it. |
| Teardown.StoppedIsOver | apps/api/src/services/accountService.ts:202-305 | An action that stopped changes nothing more. |
| Teardown.NewestAreListed | packages/db/src/memory.ts:432-438 | A job is listed, with its provisioning id, until 200 newer ones have come. |
| Teardown.EndedJobAsksInVain | apps/api/src/routes/internal/jobs/postJobDatabase.ts:22-24 | Once its job has ended a container gets nothing made. |
| Teardown.TeardownReachesEveryJob | apps/api/src/services/accountService.ts:320-339 | Every preview of every job of the torn-down order was torn down once by the action that moved it if and only if no job with an unlisted provisioning id arrived after the listing and none was cut by the limit of 200. |
| Teardown.TornDownIsNeverLeft | packages/db/src/orders.ts:271-284 | No later step of any action leads out of torn down. |
| Teardown.StepKeepsInv | apps/api/src/services/accountService.ts:202-339 | Every single statement keeps what each running action has shown so far. |
| LivePreviews.LiveIff | apps/api/src/routes/internal/jobs/postJobDatabase.ts:22-28 | A preview is live if and only if it was at some earlier step, or was made since, and no teardown has dropped it since then. |
| LivePreviews.TornDownOrderIsEmpty | apps/api/src/services/accountService.ts:320-339 | Nothing of its jobs is live on a torn-down order if and only if no listed preview was made after its last teardown and no unlisted one is live. |
| LivePreviews.QuietTeardownLeavesNothing | apps/api/src/services/accountService.ts:313-319 | With no job active or asking at the listing, none arriving after it and every live preview listed, nothing is live on the torn-down order. |
| LivePreviews.ListingIsSafe | apps/api/src/services/accountService.ts:320-322 | As the teardown lists the jobs: nothing will be live on the torn-down order, however the run goes on without new jobs, if and only if no job is active, no request is in flight and every live preview is listed. |
| LivePreviews.UncutPreviewsAreListed | packages/db/src/memory.ts:432-438 | Every live preview is listed when none of the order's jobs is cut by the limit of 200. |
| LivePreviews.LateJobIsLeftBehind | apps/api/src/services/jobService.ts:671-706 | A run in which a job started after the listing has its database made and keeps it under the torn-down order. |
| LivePreviews.RunningJobProvisionsAgain | apps/api/src/routes/internal/jobs/postJobDatabase.ts:22-28 | A run in which a listed build that is still active has its database made after the teardown of it returned. |
| LivePreviews.RedeliveryProvisionsAgain | apps/api/src/routes/internal/jobs/postJobDatabase.ts:22-28 | A run in which a redelivery makes the dropped database of its listed build again. |
| LivePreviews.CutJobIsLeftBehind | packages/db/src/memory.ts:432-438 | A run in which a job beyond the newest 200 keeps its database under a torn-down order. |
| FinalExport.ClosedSiteKeepsItsFiles | apps/api/src/services/exportService.ts:239-323 | With each call one step, a torn-down order whose export is done never loses a listed file, its key or its finish time. |
| FinalExport.TakenIff | apps/api/src/services/exportService.ts:239-276 | An export call takes the export if and only if there is none, the last failed, one has been in flight for over an hour, or, before the teardown, one was done over an hour ago; the row is then done with what it collected, or failed with its error, and otherwise unchanged. |
| FinalExport.ActedIff | apps/api/src/services/accountService.ts:202-305 | A lifecycle action takes effect if and only if it is confirmed, the order may move there, no resource failed and, for a teardown, the gate is open and every preview went; only a teardown touches the export. |
| FinalExport.CertificateIsTheLastWord | apps/api/src/services/exportService.ts:296-323 | A teardown over a done export, or over none, lists the certificate, when its object was stored, after every exported file, and every later call keeps it. |
| FinalExport.FailedExportLosesTheCertificate | apps/api/src/services/exportService.ts:296-323 | A teardown that skipped a failed export loses its certificate to the next export call. |
| FinalExport.CertificateSurvivesOverAnythingButAFailure | apps/api/src/services/exportService.ts:296-323 | A confirmed teardown's certificate survives every later sequence of calls if and only if the export it went over had not failed. |
| FinalExport.ClosedSiteIsKept | apps/api/src/services/exportService.ts:239-276 | With export calls taken statement by statement, a torn-down order keeps its done row and every listed file at every moment if and only if no call that read the order before the teardown claims the row past its freshness window. |
| FinalExport.LaterReadersKeepTheSite | apps/api/src/services/exportService.ts:239-257 | Export calls that read the order only after its teardown never take anything from it, however their statements interleave. |
| FinalExport.TakeInARow | apps/api/src/services/exportService.ts:239-276 | The statements of an export call with nothing in between are the whole call. |
| FinalExport.TeardownInARow | apps/api/src/services/exportService.ts:296-323 | The statements of a teardown and its certificate with nothing in between are the whole call. |
| FinalExport.StalledExportDropsTheCertificate | apps/api/src/services/exportService.ts:239-257 | A run in which an export call reads the order, a teardown completes, and the call's late claim clears the files, certificate included. |
| FinalExport.ExportInBetweenDropsTheCertificate | apps/api/src/services/exportService.ts:296-323 | A run in which an export claims the row between the teardown and its certificate, and its finish drops the appended certificate from a done row. |
| FinalExport.SweepOrder | apps/api/src/lib/lifecycleSweep.ts:28-77 | The pass over one due order leaves the order and the outcome that the next row is about, and says whether the export is done. |
| FinalExport.PassIsSafe | apps/api/src/lib/hostingSweep.ts:65-91 | A pass tears an order down only over a done and fresh export with no failed resource and every preview gone, and otherwise leaves its state; one that was torn down since the list was read comes out as neither torn down nor failed, with another certificate. |
| FinalExport.RunHostingSweep | apps/api/src/lib/hostingSweep.ts:48-98 | Every due order has its own pass whatever the others came to; the counters say how many exports were done and what the passes came to, and torn down and failed add up to the due orders if and only if no pass found an order torn down already; with the feature off nothing moves and all are skipped. |
| UsageReports.MemoryReports.Reserve | packages/db/src/memory.ts:1117-1139 | On every row the decision and the next row of the SQL compare-and-set. |
| UsageReports.MemoryReports.Confirm | packages/db/src/memory.ts:1140-1154 | On every row whose pending identifier and cents are set together, the decision and the next row of the SQL statement; that property is kept. |
| UsageReports.MemoryReports.Release | packages/db/src/memory.ts:1155-1158 | Only the in-flight mark of the matching reservation goes; the reservation stays. |
| UsageReports.ConfirmAgreement | packages/db/src/resident.ts:313-332 | The two backends confirm alike if and only if a matching row carries its pending cents; otherwise Postgres violates not-null where memory clears the reservation. |
| UsageReports.ReservedIff | packages/db/src/resident.ts:283-311 | A reservation takes the row if and only if there is none, it is another provider's, whose cents and reference are forgotten, or its confirmed cents are those that were read and nothing else is pending. |
| UsageReports.SettledIff | packages/db/src/resident.ts:313-344 | Confirming and releasing touch the row only under the identifier that is pending on it. |
| UsageBilling.IdentifierDeterminesTotal | apps/api/src/services/paymentService.ts:149-158 | The identifier determines the cumulative cents, whether or not the installation id had to be shortened to a hash. |
| UsageBilling.IdentifierFits | apps/api/src/services/paymentService.ts:136-158 | The identifier has at most 100 characters, and is the readable one whenever that fits. |
| UsageBilling.RunKeepsInv | packages/db/src/resident.ts:283-344 | With one provider every step of every runner, crashes included, keeps the row, the runners and the provider's meter in agreement. |
| UsageBilling.StepIsExactWhenFaithful | packages/db/src/resident.ts:283-344 | From books in agreement, any step that takes the row to no past provider leaves them so if and only if it is no confirm of an event that the row's provider had not accepted. |
| UsageBilling.TakeoversStayExact | packages/db/src/resident.ts:283-344 | In every run that returns to no provider, the row's provider has at every moment accepted exactly what the row settles to if and only if no confirm lands for an event it had not accepted. |
| UsageBilling.TakeoverIsExact | apps/api/src/services/paymentService.ts:290-400 | After any run, an undisturbed pass that takes the row over is exact if and only if the provider had accepted nothing, or exactly the new total when its identifier is among what it accepted. |
| UsageBilling.NothingBilledNothingAccepted | packages/db/src/resident.ts:283-344 | In every run nothing was billed at a provider exactly when it accepted no event. |
| UsageBilling.StaleConfirmCreditsTheNewProvider | packages/db/src/resident.ts:313-332 | A run without a return in which the row says 100 cents of a provider that accepted none. |
| UsageBilling.ExactlyOnceBilling | apps/api/src/services/paymentService.ts:290-400 | For every interleaving with one provider, the cents the provider accepted are the row's confirmed cents, plus the pending difference exactly when its event was accepted but not yet confirmed; and they are a total that some run had read. |
| UsageBilling.UndisturbedPassSettles | apps/api/src/services/paymentService.ts:290-400 | After any run, one undisturbed pass over a row that was not reserved within the last five minutes settles what was pending or newly due, bills exactly that and leaves nothing pending; without a customer it changes nothing, except at the fake provider. |
| UsageBilling.PassAnswers | apps/api/src/services/paymentService.ts:306-350 | What such a pass answers: a month that now totals less is overreported by exactly what the provider accepted beyond it, an equal one is unchanged, and a larger one is billed to a customer. |
| UsageBilling.HeldRowIsLeftAlone | apps/api/src/services/paymentService.ts:321-328 | Within five minutes of a reservation a pass of the row's provider answers in progress and changes neither row nor meter. |
| UsageBilling.CrashIsRecovered | apps/api/src/services/paymentService.ts:138-142 | A runner that crashed anywhere is made up for by its next pass once five minutes have gone by. |
| UsageBilling.LostAnswerIsRetriedAtOnce | apps/api/src/services/paymentService.ts:389-399 | After a refusal or a lost answer whose release landed, the very next pass bills the reservation, once, whether or not it had been accepted. |
| UsageBilling.LostConfirm | apps/api/src/services/paymentService.ts:389-399 | After a confirm whose answer is lost the release changes nothing if it had landed, and else leaves the reservation free to be retried at once. |
| UsageBilling.ProviderSwitchOverbills | packages/db/src/resident.ts:283-311 | With two providers the row says 150 cents while the first provider accepted 250. |
| SlidingWindow.WindowBound | apps/api/src/services/contactService.ts:85-92 | Checking only at admission bounds every window, wherever it ends. |
| SlidingWindow.SpanBound | packages/db/src/rateLimits.ts:12-30 | A span of k windows holds at most k times the limit. |
| RateLimits.WindowStart | packages/db/src/rateLimits.ts:22-30 | A window longer than the retention is refused, and a start that is granted lies within the retention. |
| RateLimits.MemoryRateLimits.Count | packages/db/src/memory.ts:1017-1025 | While no key was evicted, the walk over the pruned index equals the count over the full log of hits, for one key or for all. |
| RateLimits.MemoryRateLimits.Sweep | packages/db/src/memory.ts:297-308 | Removes exactly the hits up to the instant and the keys left empty, says how many hits went, and keeps the index exact. |
| RateLimits.MemoryRateLimits.Record | packages/db/src/memory.ts:1026-1043 | Sweeps when the last sweep is over a minute old, moves the key to the end with the hit added, and drops the oldest keys beyond 10 000; with fewer hits than that in the retained span nothing is dropped and the index stays exact. |
| RateLimits.SweptAgrees | packages/db/src/memory.ts:297-308 | After a sweep the index answers every later question as the full log does. |
| RateLimits.TouchedAgrees | packages/db/src/memory.ts:1026-1043 | After a hit is added the index answers every question as the longer log does, and lists each key once. |
| RateLimits.KeysAtMostHits | packages/db/src/memory.ts:1026-1043 | No more keys are tracked than hits are held. |
| RateLimits.PruneKeepsVerdicts | packages/db/src/rateLimits.ts:34-64 | Pruning the table at the retention changes no count that a limiter may ask for then or later. |
| RateLimits.PrunedIsWhatIsLeft | packages/db/src/rateLimits.ts:57-64 | Pruning deletes the hits before the instant and no other. |
| RateLimits.EvictedIsTheTail | packages/db/src/memory.ts:1026-1043 | What is kept of more than 10 000 keys is the newest of them. |
| ContactService.EveryWindowIsBounded | apps/api/src/services/contactService.ts:23 | In a log the limiter produced, no ten-minute window holds more than 60 sends, or more than 5 of one ip. |
| ContactService.LimitedIff | apps/api/src/services/contactService.ts:85-92 | An ip is limited if and only if the last ten minutes of the log hold 60 sends, or 5 of its own. |
| ContactService.RetainedHitsAreFew | packages/db/src/rateLimits.ts:12 | The retained span holds at most 420 hits, so the eviction of keys is out of reach. |
| ContactService.ContactService.IsLimited | apps/api/src/services/contactService.ts:85-92 | The pruned index gives the verdict of the full, unpruned log. |
| ContactService.ContactService.Submit | apps/api/src/services/contactService.ts:98-137 | Refused exactly by that verdict; every attempt that reaches the mailer is recorded and no other; the bounds and the exactness are kept for good. |
| DemoApprovals.ClosedWeekIsCapped | packages/db/src/orders.ts:409-430 | Every closed seven-day window holds at most the cap of approvals. |
| DemoApprovals.OrderTable.StampDemoApproval | packages/db/src/memory.ts:660-675 | Stamps exactly an unstamped order while fewer than the cap were approved since the start of the window, and changes nothing else. |
| DemoApprovals.OrderTable.ApproveDemoBuild | apps/api/src/services/orderService.ts:281-311 | Says which of the four it was: not approvable, approved already, stamped, or over the cap as counted over the last seven days; with stamps in time order an unforced approval keeps every closed week under the cap, and no stamp ever changes. |
| MonthlyCap.MonthlyCap.Load | packages/resident/src/cap.ts:25-31 | The cached month, or the stored one; a failing read leaves everything as it was. |
| MonthlyCap.MonthlyCap.Add | packages/resident/src/cap.ts:42-48 | Adds a positive count in memory before the write, says whether the cap is reached, and a failing write leaves the store behind the count. |
| MonthlyCap.Resident.RunNext | packages/resident/src/resident.ts:458-470 | A build starts only under the cap, with the smaller of the task budget and what the month has left; a failing read of the counter starts nothing. |
| MonthlyCap.Resident.OnTokens | packages/resident/src/resident.ts:371-384 | Only the growth of a build's total is counted. |
| MonthlyCap.CapHoldsEveryMonth | packages/resident/src/cap.ts:17-20 | When a build's totals only grow and overshoot its budget by at most one turn, every month's counter stays within the cap and one turn, across restarts, failing store calls and builds that run into the next month. |
| MonthlyCap.EveryTokenIsAccountedFor | packages/resident/src/resident.ts:335-384 | The stored counters, what memory has not saved and what failing calls made the cap forget add up to exactly the final usage of every build. |
| MonthlyCap.NothingIsMissedTwice | packages/resident/src/cap.ts:25-48 | What memory has not saved and what was forgotten are never negative. |
| MonthlyCap.CountersAreExactWhenNothingIsForgotten | packages/resident/src/cap.ts:17-48 | The stored counters never exceed the builds' final usage, and equal it if and only if nothing is unsaved and nothing was ever forgotten. |
| MonthlyCap.RestartForgetsAFailedWrite | packages/resident/src/cap.ts:42-48 | A run in which a failed write and a restart leave the month's counter at zero after a build spent tokens. |
| MonthlyCap.CountersAreTheFinalUsage | packages/resident/src/cap.ts:17-20 | While the store works, the counters are exactly the final usage of every build, restarts included. |
| MonthlyCap.OverlappingAddsKeepTheCount | packages/resident/src/cap.ts:42-48 | However the writes of overlapping adds land, memory holds the whole count, and the store does if and only if the write that landed last is the newest. |
| Deprovision.TargetsAreTheFencedSorted | packages/org/src/deprovision.ts:76-83 | What a run acts on is the discovered resources tagged `Service` = `mf-delivery`, each as often as it was discovered, and no other, sorted by service priority and then ARN. |
| Deprovision.TrailIsOfTheTagged | packages/org/src/deprovision.ts:126-163 | The trail of a real run has an entry for an ARN if and only if a discovered resource with that tag has it. |
| Deprovision.TargetsComeInServiceOrder | packages/org/src/deprovision.ts:57-83 | Of two targets the earlier one's service comes no later in the mode's order, compute before storage or on resume the reverse, listed services come before unlisted ones, and within a service ARNs are collated. |
| Deprovision.DiscoveryOrderIsIrrelevant | packages/org/src/deprovision.ts:100-163 | The targets do not depend on the order of discovery. |
| Deprovision.EveryResourceIsAudited | packages/org/src/deprovision.ts:169-179 | One entry per resource, in order: no failure cuts a run short. |
| Deprovision.Deprovision | packages/org/src/deprovision.ts:100-163 | Refused exactly for a malformed slug or an unscoped destructive run; a dry run plans every target and changes nothing; a real run's trail and world are those of the targets in the order given or the mode's; fenced and skipped are the numbers of discovered resources with and without the delivery tag; the trail follows what the log already held, all of it is tallied, and the tally is the fenced count if and only if the log was empty. |
| Deprovision.TallyTotal | packages/org/src/deprovision.ts:181-185 | The tally's counters add up to the number of entries. |
| Deprovision.TallyCountsEach | packages/org/src/deprovision.ts:181-185 | Each counter is the number of entries with its outcome. |
| Deprovision.Aggregate | apps/api/src/services/accountService.ts:159-178 | Folding several runs keeps the summary the tally of the concatenated entries, adds up what they discovered, fenced and skipped, and reports no failure exactly when none of them did. |
| Actuators.RunIsPointwise | packages/org/src/actuator.ts:69-115 | A run treats each resource as if it were alone: its report and next state depend on its own state and fault only, and everything else is unchanged. |
| Actuators.OneResource | packages/org/src/actuator.ts:69-115 | What each resource comes to, whatever the others do: its report and its state, for every mode, fault and state before. |
| Actuators.FenceAndFaultIsolation | packages/org/src/deprovision.ts:100-179 | Whatever fails and in every mode, a resource that no discovered one with the delivery tag names keeps its state, and a named one that does not fail reaches the goal unless it was gone. |
| Actuators.TeardownTwice | packages/org/src/actuator.ts:69-115 | A second teardown changes nothing and reports every resource already gone. |
| Actuators.SuspendThenResume | packages/org/src/actuator.ts:69-115 | Suspending and resuming restores a world whose fenced resources were all active. |
| Actuators.FakeWorld.Act | packages/org/src/actuator.ts:69-115 | The object's updates are the functional actuator's. |
| Actuators.CleanTeardownAccountsForEverything | packages/org/src/actuator.ts:192-228 | With handlers that return only deleted or already gone, after a real teardown that counts no failure every resource with the delivery tag has an entry that says it was deleted, was gone, or goes down with its owner. |
| Actuators.CleanRunIff | packages/org/src/actuator.ts:192-228 | A run counts no failure if and only if no handler of a resource with the delivery tag failed, but for finding it gone, and in a teardown every such resource has a handler or an owner that takes it down. |
| SseUsage.SseUsageParser.Push | apps/job/src/anthropicForwardProxy.ts:164-169 | After any chunk all complete lines are folded in, and the remainder is the open last line, free of newlines. |
| SseUsage.SseUsageParser.Result | apps/job/src/anthropicForwardProxy.ts:170-174 | What comes out is the fold over the lines of the whole text, however it was cut into chunks. |
| SseUsage.LastValueWins | apps/job/src/anthropicForwardProxy.ts:145-162 | A usage key is present exactly when some line carries it, with the value of the last such line. |
| SseUsage.LastModelWins | apps/job/src/anthropicForwardProxy.ts:145-162 | The model is the one that the last usage line with a model names. |
| SseUsage.StreamUsage | apps/job/src/anthropicForwardProxy.ts:145-174 | A stream declares usage if and only if some line carries input or output tokens; each of the four counts is the last value of its own key, or zero. |
| SseUsage.EstimatedTokens | apps/job/src/anthropicForwardProxy.ts:225-250 | The estimate is the least number of tokens of four bytes that covers the bytes. |
| SseUsage.Relay | apps/job/src/anthropicForwardProxy.ts:178-264 | The sample carries the declared usage, an estimate over all bytes exactly for a successful response that ends and declares none, and zero otherwise; a response that breaks off is zero whatever it declared. |
| TextLines.SplitConcat | apps/job/src/anthropicForwardProxy.ts:164-169 | More text only touches the open last line of a split. |
| AuditLog.ParseUndoesSerialise | packages/resident/src/audit.ts:87-102 | Parsing a serialised log gives back its entries. |
| AuditLog.TruncatedLogIsAPrefix | packages/resident/src/audit.ts:91-102 | A log cut off anywhere still reads as a prefix of its entries. |
| AuditLog.NothingIsLostWithinADay | packages/resident/src/audit.ts:45-69 | Until a later day is written, under any pattern of failed reads and writes, the next append that succeeds stores every entry of its day so far, in append order. |
| AuditLog.AppendAndOtherDays | packages/resident/src/audit.ts:62-66 | An append changes what is known of another day if and only if it succeeds on a later day while the other one has unwritten entries. |
| AuditLog.MidnightLosesAnUnwrittenEntry | packages/resident/src/audit.ts:65 | An entry whose write failed is gone after the next day's first write. |
| AuditLog.AuditLog.Append | packages/resident/src/audit.ts:45-69 | The queued append is the function the results above are about, and resolves exactly when its entries reached the store. |
| ModelPrice.PricesEffectiveAt | packages/models/schemas/ModelPrice.ts:122-135 | The loop computes the map the results below are about. |
| ModelPrice.ChosenAreTheLatest | packages/models/schemas/ModelPrice.ts:118-135 | A prefix is priced exactly when some row of it is in effect, and then by one whose text none in effect exceeds. |
| ModelPrice.OnlyRowsInEffectMatter | packages/models/schemas/ModelPrice.ts:118-135 | With unique prefix and text, the prices depend only on which rows are in effect: not on row order, nor on rows dated later. |
| ModelPrice.LatestTextOrLatestInstant | packages/models/schemas/ModelPrice.ts:127 | Of two rows of a prefix the later instant wins in both orders if and only if its text is the later text. |
| ModelPrice.TextsAreInOrder | packages/db/src/modelPrices.ts:28 | Of two times in the format the stores write, the later text is the later time. |
| ModelPrice.StoredRowsChooseTheLatestInstant | packages/models/schemas/ModelPrice.ts:118-135 | For any number of rows in that format, the chosen row of a prefix has the latest instant in effect. |
| ModelPrice.WholeSecondBeatsItsFraction | packages/models/schemas/ModelPrice.ts:127 | A whole second's text counts as later than that of any fraction of it. |
| ModelPrice.LongestMatchIsUnique | packages/models/schemas/ModelPrice.ts:41-49 | A longest matching prefix is the one chosen, whatever the order of the keys. |
| ModelPrice.CostOfOne | packages/models/schemas/ModelPrice.ts:41-78 | A usage costs its four counts at the rates of the longest key that begins its model, or of the fallback when no key but an empty one does, per million tokens. |
| ModelPrice.CostsAddUp | packages/models/schemas/ModelPrice.ts:81-86 | The cost of a job is the sum over its models. |
| ModelPrice.LaterPricesNeverReprice | apps/api/src/services/jobService.ts:330-333 | Adding rows dated after the order to a table that has rows, and reading it in any order, leaves the job's cost the same. |
| ModelPrice.FirstRowReplacesTheDefaults | packages/db/src/modelPrices.ts:66-69 | The first row of an empty table takes the built-in list away even when dated later; the cost stays the same if and only if the list priced the job as the fallback does. |

## Left out

- AWS, payment, GitHub, mail and git calls: each is an outcome given to the step, including "applied, then failed" where the caller cannot tell.
- UTF-8 decoding, JSON parsing and schema validation: parameters, with the round-trip facts about JSON text stated as a hypothesis (`AuditLog.Codec.Lawful`).
- The reporter's `PATCH`, `claim` and the loss of their responses: status writes share the queue, and only events carry numbers.
- The reporter that writes to the database directly, used in local development: it skips tokens and ranks.
- `JobControl` takes any existing job as the newest delivered one of a redelivery, and lets the sweep fail any active job: which jobs qualify is decided by calls whose answers are arbitrary here.
- Overlapping rebuild calls for one job: the results about whole runs take one call per failure, as the two callers make it; two calls that overlap are the `RacingCall` results.
- JobService.JobService.ReportEvents: the refusal of a batch with a malformed gate report, and the gate list on the row.
- JobService.JobService.ReportUpdate: the price of the usage, and the second write of the other fields after a refused status, which only a kill between the authentication and the write brings about.
- JobResults.HeldMailIsAnswered: a page counts as sent when the code sends it; that the mailer delivered it, and the cap of ten notices per job, are not modelled.
- Usage, plan, gate and approval columns of a job, what lands on a killed row after a refused status write, deployed-service records and the hosting window stamped at delivery: no rule above reads them.
- JobTable.MemoryJobs.InsertJob: the row keeps `mode` and `sourceJobId` as the SQL row does, although the in-memory one drops them.
- `initHostingUntil`, `orders.upsert` and the change time that `setLifecycle` re-stamps: single writes with no rule beyond their own.
- Statement atomicity inside Postgres: each SQL statement or transaction is one step.
- The contact form's process-local fallback store, and limiter checks that overlap: check and record are one step, as they are for a single process.
- FinalExport.RunHostingSweep: mails about failed exports are not modelled; the grace sweep differs only in which orders are due and in not counting exports.
- Fence tags and customer slugs computed from a job, and the record effects that follow a teardown.
- The abort signal of the deprovision engine and the handlers' own page loops; an audit log passed in is its entries, so two runs that share one at the same time are not modelled.
- ModelPrice.LaterPricesNeverReprice: costs are exact reals; the rounding to four decimals is not modelled.
- LivePreviews.TornDownOrderIsEmpty: making or dropping a database or a storage prefix is one step each, seen by others as a whole; a teardown that throws half-way is one that did or did not drop it.
- MonthlyCap.EveryTokenIsAccountedFor: adds are taken one after another, as are those of `CountersAreTheFinalUsage`; adds that overlap within a month are `OverlappingAddsKeepTheCount`, and two reads that overlap at a change of month, of which one replaces the other's count, are not modelled.
- MonthlyCap.CountersAreTheFinalUsage: as the line before.
- MonthlyCap.CapHoldsEveryMonth: that a build overshoots its budget by at most one turn is the harness's promise and a hypothesis here, as is a clock that does not run backwards.
- `infra/`, the web apps, templates and configuration parsing.
