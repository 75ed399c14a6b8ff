# Heatcheck: verified model of the backend

A Dafny model of the transactional core of the Heatcheck backend (Go and PostgreSQL): the
submission-allowance ledger, the job queue and its workers, subscription snapshots,
refresh-token families, copyright and moderation, ranks and streaks, and four smaller
algorithms. `dafny verify dfyconfig.toml` checks everything.

## How the model is built

Tables are finite maps, and instants are integers in nanoseconds. There is one clock: a
handler's `params.Now` and the database's `now()` are the same instant, and it never goes
back. Each SQL transaction is one atomic step; a rollback leaves the rows as they were. Each
part has three layers:

1. functions that say what one transaction does to the rows and which error it returns;
2. a class (`Store`, `Queue`, `Worker`, `Limiter`) whose methods update fields in place,
   branch by branch as the Go code does, and whose contracts equate the new contents with
   those functions;
3. a `Run` over arbitrary sequences of steps, an invariant, and the theorems over every run.

`Requests`, `Leases`, `Sessions` and `Rulings` say a second time, without the functions of the
first layer, when each transaction gives which answer and what it leaves in which column.

| file | what it covers |
|---|---|
| `Prelude.dfy` | options, results, the store's errors, facts about finite sets |
| `Calendar.dfy` | proleptic Gregorian calendar, usage windows, age gate |
| `Billing.dfy` | subscription and entitlement rows as one last-writer-wins register |
| `Ledger.dfy` | reservations: create, complete, release, submit, clean up; the three ceilings |
| `Requests.dfy` | what the ledger answers to each request, column by column; where submissions come from |
| `Lifecycle.dfy` | one reservation through a run; what cleanup does not change |
| `Interleaving.dfy` | the create transaction statement by statement, under its advisory lock |
| `Midnight.dfy` | how far creates that wait across midnight exceed the ceilings |
| `Submissions.dfy` | the two statuses of a submission |
| `Jobs.dfy`, `Workers.dfy` | leases, retries, crash recovery; several workers that may crash or outlive a lease |
| `Leases.dfy` | claims and failures column by column; how long a failed job waits |
| `Settling.dfy` | how far a queue moves without new jobs |
| `Orphans.dfy` | which jobs finish, and what becomes of one whose last worker is lost |
| `Tokens.dfy` | rotation, replay detection (section 4.14.2 of RFC 9700), sessions, cleanup |
| `Sessions.dfy` | what each request about tokens answers and changes |
| `Moderation.dfy` | notices, counter-notices, decisions, appeals, verification, publication |
| `Takedowns.dfy` | what claims do to a moderator's decision over a run |
| `Rulings.dfy` | what each ruling answers and changes; what a submission was passed by |
| `Ranks.dfy`, `Streaks.dfy` | leaderboard, share card, `rank()`, gaps and islands |
| `RateLimits.dfy`, `Framing.dfy`, `Wrapping.dfy` | fixed windows, INSTREAM framing, greedy title wrapping |

## What the code does that one might not expect

- **Midnight.** A create that starts before a UTC midnight counts with the windows of the old
  day and misses what is consumed after it. Over every interleaving, a ceiling is exceeded at
  most by the number of such late inserts under it (`Interleaving.LateInsertsBound`). For any
  midnight and any positive limits some run reaches this bound for the platform's day
  (`Midnight.PlatformExceeded`), and for the day of one user as far as the platform and the month
  leave room (`Midnight.UserExceeded`). At a midnight that ends a month, the lowest of the three
  limits, the month's included, is exceeded by any number
  (`Midnight.TurnOfMonthExceeded`). The ceilings hold throughout a run if and only if every
  insert would pass the capacity check again at its commit (`Interleaving.CeilingsHoldExactly`).
- **Restoring after a copyright claim.** README.md:271-273 of the repository says that a
  restored notice re-approves its submission only when no other moderation restriction
  remains. The code looks only at the last logged decision
  (`internal/store/copyright.go:265-312`), and actioning a notice on a rejected submission
  replaces the rejection by a copyright removal. `Moderation.RejectionForgotten` shows a
  rejected clip coming back approved; `Moderation.ActionThenRestore` says exactly when a claim
  that comes and goes leaves moderation as it was, and `Takedowns.ClaimsDecide` what any number of
  claims come to over any run.
- **Age gate.** On 29 February, when the cutoff year is a common year, the cutoff rolls over to
  1 March, and somebody born on that day passes one day early
  (`Calendar.AgeGateIsBirthdayRule`, an exact condition).
- **Token lifetime.** Cleanup can fail on the `replaced_by` reference after some run if and
  only if a rotation has issued a token that expires before the one it replaces
  (`Tokens.CleanupSafeExactly`). With one lifetime for all tokens it never does; once the
  lifetime is shortened it does (`Tokens.ShorterLifetimeBlocksCleanup`).
- **Rate limit below one.** The first request of a window is admitted even when the maximum is
  zero or negative, so the bound is `max(1, maximum)`.
- **Empty claims.** A claim that finds no job rolls back its recovery updates. So a job whose
  last attempt was lost in a crash stays `running`, once its lease has expired, exactly until the
  next claim that succeeds
  (`Orphans.OrphanWaitsForClaim`), and its submission reaches manual review exactly then
  (`Orphans.LostMeansManualReview`). Without new jobs, such a job can still finish if and only if
  some active job has an attempt left (`Orphans.CanEndExactly`), and all jobs can if and only if
  that is so or no job is lost in this way (`Orphans.AllCanEndExactly`).
  `Orphans.FiveCrashesLeaveItPending` gives a run after which a submission stays pending; the
  hourly cleanup job brings about a claim that succeeds (`Orphans.MaintenanceUnblocks`).
- **Source times.** Equal source times make the subscription rows depend on the order of
  delivery, exactly when the tied snapshots differ (`Billing.ConvergesExactly`).
- **Ties.** With equal score and creation time the leaderboard position is the database's
  choice, while the share card and `rank()` still agree (`Ranks.PositionAndShareRank` gives the
  exact difference).

## Model

| member | source | states |
|---|---|---|
| Ledger.QueriesMeasureLoad | internal/store/subscriptions.go:321-371 | the two counting queries, with the windows of the instant, count exactly the reservations consumed in its UTC day or month plus the live ones |
| Ledger.Store.CreatePaidMediaUpload | internal/store/subscriptions.go:278-420 | which of the account, entitlement, platform, day, month, size and key checks refuses first, with the reset time, and otherwise one upload and one reservation with the same expiry |
| Requests.CreateAnswers | internal/store/subscriptions.go:284-416 | each answer if and only if its check is the first to fail; admitted exactly for an active account with a running entitlement and room under every ceiling |
| Requests.CreateWrites | internal/store/subscriptions.go:389-416 | an admitted create adds one pending upload and one reservation with the same expiry, a refused one nothing |
| Requests.LimitNamed | internal/store/subscriptions.go:373-387 | a refusal names the first full ceiling, its limit and the first instant of that ceiling's next day or month |
| Ledger.Store.CompletePaidMediaUpload | internal/store/subscriptions.go:423-469 | tests the upload's expiry and extends the reservation's; a missing reservation rolls the upload back |
| Requests.CompleteAnswers | internal/store/subscriptions.go:423-469 | completed if and only if pending, owned, unexpired, of the announced size and reserved; then only the status and the reservation's expiry change |
| Ledger.Store.ReleaseUploadReservation | internal/store/subscriptions.go:471-498 | only a reserved row is released and only a pending upload expired |
| Requests.ReleaseOwned | internal/store/subscriptions.go:471-498 | releasing changes only a reserved reservation and a pending upload of the user |
| Ledger.Store.CreateSubmission | internal/store/submissions.go:51-166 | every refusal in the order of the code, and otherwise the submission, the used upload, the consumed reservation and the analysis job together |
| Requests.SubmitAnswers | internal/store/submissions.go:51-166 | accepted if and only if the challenge is published and within its time, the upload owned and complete, the reservation owned and live, the entitlement running and nothing clashes; otherwise the error of the first of these that fails |
| Requests.SubmitWrites | internal/store/submissions.go:89-166 | an accepted submission writes a pending row and its job and uses up upload and reservation; a refused one nothing |
| Requests.SubmissionsEarned | internal/store/submissions.go:51-166 | over every run, each submission was made within its challenge's time, for a complete and reserved upload, by a user with a running entitlement, and has not changed since |
| Lifecycle.CleanupUnobservable | internal/store/accounts.go:645-650 | wherever the deletion of old reservations is put into a run, every load, every consumption, all other tables and the answer to every later request stay the same |
| Ledger.OnlyCreateAddsLoad | internal/store/subscriptions.go:436-461 | no step but a create adds a row to the load of any ceiling: completing never revives an expired reservation, submitting and the clock only move or drop rows |
| Ledger.ConsumptionComesFromLoad | internal/store/submissions.go:89-155 | no step loses a consumed row, and a row it consumes existed and was live just before, in the current day and month, in which it is then counted |
| Ledger.CreateBelowCeiling | internal/store/subscriptions.go:373-416 | a create keeps the load of every ceiling, also of other users, within its limit |
| Ledger.StepKeepsInv | internal/store/subscriptions.go:278-498 | every step keeps: equal expiries of a pending upload and its reservation, no consumption in the future, consumed rows and submissions paired, every ceiling respected |
| Ledger.FullMeansFull | internal/store/subscriptions.go:373-387 | the capacity check passes if and only if there is room under every ceiling that covers the user |
| Ledger.InsertFitsExactly | internal/store/subscriptions.go:373-416 | an accepted insert of a live reservation keeps every load within its ceiling if and only if the capacity check passes with the windows of the commit |
| Ledger.AllowanceNeverExceeded | internal/store/subscriptions.go:317-416 | after any run from an empty ledger, consumed rows of any UTC day and month stay within the user's limits and of any UTC day within the platform's |
| Ledger.ConsumedForever | internal/store/accounts.go:639-656 | no step changes or deletes a consumed reservation, so counting rows counts every consumption |
| Lifecycle.CreateCharges | internal/store/subscriptions.go:389-416 | a successful create adds exactly its own row to the load of exactly the ceilings that cover its user |
| Lifecycle.ReleaseUndoesCreate | internal/store/subscriptions.go:471-498 | releasing gives back, under every ceiling, exactly what the create took |
| Lifecycle.AdmittedUploadCanBeSubmitted | internal/store/submissions.go:51-166 | whatever other steps, ticks and cleanups come in between: completed before it expires and submitted before the extended expiry to an open challenge by an entitled user, an admitted upload is never refused, ends as one consumed reservation and one submission, and changes no load by being submitted |
| Ledger.OneSubmissionPerConsumption | internal/database/migrations/000003_paid_participation.sql:67-83 | over any run, submissions, consumed reservations and enqueued analyses correspond one to one |
| Ledger.Store.GetSubscriptionOverview | internal/store/subscriptions.go:172-275 | the shown subscription, expired once its period is over, its tier, and limits, used and remaining counts, where the used counts are the loads that the gate checks |
| Requests.OverviewShows | internal/store/subscriptions.go:172-275 | every column shown: the row as it is or as expired, used and left, and the first instants of the next day and month |
| Ledger.OverviewAgreesWithGate | internal/store/subscriptions.go:189-382 | in every reachable state, with an active account and room on the platform, a create is admitted if and only if the overview shows an active subscription and both remaining counts positive |
| Interleaving.EarlierLoadCovers | internal/store/subscriptions.go:323-371 | a count taken with an earlier instant of the same day is an upper bound of the load now |
| Interleaving.StepKeepsInv | internal/store/subscriptions.go:317-416 | every statement of every create, and every other transaction, at any time, keeps a bound on load and consumption under each ceiling, raised by one for a late insert, and keeps the lock holder's counts valid upper bounds |
| Interleaving.LateInsertsBound | internal/store/subscriptions.go:315-416 | over every interleaving, whatever the clock does, consumption exceeds a ceiling at most by the number of inserts that commit after the day or month in which their create started |
| Interleaving.AllowanceSurvivesInterleaving | internal/store/subscriptions.go:317-416 | with creates split into check, lock, two counts and insert, and all else in between, no ceiling is exceeded in a run without such a late insert |
| Interleaving.NoMidnightNoLateInsert | internal/store/subscriptions.go:315-317 | no insert is late, under any ceiling, while no create in flight sees midnight pass |
| Interleaving.CeilingsHoldExactly | internal/store/subscriptions.go:373-416 | over every interleaving, all loads stay within their ceilings at every moment if and only if every insert would pass the capacity check again at its commit |
| Interleaving.RoomKeepsCeilings | internal/store/subscriptions.go:373-416 | and then the consumption of every day and month stays within its ceiling too |
| Interleaving.Uninterrupted | internal/store/subscriptions.go:284-416 | the statements of a waiting create, back to back, decide by the instant at which it started |
| Interleaving.AtomicIsUninterrupted | internal/store/subscriptions.go:278-420 | the split create, uninterrupted, is the atomic transaction of the ledger |
| Midnight.PlatformExceeded | internal/store/subscriptions.go:315-416 | for any midnight, any limits and any number k of waiting creates, a run with k late inserts consumes k more than the platform's daily limit |
| Midnight.UserExceeded | internal/store/subscriptions.go:315-416 | likewise for the day of one user, as far as the platform and the month leave room |
| Midnight.TurnOfMonthExceeded | internal/store/subscriptions.go:315-416 | at a midnight that ends a month, under any limits, one user consumes k more than the lowest of the three limits in the new day and month, by k late inserts under that ceiling |
| Calendar.PartsOfDate | internal/store/subscriptions.go:500-510 | year, month and day give back what `time.Date` was given, on every valid date |
| Calendar.DateInClosedForm | internal/store/subscriptions.go:500-510 | the day number of every valid date is the closed Gregorian formula of years, fourths, hundredths and four hundredths |
| Calendar.DayWindowsTile | internal/store/subscriptions.go:500-510 | the day window holds its instant, is one day long, holds exactly that day, and the next one starts where it ends |
| Calendar.MonthWindowsTile | internal/store/subscriptions.go:500-510 | month windows hold their instant, coincide or are disjoint, and abut |
| Calendar.MonthWindowHolds | internal/store/subscriptions.go:500-510 | the month window holds exactly the instants of the same calendar month |
| Calendar.DayInsideMonth | internal/store/subscriptions.go:500-510 | every day window lies inside one month window |
| Calendar.AgeGateIsBirthdayRule | internal/httpapi/auth_handlers.go:474-486 | the gate is the birthday rule or, exactly, a 29 February whose cutoff rolled over to the birth date 1 March |
| Calendar.AgeGateMonotone | internal/httpapi/auth_handlers.go:474-486 | for any birth instant the gate never goes from true to false as time goes on |
| Billing.Store.UpsertSubscription | internal/store/subscriptions.go:92-170 | each table takes the snapshot unless its own row is newer; a snapshot without a source time counts as produced now |
| Billing.Store.SyncSubscription | internal/store/subscriptions.go:77-90 | one stamped snapshot is written to both tables |
| Billing.Store.ApplyRevenueCatEvent | internal/store/subscriptions.go:32-75 | a recorded event ID makes the delivery a no-op; otherwise the ID is recorded and every snapshot written in order |
| Billing.EventIsSyncs | internal/store/subscriptions.go:45-73 | an event not yet recorded does what syncing its snapshots one by one does, and records its ID |
| Billing.NewestReadingWins | internal/store/subscriptions.go:32-170 | over every run, both rows of a key show, column by column, the newest snapshot brought by a sync or by the first delivery of an event |
| Billing.RunIsHistory | internal/store/subscriptions.go:32-170 | any mix of syncs and webhook events writes the tables exactly as its list of accepted snapshots does |
| Billing.TablesAgree | internal/store/subscriptions.go:92-170 | in every reachable state, ties included, the entitlement row is the projection of the subscription row |
| Billing.LastWriterWins | internal/store/subscriptions.go:92-170 | after any run both rows hold the newest snapshot written for the key, the last one among equal source times |
| Billing.Convergence | internal/store/subscriptions.go:32-170 | two runs that write the same snapshots, in any order and with repeats, end with equal rows when those tied at the newest source time agree |
| Billing.ConvergesExactly | internal/store/subscriptions.go:32-170 | the order of delivery of a set of snapshots does not matter if and only if those tied at the newest source time agree |
| Billing.TiesDependOnOrder | internal/store/subscriptions.go:118-160 | two syncs of different snapshots with one source time end differently by order |
| Billing.RedeliveryIsNoOp | internal/store/subscriptions.go:45-62 | delivering a recorded event ID again, with any content and however much later, changes nothing |
| Jobs.Queue.EnqueueJob | internal/store/jobs.go:11-33 | a key that an active job carries returns that job and adds nothing; otherwise one fresh queued row |
| Leases.KeyKeepsOut | internal/store/jobs.go:11-33 | a new job is kept out if and only if it has a key that a queued or running job carries |
| Jobs.Queue.NextJob | internal/store/jobs.go:116-126 | finds a due job with attempts left that no claimable job precedes, or establishes that there is none |
| Jobs.Queue.ClaimJob | internal/store/jobs.go:67-153 | recovery and claim together, or, when nothing is claimable, an unchanged queue in which no job is due and no stale job has an attempt left |
| Leases.ClaimTakesFirst | internal/store/jobs.go:97-137 | the claimed job has an attempt left and is due or its lease is over, none such has been due for longer, and its next attempt belongs to the worker |
| Leases.ClaimSweepsOthers | internal/store/jobs.go:97-113 | every other job whose lease is over is queued again or, on its last attempt, buried; the rest is untouched |
| Leases.ClaimReviewsLost | internal/store/jobs.go:78-96 | a claim sends a submission to manual review if and only if it is pending and its analysis is buried |
| Jobs.NothingToClaim | internal/store/jobs.go:97-148 | when recovery leaves nothing claimable, no queued job was due and every stale job was exhausted |
| Jobs.Queue.CompleteJob | internal/store/jobs.go:155-178 | only the lease holder completes; anybody else gets a conflict and changes nothing |
| Jobs.Queue.FailJob | internal/store/jobs.go:180-204 | the lease holder requeues with backoff or buries the job, by its own attempt count |
| Leases.FailAnswers | internal/store/jobs.go:180-204 | the lease holder queues the job for 2, 4, 8, up to 256 seconds later by its attempt, or buries it now on the last; anybody else gets a conflict |
| Leases.FailureWaits | internal/store/jobs.go:116-204 | over every run after a failed attempt, no claim of the job succeeds before its wait is over, unless it is an account deletion that is moved |
| Leases.ReadyAfterWait | internal/store/jobs.go:116-204 | left alone, a failed job is ready if and only if its wait is over |
| Leases.DeletionMoves | internal/store/accounts.go:302-390 | asking again for an account deletion moves its job, cancelling it ends a queued one now, and no other job is touched |
| Jobs.Queue.CompleteAutomatedAnalysis | internal/store/analysis.go:56-108 | decides a pending or manual-review submission and publishes exactly a passed and approved one |
| Leases.VerdictStored | internal/store/analysis.go:56-108 | stored if and only if the submission is pending or in manual review; published if and only if passed and approved, and dated once |
| Jobs.BackoffDoubles | internal/store/jobs.go:185 | the wait after a failure starts at one second, doubles with each attempt and stays at 256 seconds |
| Workers.StepKeepsInv | internal/store/jobs.go:67-204 | every event of every worker and of the API keeps attempts bounded, leases fenced, keys unique and no submission stranded |
| Workers.NoStrandedSubmission | internal/store/jobs.go:78-113 | for any number of workers and crashes at any point, every pending submission has its analysis job queued or running |
| Workers.ExhaustionMeansManualReview | internal/worker/worker.go:131-143 | the event that buries an analysis job, by failure or by lease expiry, leaves a pending submission in manual review |
| Workers.LeaseFencing | internal/store/jobs.go:155-204 | while a worker holds the lease the row shows its attempt, and completing or failing ends or requeues it as the row's own count calls for; no two workers hold one attempt; without the lease completing and failing are conflicts without effect |
| Workers.AttemptsBounded | internal/store/jobs.go:116-137 | attempts never exceed the maximum, a queued job has one left, and an active key is unique |
| Workers.TerminalForever | internal/store/jobs.go:97-113 | a succeeded or dead job never changes; it can only be purged |
| Workers.MoveSpendsEffort | internal/store/jobs.go:97-204 | every claim, recovery, completion, failure or cancellation lowers twice the attempts left plus one while running, summed over all jobs, by the number of jobs it moves |
| Workers.MovesAreBounded | internal/store/jobs.go:97-204 | without new jobs, the moves of any run number at most the effort that it uses up |
| Settling.CanMoveExactly | internal/store/jobs.go:97-148 | without new jobs, some run moves some job if and only if a job is queued, or running with attempts left, or running under a worker that still holds it |
| Settling.Settles | internal/store/jobs.go:97-204 | from every reachable state some run without new jobs leads to one where every job has ended or is running, out of attempts, without its worker |
| Settling.SettledForever | internal/store/jobs.go:146-148 | from such a state no run without new jobs changes the status or the attempts of any job |
| Orphans.OrphanWaitsForClaim | internal/store/jobs.go:97-148 | over every run, new jobs included, a job out of attempts whose worker is gone and whose lease has expired stays as it is while no claim succeeds, and is dead or purged after the first that does |
| Orphans.LostMeansManualReview | internal/store/jobs.go:78-113 | the submission of such an analysis, while nobody else decides about it, is unchanged while no claim succeeds and in manual review after the first that does |
| Orphans.CanEndExactly | internal/store/jobs.go:97-204 | without new jobs a job can end if and only if it is not such an orphan or some active job has an attempt left |
| Orphans.AllCanEndExactly | internal/store/jobs.go:97-204 | without new jobs all jobs can end in one run if and only if there is no orphan or some active job has an attempt left |
| Orphans.FiveCrashesLeaveItPending | internal/store/jobs.go:97-148 | five crashes leave an analysis running and its submission pending over every later run without a new job or a moderator's decision |
| Orphans.ClaimBuriesOrphans | internal/store/jobs.go:97-137 | the next claim that succeeds, of any job, buries every stale job without attempts left and leaves its pending submission in manual review |
| Orphans.MaintenanceUnblocks | internal/worker/worker.go:87-104 | once the hourly cleanup job is enqueued, the claim of any idle worker succeeds |
| Workers.AheadShrinks | internal/store/jobs.go:116-126 | nothing joins the jobs ahead of an overdue one, and every claim takes one of them |
| Workers.BoundedOvertaking | internal/store/jobs.go:97-148 | the claims that succeed while an overdue job waits are fewer than the queued jobs ordered no later than it |
| Workers.Worker.Maintain | internal/worker/worker.go:87-103 | the cleanup job is enqueued at most hourly, and not while one is active |
| Workers.Worker.Handle | internal/worker/worker.go:162-194 | an analysis succeeds exactly when its verdict was stored; every other kind succeeds or fails as its work does |
| Workers.Worker.Settle | internal/worker/worker.go:119-149 | a result completes the job; an error on the last attempt routes an analysis to manual review before the job is failed |
| Workers.Worker.Turn | internal/worker/worker.go:80-159 | one undisturbed turn of the loop is exactly the maintenance, claim, work and settling events of the worker machine, or no claim because nothing is due |
| Tokens.Store.CreateRefreshToken | internal/store/users.go:252-267 | a new hash starts a family with one usable token |
| Tokens.Store.RotateRefreshToken | internal/store/users.go:269-359 | every outcome: unknown, expired, replayed (the family is revoked), deleted owner, hash conflict, or successor issued and old token revoked with a reference to it |
| Sessions.RotateRefuses | internal/store/users.go:269-338 | why a rotation is refused, each reason an if-and-only-if, and that nothing but a replay changes a row then |
| Sessions.ReplayRevokes | internal/store/users.go:296-308 | a replay revokes what is left of the family now and keeps earlier times |
| Sessions.RotateWrites | internal/store/users.go:325-359 | the new token has the old one's user and family and the expiry asked for; the old one is revoked now and refers to it |
| Tokens.Store.RevokeRefreshToken | internal/store/users.go:361-373 | only an unrevoked token is revoked |
| Sessions.LogoutEnds | internal/store/users.go:361-373 | succeeds if and only if the token is unrevoked; then its family stays without one over every later run and no other row changes |
| Tokens.Store.RevokeOneSession | internal/store/auth_workflows.go:275-288 | revokes the user's unrevoked tokens of one family, or reports that there are none |
| Sessions.EndSessionEnds | internal/store/auth_workflows.go:275-288 | succeeds if and only if the user has an unrevoked token of the family; then the family stays without one over every later run, and no other row changes |
| Tokens.EndAllEndsSessions | internal/store/auth_workflows.go:290-297 | revoking all sessions leaves every family of the user without a usable token over any later run, and touches no other user's token |
| Tokens.Store.ConsumeReset | internal/store/auth_workflows.go:178-236 | an open reset token is consumed with all others of its user, and every session ends |
| Sessions.ResetAnswers | internal/store/auth_workflows.go:178-236 | succeeds if and only if the reset token is open and unexpired; then exactly the user's reset tokens are spent and the user's tokens revoked |
| Sessions.ResetsStaySingle | internal/store/auth_workflows.go:127-176 | in every reachable state a user has at most one open reset token |
| Tokens.FamiliesStaySingle | internal/store/users.go:252-359 | in every reachable state a family has one owner and at most one unrevoked token |
| Tokens.DeadFamilyStaysDead | internal/store/users.go:269-359 | a family without an unrevoked token never gets one again over any later run |
| Tokens.ReplayKillsFamily | internal/store/users.go:281-308 | presenting an unexpired token that was rotated or revoked issues nothing and leaves the whole family revoked for good |
| Tokens.RotationMovesTheToken | internal/store/users.go:310-359 | a rotation succeeds if and only if the token is live and unrevoked, its user remains and the new hash is unused; then the new hash is the family's one usable token, and all other rows are untouched |
| Tokens.ResetEndsEverySession | internal/store/auth_workflows.go:178-236 | a password reset leaves its user no usable token, and its own token is spent |
| Tokens.ClockCanBlock | internal/store/accounts.go:644 | the clock alone can bring cleanup to fail on the reference if and only if a token that is not yet deletable outlives its successor |
| Tokens.CleanupSafeExactly | internal/store/users.go:310-359 | cleanup can fail at no point of a run, nor by waiting there, if and only if no successful rotation of the run issues a token that expires before the one it replaces |
| Tokens.CleanupNeverBlocked | internal/store/accounts.go:644 | so with one lifetime for all tokens cleanup never deletes a row that a surviving row refers to |
| Tokens.ShorterLifetimeBlocksCleanup | internal/store/accounts.go:644 | from any state, a login and a rotation with any shorter lifetime make a later cleanup fail on that reference |
| Moderation.Store.ReviewCopyrightNotice | internal/store/copyright.go:208-382 | the transition table, the take-down and the conditional restore, with their log entries |
| Rulings.ReviewAnswers | internal/store/copyright.go:208-382 | a review is accepted if and only if the move is one of the twelve allowed, and a restore has a submission |
| Rulings.ReviewRules | internal/store/copyright.go:229-317 | actioning takes down and logs it; restoring approves if and only if the submission is down by a claim and no other claim is open |
| Moderation.Store.CreateCounterNotice | internal/store/copyright.go:384-516 | only the owner of a taken-down clip may counter, once |
| Rulings.CounterAnswers | internal/store/copyright.go:384-516 | each answer, and that only the notice and the counter-notice change |
| Moderation.Store.CreateModerationAction | internal/store/safety.go:202-250 | the four decisions about a submission, each logged |
| Rulings.ModerateAnswers | internal/store/safety.go:202-250 | the row and the log entry that each decision leaves |
| Moderation.Store.ResolveAppeal | internal/store/safety.go:446-605 | a reversal needs a pending appeal of the last decision about the submission, and approves it |
| Rulings.AppealAnswers | internal/store/safety.go:446-605 | a reversal succeeds if and only if the appeal is pending and the decision rejected or removed and is the last about its submission |
| Moderation.Store.UpdateVerification | internal/store/submissions.go:360-420 | a manual pass needs scanned media; publication follows verification and moderation |
| Rulings.VerifyAnswers | internal/store/submissions.go:360-420 | refused if and only if the submission is missing or passes unscanned; published if and only if passed and approved |
| Rulings.PublicationStands | internal/store/submissions.go:360-420 | no step dates a publication again |
| Moderation.LastDecision | internal/store/copyright.go:286-294 | the returned log entry is about the submission and no later one is |
| Moderation.PublicationInvariant | internal/store/analysis.go:72-83 | over every run of every step, with the analyses of many workers in between statement by statement: passed and approved implies published, published implies passed, and passed implies scanned |
| Moderation.AnalyzeSubmission | internal/worker/worker.go:325-462 | each of the four results, and each failure, if and only if media, assessment and the submission's status call for it; media are marked as scanned before the provider is asked, and an error changes no status |
| Rulings.PassesEarned | internal/worker/worker.go:428-438 | over every run, a submission that has passed was passed by a moderator or by an assessment that is unflagged, needs no review, is sure enough and finds the challenge met |
| Rulings.DoubtMeansReview | internal/worker/worker.go:431-436 | a flagged, unsure or review-bound assessment sends an open submission to manual review, unpublished |
| Rulings.FailsOnlyRejected | internal/worker/worker.go:337-358 | an analysis fails a submission for its media only after it has marked them rejected |
| Moderation.ScriptRuns | internal/worker/worker.go:344-462 | what the statements of one undisturbed analysis come to, for each inspection and each assessment |
| Moderation.OpenClaimNeverApproved | internal/store/copyright.go:229-317 | over runs of claims, rejections, removals and verification, a submission with an actioned or countered notice is never approved |
| Moderation.RestoreInAnyOrder | internal/store/copyright.go:265-295 | restoring all open claims in any order changes nothing until the last, which approves the submission if and only if it was removed and the last logged decision is a copyright removal |
| Moderation.ActionThenRestore | internal/store/copyright.go:229-317 | a lone claim actioned and restored leaves moderation as it was if and only if it was approved, or removed for another reason |
| Moderation.RejectionForgotten | internal/store/copyright.go:229-317 | a rejected submission comes back approved after a claim on it is actioned and restored |
| Takedowns.ClaimsDecide | internal/store/copyright.go:208-382 | over any run in which nobody else decides about a submission: removed for another reason it stays removed; otherwise it ends approved exactly when its last open claim was restored after a take-down and none actioned since, removed exactly when it was taken down otherwise, and a rejection is kept exactly when no notice on it is actioned |
| Moderation.NoticeSettles | internal/store/copyright.go:518-544 | over any run a notice makes at most five transitions |
| Ranks.Pagination | internal/httpapi/content_handlers.go:519-529 | limit between 1 and 100 with default 20, offset never negative |
| Ranks.GetLeaderboard | internal/httpapi/content_handlers.go:425-462 | a page holds exactly the rows of its range, each with its position in the whole listing |
| Ranks.RankCountsBetter | internal/store/analysis.go:127-141 | `rank()` in any ordering is one plus the number of strictly better rows |
| Ranks.ShareRankIsSqlRank | internal/store/social.go:24-37 | the share-card rank equals `rank()` for every public entry, ties included |
| Ranks.WinnersAreUnbeaten | internal/store/analysis.go:127-161 | an entry wins its challenge if and only if no public entry scores higher, or as high and earlier |
| Ranks.ShareRankCounts | internal/store/social.go:24-37 | the share-card rank counts exactly the public rows of the challenge that score higher, or as high and earlier |
| Ranks.ListingShows | internal/store/submissions.go:203-225 | a listing holds exactly the public rows without a block between user and viewer, by score and then by age |
| Ranks.PositionAndShareRank | internal/store/submissions.go:203-225 | for any viewer the position is the share-card rank, less the better entries hidden by blocks, plus the ties listed first |
| Ranks.BlocksOnlyRaise | internal/store/submissions.go:214-221 | without ties no entry shown is placed below its share-card rank, and equally exactly when no better entry is hidden |
| Ranks.ThreeRanksAgree | internal/httpapi/content_handlers.go:431-455 | without ties the anonymous position, the share-card rank and `rank()` are one number |
| Ranks.PageRanks | internal/httpapi/content_handlers.go:425-462 | so is the rank shown on any page, and a viewer with blocks sees at most that |
| Ranks.OrderingUnique | internal/store/submissions.go:223 | without ties there is one listing, so separately fetched pages fit together |
| Ranks.TiesMayBeSwapped | internal/store/submissions.go:223 | neighbouring ties may be listed either way round |
| Ranks.OrderingExists | internal/store/submissions.go:223 | every finite set of rows has a listing |
| Streaks.SameGroup | internal/store/analysis.go:148-152 | two dates share "date minus row number" if and only if every day between them is a date |
| Streaks.RunIsStreak | internal/store/analysis.go:154-158 | a maximal run of consecutive days is one group, with its first day, last day and length |
| Streaks.StreaksAreMaximalRuns | internal/store/analysis.go:142-158 | the streaks of the query are exactly the maximal runs of consecutive days |
| Streaks.CurrentStreak | internal/store/analysis.go:162-166 | the current streak is the run that ends with the last date if that is yesterday or later, else zero |
| Streaks.BestStreak | internal/store/analysis.go:167 | the best streak is the length of the longest run of consecutive days |
| Streaks.CurrentWithinBest | internal/store/analysis.go:162-167 | the current streak never exceeds the best |
| RateLimits.Limiter.AllowRateLimit | internal/store/rate_limits.go:8-34 | inserts or increments the counter of the aligned window, or refuses; the reset time is the window's end either way |
| RateLimits.CleanupInvisible | internal/store/accounts.go:641 | wherever a cleanup is put into a run, every later request gets the same answer, and as many are admitted in any interval |
| RateLimits.WindowIsCounted | internal/store/rate_limits.go:15-27 | over every run, cleanups included, a window's row holds the number of requests admitted in it and disappears only after the window |
| RateLimits.AdmittedWhileRoom | internal/store/rate_limits.go:15-33 | a request is admitted if and only if fewer than max(1, maximum) were admitted in its window |
| RateLimits.TwiceTheMaximum | internal/store/rate_limits.go:15-33 | any interval as long as the window admits at most twice the maximum |
| RateLimits.TwiceIsReached | internal/store/rate_limits.go:14 | that bound is reached by two bursts around a boundary |
| Framing.Scan | internal/mediaprocessor/processor.go:163-188 | what is sent is the framed file up to the byte where a write failed, and the outcome says which of the three ways it ended |
| Framing.PutUint32 | internal/mediaprocessor/processor.go:171 | four big-endian bytes that read back as the count |
| Framing.OpensWithCommand | internal/mediaprocessor/processor.go:163-165 | the stream opens with the ten bytes of the command |
| Framing.FramesDecode | internal/mediaprocessor/processor.go:166-188 | however the file is split into reads, empty ones included, the stream decodes to exactly the file's bytes, with the first zero length at its end |
| Framing.BrokenStream | internal/mediaprocessor/processor.go:166-188 | no stream that breaks off early, at whatever byte, decodes as complete |
| Framing.StreamVerdict | internal/mediaprocessor/processor.go:163-188 | the scanner sees a complete stream if and only if the program goes on to read its answer, and then it has seen the whole file |
| Wrapping.SplitToWidth | internal/sharecard/card.go:143-162 | computes the chunks of a word |
| Wrapping.TruncateToWidth | internal/sharecard/card.go:164-176 | unchanged if it fits, else the longest beginning that fits with an ellipsis, trimmed |
| Wrapping.WrapToWidth | internal/sharecard/card.go:108-141 | the greedy lines, or the first of them with the last one truncated |
| Wrapping.ChunksOfWord | internal/sharecard/card.go:143-162 | chunks concatenate to the word, each fits or is one glyph, and none could have taken another glyph |
| Wrapping.LinesFit | internal/sharecard/card.go:108-141 | at most `maxLines` lines, each fitting or one glyph, the fallback title or a bare ellipsis |
| Wrapping.CutLine | internal/sharecard/card.go:132-176 | of a title that is cut, all lines but the last are whole, and the last is the longest beginning of the line it cuts that fits with an ellipsis, less white space at its end |
| Wrapping.TrimSpaceLeaves | internal/sharecard/card.go:175 | trimming takes off all white space at both ends and nothing else |
| Wrapping.LinesSpellTitle | internal/sharecard/card.go:108-135 | uncut lines spell the title's letters in order, and hold exactly its words when every word fits |
| Wrapping.LinesAreGreedy | internal/sharecard/card.go:116-131 | no line could have taken the first chunk of the next |
| Wrapping.FewestLines | internal/sharecard/card.go:116-131 | no arrangement of the same chunks into fitting lines has fewer lines, so a title is cut only when it has to be |

## Left out

- Interleaving.StepKeepsInv: only the advisory lock orders creates; the row locks on users and entitlements are ignored, which allows more interleavings than the database does.
- Workers.NoStrandedSubmission: database calls succeed or the worker dies, no moderator resets a submission to pending, and job IDs never repeat.
- Workers.ExhaustionMeansManualReview: speaks of the events that bury a job; when an exhausted job without its worker is buried at all is said by `Orphans.OrphanWaitsForClaim` and `Orphans.LostMeansManualReview`.
- Workers.Worker.Settle: the failed export at lines 144-146 is not modelled, as exports are not.
- Workers.Worker.Turn: the endless loop is one turn plus the event machine; heartbeats, polling pauses, errors of the claim, log lines and shutdown are not modelled.
- Workers.Worker.Handle: the verdict of an analysis, whose own steps are in `Moderation.AnalyzeSubmission`, and the result of every other kind of job are inputs; email, export and deletion work is not modelled.
- Moderation.AnalyzeSubmission: media download, frame extraction, storage and the provider are inputs, a confidence is a real number, and the safety alert is not modelled; failing storage counts as a failing inspection, and a failing alert as a failing provider.
- RateLimits.AdmittedWhileRoom: the maximum and the window of a key are fixed and the window is positive, as in every caller.
- Moderation.OpenClaimNeverApproved: moderator approval, appeal reversal and automated analysis set the moderation status without looking at notices, so runs with them are excluded here; the publication invariant includes them.
- Moderation.Store.CreateModerationAction: decisions about users and challenges, and the reports they resolve, are not modelled.
- Moderation.Store.ResolveAppeal: appeals about users, and the suspensions they lift, are not modelled.
- Moderation.LastDecision: the order of the log stands for `created_at`; two decisions at one instant are ordered by insertion.
- Wrapping.LinesFit: assumes that trimming white space before an ellipsis never widens the text.
- Wrapping.FewestLines: assumes that a text is no narrower than what stands before or after one of its spaces.
- Wrapping.WrapToWidth: strings are sequences of characters; invalid UTF-8 is not modelled, and `maxLines` is at least one, since the code indexes that line.
- Framing.Scan: reading and classifying the scanner's answer, deadlines and the connection itself are not modelled.
- Ranks.GetLeaderboard: the listing that the database chose is a parameter; presigned clip links are not modelled.
- Foreign-key failures, unique object keys and most CHECK constraints: the rows they protect are typed here; the positive upload size is kept.
- Account deletion and export, and the unpaid upload path of `internal/store/media.go`.
- `Vote` and the score aggregates: a score is a column of an entry.
- PostgreSQL isolation levels, deadlocks and SKIP LOCKED races, apart from the split create.
- HTTP routing, JSON, validation, object storage, mail, the AI provider and ffmpeg.
- Password hashing, access tokens, encryption and webhook signatures: token hashes are opaque unique values.
- Session listing, policies, configuration and migrations: easy members.
