# OpenSeer: the control plane's job queue, in Dafny

OpenSeer runs HTTP checks from many regions. A scheduler turns monitors into jobs, workers lease them, renew the leases and
submit results, a reaper takes back expired leases and a cleaner removes old finished rows. All of them work on the same
tables, and any of them may run between two statements of another. This project models those tables, statements and loops
and proves what every run of them keeps.

## How it is built

- **The protocol.** `Protocol` is one step system over a clock, the job table, the monitors, the results and the
  submissions under way. Storing a result, completing its job and looking whether it is already done are separate steps.
  A handler's own clock reading may be older than the moment its statement runs. `Leases`, `Completion`, `Pace`, `Rates`,
  `Cleaning` and `Renewal` prove properties of all its runs from empty tables (or from any state, where that is all they
  need). `Losses`, `Neighbours` and `StaleRenewals` have the exact conditions under which a property fails, each with a
  run from empty tables.
- **The statements and handlers.** `Database.Store`, `Workers.Registry`, `Scheduler.Scheduler`, `WorkerApi.WorkerService`,
  `EnrollmentApi.EnrollmentService`, `MonitorsApi.MonitorsService`, `Cleaning.JobCleaner` and the classes of `Sweepers` follow the source statement by statement and are proved to
  be the steps: `SubmitResult`, for instance, is proved to be a run of the protocol that ends with its answer.
- **The auth cache.** `AuthCache` has the class with its two maps; `CacheHistory` compares it with the history of its own
  calls; `Enrollment` and `Agreement` put it beside the worker table and compare cached and uncached lookups over runs in
  which writes may fail, or take effect and be reported as failed.
- **The worker.** `WorkerLoops.Worker` has the loops, over arbitrary answers; `ResultRetry`, `Renewal` and
  `Polling` say what they compute.
- **Uptime.** `RollUp`, `Uptime` and `Timelines` compare the aggregates, totals, timelines and the fallback chain with
  direct counts; `Sums` is SUM over a finite set.
- **Shared.** `Times` (nanosecond clock, microsecond columns), `Cadence` (jitter and windows in int64 range), `RunIds`,
  `Regions`, `Tokens` (hexadecimal tokens), `Schedule` (an iteration as a function), `Results`, `Heartbeat`, `Spacing`, `Wrappers`.

Time is an integer number of nanoseconds. A timestamp column keeps whole microseconds and cuts off the rest; NOW() shows
the clock the same way. The hash, the digest and the rendering of a second come from outside (`RunIds.Env`): a 32-bit
number, eight characters, and a hyphen-free text that tells seconds apart. Token hashes are fresh texts.

## Results a reader may not expect

- A renewal writes its own expiry, even an earlier one. Two renewals of one worker that run out of order can pull a lease
  back; `PromiseKeptIff` is the exact condition over every run and `StaleRenewalBreaksPromise` a run from empty tables.
- Below an interval of one second the scheduler can lose jobs, because run ids have a resolution of a second; a monitor
  kept at one interval from one second up never loses any, as long as the others are scheduled at a second or more, too,
  and no two ids run into each other (`SafeFromOneSecond`).
- Editing an interval can lose a job even so: a first job that is still ready may lie inside the new, wider duplicate
  window, and then nothing is inserted while the due time moves on. From one second to two minutes is an example;
  `SafeEditIff` is the exact condition.
- Monitors can take each other's run ids, which join their parts with hyphens. `SafeIdsIff` says exactly which sets of ids
  are free of that.
- A result with an unknown status is never stored, and so never committed: `convertStatus` turns it into a value that the
  table's check refuses.
- A failed insert makes `scheduleIteration` go on to the next monitor, but the transaction is already lost; the model rolls
  the whole iteration back. One monitor below a second can therefore cost the others their jobs: `NeighbourLoses` is such a
  run, and `HarmlessIff` says that a monitor is safe beside others exactly when they, too, are scheduled at a second or
  more.
- An edit of a monitor writes back every setting it read, so of two edits that overlap the later one can undo the other
  (`OverlappingEditsIff`). The due times are not among what it writes.
- A token renewal that took effect but was reported as failed leaves the old token usable from the cache until its entry
  expires (`UnackedRenewalBreaksIff`, `StaleAtMostTtl`). Revocation is not affected.
- `sendResult` does not count an attempt after a refreshed token, so the number of attempts alone does not bound it. The
  worker's documentation calls its retries bounded; they are bounded by the maximum plus the refreshes.
- Successive renewals can be max(interval, 5 s) + 20 s apart, not the interval + 20 s.
- The poll interval follows base * 2^k up to the maximum only while twice the maximum fits 64 bits (`ClosedFormIff`).
- The month's timeline is not grouped by day: a monitor with two regions has two points on a day (`DayRepeatsIff`). The
  day's total and the day's timeline can differ (`DayViewsAgreeIff`).
- The comment on `NormalizeList` says that empty names are removed; the code turns them into "global", and so does the
  model.

## Model

| member | source | states |
|---|---|---|
| Leases.JobStateMachine | queries/jobs.sql:70-160 | Every change one step of any actor can make to a job row: a new row is ready and starts within the look-ahead; ready becomes leased only by a claim it was due for; a lease moves only by its holder; done is reached only by the holder; ready again only from an expired lease; only a done row past retention disappears. |
| Leases.RowKeepsPlace | queries/jobs.sql:70-160 | Only the scheduler makes rows; no step changes a row's monitor, region or scheduled time or makes a finished row active. |
| Leases.LeaseStepIff | queries/jobs.sql:118-140 | The protocol's polls are exactly those that lease the best open rows, up to the lease duration after the handler's reading. |
| Leases.LeaseSafety | internal/app/control-plane/api/worker/service.go:72-82 | Over every run: from a lease or renewal handled at t, the job stays leased to that worker up to t plus the lease duration, or that worker completed it, under any interleaving and however late handlers run, unless a renewal by that worker itself, before it completes the job, writes an earlier expiry. |
| Leases.PromiseKeptIff | internal/app/control-plane/api/worker/service.go:164-173 | The exact condition over every run: the promise of a lease or renewal at t is kept in every state if and only if no renewal by the same worker, before it completes the job, writes an earlier expiry as the column holds it; nobody else can break it. |
| Leases.PromptLeaseSafety | internal/app/control-plane/api/worker/service.go:164-173 | So it is kept when that worker's renewals of the job read the clock as their statement runs; every other handler may be late. |
| StaleRenewals.StaleRenewalBreaksPromise | internal/app/control-plane/api/worker/service.go:164-173 | A run from empty tables, for every lease duration: create, schedule, lease, two renewals in the wrong order; the reaper takes the job at the promised time. |
| Leases.NotReadyAgain | queries/jobs.sql:92-100 | A leased row is not ready again before a reclaim of its expired lease or its removal. |
| Leases.LeasedTwice | queries/jobs.sql:118-140 | Two polls that lease the same row have a reclaim (or a removal) of that row between them. |
| Leases.ClockMonotone | queries/jobs.sql:98-100 | The clock of a run never goes back. |
| Jobs.FirstByCounting | queries/jobs.sql:130-139 | ORDER BY and LIMIT by counting: a chosen row has fewer than the limit before it, and a row that fewer than the limit precede or tie with is chosen. |
| Jobs.ClaimedAreBest | queries/jobs.sql:118-140 | A poll leases exactly min(limit, open) of the open rows: the unlocked, undeleted, ready ones with a start up to now whose region is the worker's or "global"; no row left behind is of the worker's own region while a leased one is global, or older within the same kind. |
| Jobs.GlobalIsLeased | queries/jobs.sql:130-139 | A worker of any region leases a due, ready "global" row (and one of its own region) when its limit covers the open rows. |
| Jobs.CleanedAreOldest | queries/jobs.sql:187-197 | A batch takes min(limit, overdue) of the done, undeleted rows before the cutoff, the oldest first. |
| Jobs.SelectFirst | queries/jobs.sql:130-139 | Chooses as many rows as fit the limit, none of which comes after an unchosen one (exact region first, then oldest). |
| Completion.ReachableShape | queries/jobs.sql:78-100 | In every reachable state: ready rows have no worker and no lease, leased rows have both, done rows have a worker and no lease. |
| Completion.DoneHasResult | internal/app/control-plane/api/worker/service.go:132-139 | In every reachable state every done job, and every submission being completed, has a stored result for its run: commit before acknowledgement. |
| Completion.CommittedMeansDone | internal/app/control-plane/api/worker/service.go:194-209 | committed=true is answered only in a state where the job is done and a result is stored under this submission's run and event time, by the holder's completion or by a check that changes nothing. |
| Completion.CommittedHolds | internal/app/control-plane/api/worker/service.go:133-139 | It follows a store of this very submission, whose payload is the one in the table unless another was written under that run and event time in between. |
| Completion.AtMostOnce | queries/jobs.sql:78-85 | Per run id, over every run: creations equal removals plus presence, and completions equal removals plus being done, so each created job is completed at most once and removed only after that. |
| Completion.DoneOnlyByOwner | queries/jobs.sql:78-85 | A job becomes done only through a completion by the worker that holds it in that very state. |
| Completion.OnlyOldDoneDisappear | queries/jobs.sql:187-197 | Only done rows scheduled before the clock minus the retention period disappear. |
| Completion.Conservation | queries/jobs.sql:70-100 | created = ready + leased + done + cleaned, in every reachable state. |
| Completion.ExpiredComesBack | queries/jobs.sql:92-100 | At-least-once: a leased job that nobody renewed, completed or leased again is ready, without worker or lease, after the first reclaim past its lease, over every run. |
| Completion.DoneStays | queries/jobs.sql:187-197 | A done row stays as it is until it is removed. |
| Completion.ResubmissionCommits | internal/app/control-plane/api/worker/service.go:194-209 | After a committed answer and until the row is removed, any further submission for that run, by any worker, leaves the job table alone, and its check answers true. |
| Completion.ResubmissionKeepsResults | queries/results.sql:1-21 | Storing a result again leaves the result table alone unless another payload was written under that run and event time in between. |
| Pace.NothingLost | internal/app/control-plane/scheduler.go:151-211 | Over every run: each scheduling of a monitor that is always found at one interval of at least 1 s inserts exactly one new job per region under an id that was free, whatever the other monitors' intervals (of at least 1 s when scheduled) are edited to and whatever was leased, completed, reclaimed or cleaned before. |
| Pace.ServedWhenCovered | internal/app/control-plane/scheduler.go:164-194 | The general form, with any edits of this interval, too: a scheduling serves the monitor in full when the stored jittered interval it was last scheduled with exceeds the duplicate window of the interval it has now. |
| Pace.IterationCommits | internal/app/control-plane/scheduler.go:108-148 | With every next start in a later second than all rows before it, an iteration commits, whatever the intervals are now. |
| Pace.IterationServes | internal/app/control-plane/scheduler.go:108-141 | Then a listed monitor whose window is clear gets one new job per region, whatever the other monitors' windows are. |
| Losses.ShortIntervalLoses | internal/app/control-plane/scheduler.go:164-194 | For every interval below 1 s, a run from empty tables that loses a job. |
| Losses.SafeFromOneSecond | internal/app/control-plane/scheduler.go:242-251 | A fixed interval is safe over all runs, with the others edited at will from 1 s up, if and only if it is at least 1000 ms. |
| Neighbours.HarmlessIff | internal/app/control-plane/scheduler.go:108-141 | Beside others kept at one interval, a monitor kept at 1 s or more is safe over all runs if and only if the others, too, are listed with at least 1 s: an iteration is one transaction. |
| Neighbours.NeighbourLoses | internal/app/control-plane/scheduler.go:126-148 | For every interval of the other monitor below 1 s, a run from empty tables: its finished job still holds the run id it needs, the iteration rolls back, and the first monitor gets no job. |
| Losses.SafeEditIff | internal/app/control-plane/scheduler.go:164-194 | An edit from i0 to i1, both at least 1 s, is safe over all runs if and only if the stored jittered interval of i0 exceeds the duplicate window of i1. |
| Losses.WideEditLoses | internal/app/control-plane/scheduler.go:168-194 | For every edit that fails the condition, a run from empty tables: the first job is still ready inside the new window, the insert is passed over and the due time moves on. |
| Losses.SecondToTwoMinutes | internal/app/control-plane/scheduler.go:242-251 | From 1 s to 120 s is such an edit, for every monitor and hash. |
| Losses.SafeIdsIff | internal/app/control-plane/scheduler.go:253-259 | A set of monitor ids is safe over all runs, with intervals of at least 1 s, if and only if no two of them can run into each other. |
| Losses.ClashLoses | internal/app/control-plane/scheduler.go:253-259 | For every two ids that can, a run from empty tables in which the second monitor's run id is taken and its job lost. |
| Pace.RunsAreCadenced | internal/app/control-plane/scheduler.go:152-200 | Over every run and with any edits: a monitor's due time is at least a stored jittered interval after its last start, the interval being the one it was scheduled with then; its regions are stored names without repeats. |
| Pace.RunsAreOrderly | internal/app/control-plane/scheduler.go:164-200 | With schedulings at 1 s or more: each row is named after its monitor, region and second and is not younger than its monitor's last start, and every next start falls in a later second. |
| Rates.AlwaysSeparated | migrations/000008_fix_job_deduplication.up.sql:10-11 | For any intervals and any edits: two active jobs of one monitor and region are more than 500 ms apart, so no two have one key of the partial unique index. |
| Rates.PlannedSeparated | queries/jobs.sql:14-21 | Jobs of a monitor that is only scheduled at one interval are more than its full duplicate window apart, whatever the other intervals are. |
| Rates.StartsSpaced | internal/app/control-plane/scheduler.go:152-166 | Successive starts of a monitor that is only scheduled at one interval are at least its stored jittered interval apart, over every run and for any interval. |
| Rates.StartMoves | internal/app/control-plane/scheduler.go:152-166 | Over every run, with any edits: a start lies between now and now plus the look-ahead, and at least a stored jittered interval after the start before, the interval being the one that start was scheduled with. |
| Rates.StartsInWindow | internal/app/control-plane/scheduler.go:152-166 | A window of length L holds at most L divided by the jittered interval, plus one, of such a monitor's starts. |
| Rates.ExactProgression | internal/app/control-plane/scheduler.go:152-166 | Such a monitor, when never found overdue, starts in an exact arithmetic progression (from its second start on; the first step may carry a microsecond more). |
| Cadence.JitterBounds | internal/app/control-plane/scheduler.go:213-240 | For every int32 interval and uint32 hash: no int64 overflow; no shift up to 10 s, below 1 percent up to 30 s, below 10 percent above, always below 2^32 ns, upwards for even hashes and downwards for odd ones. |
| Cadence.JitterShift | internal/app/control-plane/scheduler.go:227-239 | The shift is smaller than its range and no larger than the hash. |
| Cadence.JitterSize | internal/app/control-plane/scheduler.go:220-239 | The size of the shift is the remainder of the hash by a hundredth of the interval, above 30 s by a tenth; even hashes lengthen and odd ones shorten. |
| Cadence.DedupBounds | internal/app/control-plane/scheduler.go:242-251 | The window fits its column exactly, is half the interval if and only if that lies between 1 s and 2 min, and is 500 ms for every shorter interval and one minute for every longer one. |
| Cadence.DedupMonotone | internal/app/control-plane/scheduler.go:242-251 | A longer interval never has a shorter window. |
| Cadence.CadenceOutrunsWindow | internal/app/control-plane/scheduler.go:164-176 | From 1 s up the stored distance to the next run exceeds the duplicate window and is at least a second. |
| RunIds.RunIdEqual | internal/app/control-plane/scheduler.go:253-259 | Two run ids are equal if and only if monitor-region texts and seconds are equal. |
| RunIds.PlaceClash | internal/app/control-plane/scheduler.go:256-258 | Two monitors can get one monitor-region text with regions as they are stored if and only if one id is the other, a hyphen, and something a stored region can begin with. |
| RunIds.LongerRegion | internal/pkg/regions/normalize.go:7-13 | A text and a hyphen before a stored region give a stored region if and only if the text can begin one. |
| RunIds.PlaceOfOneMonitor | internal/app/control-plane/scheduler.go:256-258 | Within one monitor the text determines the region. |
| Schedule.IterationMoves | internal/app/control-plane/scheduler.go:108-141 | A committed iteration keeps old rows, adds only new ready rows of listed monitors at their start times, and moves on exactly the listed monitors. |
| Schedule.IterationKeepsSeparation | internal/app/control-plane/scheduler.go:168-194 | An iteration keeps active rows of one monitor and region apart by whatever its duplicate windows cover. |
| Schedule.InsertsEveryRegion | internal/app/control-plane/scheduler.go:168-194 | Where no older row reaches the window and no id is taken, the inserts yield exactly one new row per region. |
| Scheduler.Scheduler.CreateJob | internal/app/control-plane/scheduler.go:169-189 | One insert has one of the three outcomes, and only a violation is a failure. |
| Scheduler.Scheduler.CreateJobs | internal/app/control-plane/scheduler.go:168-194 | The region loop computes the insert function and stops at the first failure. |
| Scheduler.Scheduler.ScheduleMonitorTx | internal/app/control-plane/scheduler.go:151-211 | Computes one monitor's scheduling: start time, inserts, then last and next time. |
| Scheduler.Scheduler.ScheduleIteration | internal/app/control-plane/scheduler.go:79-148 | Computes the whole iteration over the due list; with any failure every table is as before. |
| Database.Store.CreateJobIdempotent | queries/jobs.sql:9-22 | No row if and only if a ready or leased, undeleted row of the monitor and region lies in the window; otherwise a failure that changes nothing, with a window around the start only when the id is taken, or exactly one new ready row. |
| Database.Store.LeaseJobsWithMonitorData | queries/jobs.sql:118-160 | Leases exactly the best open rows to the worker up to the expiry and returns those whose monitor is live; every other row, and the place of the leased ones, stays. |
| Database.Store.RenewLease | queries/jobs.sql:70-76 | Changes the expiry, and nothing else, of a leased row of this worker; answers whether there was one. |
| Database.Store.CompleteJob | queries/jobs.sql:78-85 | Makes a leased row of this worker done and takes its expiry away; answers whether there was one. |
| Database.Store.ReclaimExpiredLeases | queries/jobs.sql:92-100 | Exactly the leased, undeleted rows whose expiry lies before now become ready, without worker and expiry. |
| Database.Store.DeleteDoneJobsBefore | queries/jobs.sql:187-197 | Removes exactly the oldest of the done, undeleted rows before the cutoff, up to the limit, counts them, and leaves every other row as it was. |
| Database.Store.UpsertResult | queries/results.sql:1-21 | Inserts or overwrites one row, keeping the first writer's monitor and region; refuses an unknown status. |
| Database.Store.ListDueMonitors | queries/monitors.sql:29-37 | Exactly the enabled, undeleted, unlocked monitors whose next due time is NULL or at most five seconds from now, once each, NULL first and then in due order. |
| Results.StoredIffKnown | internal/app/control-plane/metrics/ingest.go:73-84 | A message is stored if and only if its status is OK, FAIL or ERROR: the converted UNKNOWN violates the table's check. |
| Results.StoredColumns | internal/app/control-plane/metrics/ingest.go:24-84 | What a stored message leaves, column by column: one key of run id and stored event time, the first writer's monitor and region, this message's status, its positive numbers and its non-empty text; every other row stays. |
| Results.StoreAgain | queries/results.sql:1-21 | Storing touches one key, is idempotent, and changes nothing exactly when the payload is already there. |
| WorkerApi.WorkerService.TouchWorkerHeartbeat | internal/app/control-plane/api/worker/service.go:224-234 | Writes the heartbeat exactly when the tracker says so, and forgets the attempt when the write fails. |
| WorkerApi.WorkerService.GetJobs | internal/app/control-plane/api/worker/service.go:50-109 | Is the lease step with at least one job asked for and the worker's stored region, and answers exactly the step's live rows; a statement that fails without effect, a failed lookup or an unknown worker changes no job. |
| WorkerApi.WorkerService.RenewLease | internal/app/control-plane/api/worker/service.go:153-192 | Is the renewal step; true if and only if the worker held the row and the write was acknowledged. |
| WorkerApi.WorkerService.constructor | internal/app/control-plane/api/worker/service.go:28-48 | 45 s leases and 15 s between heartbeat writes unless a positive duration is configured; the tracker starts empty. |
| WorkerApi.WorkerService.SubmitResult | internal/app/control-plane/api/worker/service.go:111-151 | With a known status and a store that takes effect, the result is in the table; when that store is acknowledged, too, a row the worker holds becomes done unless the completing update is refused, and no other row changes; true if and only if both writes are acknowledged and the worker held the row or the check finds it done. A request without a result or with a refused store changes no table; and all of it is a run of the store, complete and check steps. |
| WorkerApi.WorkerService.CompleteJob | internal/app/control-plane/api/worker/service.go:194-209 | A held row becomes done, with the same worker and no expiry, unless the update is refused; nothing else changes; true if and only if the update is acknowledged and the row was held or the check finds it done. Continues the submission's run of steps. |
| Sweepers.LeaseReaper.Tick | internal/app/control-plane/lease_reaper.go:40-61 | Is the reclaim step when the lock is won and the statement takes effect, and nothing otherwise. |
| Sweepers.InactivityMonitor.Tick | internal/app/control-plane/inactivity_monitor.go:36-41 | Is the inactivity sweep of the enrolment model when the statement takes effect. |
| AuthCache.WorkerAuthCache.constructor | internal/app/control-plane/middleware/worker_auth_cache.go:25-35 | Empty, with room for at least one entry. |
| AuthCache.WorkerAuthCache.Get | internal/app/control-plane/middleware/worker_auth_cache.go:41-61 | Hits exactly on an unexpired entry and drops an expired one; the index stays the exact inverse. |
| AuthCache.WorkerAuthCache.Set | internal/app/control-plane/middleware/worker_auth_cache.go:63-97 | The entry is written, every expired one goes, and of the rest as many stay as fit, none pushed out that expires after one that stayed; the index stays exact. |
| AuthCache.WorkerAuthCache.Write | internal/app/control-plane/middleware/worker_auth_cache.go:77-94 | A reassigned token leaves its old worker's set and joins the new one's. |
| AuthCache.WorkerAuthCache.InvalidateWorker | internal/app/control-plane/middleware/worker_auth_cache.go:99-115 | Exactly the worker's entries go. |
| AuthCache.WorkerAuthCache.RemoveToken | internal/app/control-plane/middleware/worker_auth_cache.go:117-133 | Exactly that entry goes, and no empty set stays behind. |
| AuthCache.WorkerAuthCache.Evict | internal/app/control-plane/middleware/worker_auth_cache.go:135-159 | What stays is what fits of the unexpired entries. |
| AuthCache.WorkerAuthCache.PruneExpired | internal/app/control-plane/middleware/worker_auth_cache.go:136-141 | Exactly the expired entries go. |
| AuthCache.WorkerAuthCache.PruneOldest | internal/app/control-plane/middleware/worker_auth_cache.go:143-158 | Pushes out only entries that expire no later than every one that stays, down to exactly the limit. |
| AuthCache.WorkerAuthCache.Oldest | internal/app/control-plane/middleware/worker_auth_cache.go:144-152 | An entry that expires first. |
| AuthCache.RewriteKeepsInverse | internal/app/control-plane/middleware/worker_auth_cache.go:75-94 | The index update on a write keeps the index the inverse of the entries, without empty sets. |
| CacheHistory.RememberedIsLastWrite | internal/app/control-plane/middleware/worker_auth_cache.go:63-115 | What a history remembers of a token is a write of it after which there was no other write of it and no invalidation of that worker, and conversely. |
| CacheHistory.HitIsLastWrite | internal/app/control-plane/middleware/worker_auth_cache.go:41-61 | Over every sequence of calls: a hit names the worker of the last write of the token, at most the time to live ago, whose worker was not invalidated since. |
| CacheHistory.NeverTooMany | internal/app/control-plane/middleware/worker_auth_cache.go:143-158 | The cache never holds more than its limit after any sequence of calls. |
| CacheHistory.MissIsEviction | internal/app/control-plane/middleware/worker_auth_cache.go:135-159 | A remembered, unexpired token is missing only because a write found the cache over its limit and kept nothing that expires earlier. |
| CacheHistory.ExactWhenAllFit | internal/app/control-plane/middleware/worker_auth_cache.go:41-61 | While the tokens in use fit, a lookup hits with w if and only if the history remembers w, unexpired. |
| Enrollment.RevokedForGood | queries/workers.sql:13-17 | Over every run, whatever writes fail: a revoked worker stays revoked, although the heartbeat statement writes 'active' without looking at the status. |
| Enrollment.RevokedIsRefused | internal/app/control-plane/middleware/token_auth.go:61-84 | From then on no call is authenticated as that worker, from the cache or from the table. |
| Enrollment.RunsStayLive | internal/app/control-plane/api/enrollment/service.go:198-216 | In every state of every run each cached worker is in the table and not revoked. |
| Agreement.HitsAgreeIff | internal/app/control-plane/middleware/token_auth.go:67-83 | Over every run, whatever writes fail: every hit agrees with the table in all states up to the n-th if and only if no call before renewed a known, unrevoked worker with an unexpired entry by a token write that took effect but was reported as failed. |
| Agreement.CacheIsTransparent | internal/app/control-plane/middleware/token_auth.go:67-83 | Until the first such call each authenticated call that reaches the table gets exactly the answer the table alone would give. |
| Agreement.TokenWorks | internal/app/control-plane/middleware/token_auth.go:61-84 | Until then: a token the table has for an unrevoked worker authenticates that worker, and no other token does, on every later call that reaches the table, until the worker is renewed or revoked. |
| Agreement.OldTokenStillHits | internal/app/control-plane/api/enrollment/service.go:158-170 | For every cache that is on, a run from the start that breaks the agreement: enrol, then such a renewal. |
| Agreement.RunsAgree | internal/app/control-plane/api/enrollment/service.go:110-113 | In every state until then each unexpired cache entry is what the table says, and tokens tell workers apart. |
| Agreement.UnackedRenewalBreaksIff | internal/app/control-plane/api/enrollment/service.go:158-170 | A renewal whose token write took effect but was reported as failed leaves all hits right if and only if the worker has no unexpired entry. |
| Agreement.StaleAtMostTtl | internal/app/control-plane/middleware/token_auth.go:67-83 | However writes fail: a call is authenticated only as a worker that the table named for that token at most the time to live ago. |
| EnrollmentApi.BearerRoundTrip | internal/app/control-plane/middleware/token_auth.go:86-100 | The header parses to a token if and only if it is the scheme followed by that well-formed token. |
| Tokens.WellFormedIff | internal/pkg/auth/auth.go:28-38 | The accepted tokens are exactly the prefix and 64 hexadecimal digits of either case. |
| Tokens.GeneratedAreAccepted | internal/pkg/auth/auth.go:13-21 | Every token generated from 32 bytes is accepted, and no two draws give one token. |
| Tokens.AcceptedIsGenerated | internal/pkg/auth/auth.go:13-38 | An accepted token in lower case is the one of some draw. |
| Tokens.DecodeOfEncode | internal/pkg/auth/auth.go:18 | Decoding the hexadecimal form gives the bytes back. |
| Tokens.EncodeOfDecode | internal/pkg/auth/auth.go:36 | Encoding what was decoded gives the text back in lower case. |
| Tokens.DecodeIff | internal/pkg/auth/auth.go:36 | Decoding reads exactly the even-length texts of hexadecimal digits. |
| EnrollmentApi.EnrollmentService.EnrollWorker | internal/app/control-plane/api/enrollment/service.go:51-127 | Each check's answer in its order; a refused request changes nothing; an accepted one leaves a row with the normalized region, the given host and version, status enrolled, the new token and now as last seen; otherwise exactly the enrolment call of the model. |
| EnrollmentApi.EnrollmentService.RenewEnrollment | internal/app/control-plane/api/enrollment/service.go:129-180 | Exactly the renewal call of the model, with the answer for each case; an accepted one changes the token of that row and nothing else. |
| EnrollmentApi.EnrollmentService.RevokeEnrollment | internal/app/control-plane/api/enrollment/service.go:182-226 | Exactly the revocation call of the model, which passes over a failure to clear the token; an accepted one leaves the row revoked, with its reason, and without token if clearing took effect. |
| EnrollmentApi.EnrollmentService.Authenticate | internal/app/control-plane/middleware/token_auth.go:61-84 | Exactly the authentication step of the model: cache, then table, then cache write. |
| Workers.Registry.EnrollWorker | queries/workers.sql:32-39 | A second row for a worker is refused. |
| Workers.Registry.SetWorkerToken | queries/workers.sql:102-105 | Changes exactly that worker's token, if the write takes effect. |
| Workers.Registry.RevokeWorker | queries/workers.sql:46-49 | Changes exactly that worker's status and reason, if the write takes effect. |
| Workers.Registry.UpdateWorkerHeartbeat | queries/workers.sql:13-17 | Sets last seen and 'active' whatever the status was. |
| Workers.Registry.MarkWorkerInactive | queries/workers.sql:26-30 | Exactly the active and enrolled workers not seen for two minutes become inactive. |
| Workers.Registry.GetWorkerByTokenHash | queries/workers.sql:96-100 | A row with that token that is not revoked, or none, and then every row with it is revoked. |
| Heartbeat.HeartbeatTracker.ShouldUpdate | internal/app/control-plane/api/worker/heartbeat_tracker.go:21-41 | True exactly when due, and then the attempt is remembered. |
| Heartbeat.HeartbeatTracker.Invalidate | internal/app/control-plane/api/worker/heartbeat_tracker.go:43-50 | Forgets exactly that worker. |
| Heartbeat.NeverMarkedInactive | queries/workers.sql:26-30 | For a worker silent for at most g at a time, with at most k failed writes in a row: its row is fresher than the interval plus (k+1)g, and if that is within two minutes no sweep changes it. |
| Heartbeat.WritesSpaced | internal/app/control-plane/api/worker/heartbeat_tracker.go:34-40 | Acknowledged heartbeat writes of a worker are at least the interval apart, whatever fails in between. |
| Heartbeat.FewWrites | internal/app/control-plane/api/worker/heartbeat_tracker.go:34-40 | A window of length L holds at most L divided by the interval, plus one, of them. |
| Cleaning.JobCleaner.constructor | internal/app/control-plane/job_cleaner.go:20-44 | A positive retention and a positive batch size, whatever is configured. |
| Cleaning.JobCleaner.RunCleanup | internal/app/control-plane/job_cleaner.go:67-115 | Ends; on its own, without a failing batch, it removes exactly the done, undeleted rows before the clock minus the retention as the column holds it, keeps every other row, and reports their number; after a failed batch it has removed only such rows. |
| Cleaning.OldIsUsedUp | internal/app/control-plane/job_cleaner.go:94-110 | Over every run: what the cleaner's batches take plus the rows left before the cutoff never exceeds the rows before it at the start. |
| Cleaning.CleanerEnds | internal/app/control-plane/job_cleaner.go:94-110 | However other actors run in between, at most (rows before the cutoff at the start) / (batch size) batches are full, so the loop ends. |
| Cleaning.BatchTakesOld | queries/jobs.sql:187-197 | A batch takes its rows off those before the cutoff, and one that is not full leaves no finished row behind. |
| Cleaning.BatchStepIff | internal/app/control-plane/job_cleaner.go:91-110 | The protocol's batches are exactly those that remove the oldest overdue rows before the handler's reading minus the retention, and change nothing else. |
| WorkerLoops.Worker.constructor | internal/app/worker/worker.go:43-61 | The default settings, which satisfy the bounds the loops rely on. |
| WorkerLoops.Worker.WithLeaseRenewalConfig | internal/app/worker/worker.go:63-71 | Only positive values replace the settings. |
| WorkerLoops.Worker.WithPollingConfig | internal/app/worker/worker.go:73-83 | Establishes 0 < base <= max for every pair of durations. |
| WorkerLoops.Worker.WithResultRetryConfig | internal/app/worker/worker.go:85-99 | At least one attempt and positive pauses for every input. |
| WorkerLoops.Worker.SendResult | internal/app/worker/polling.go:137-210 | Ends as the exit function says; submissions are at most the maximum plus the successful refreshes; unless cancelled, the run is out of the active jobs and all others are untouched. |
| WorkerLoops.Worker.CompleteJob | internal/app/worker/polling.go:222-231 | Frees and cancels exactly that job. |
| WorkerLoops.Worker.CancelAllJobs | internal/app/worker/polling.go:126-135 | Every active job is cancelled and none stays. |
| WorkerLoops.Worker.NextPollInterval | internal/app/worker/polling.go:37-58 | The next interval, within base and max, and the base after jobs or without room. |
| WorkerLoops.Worker.PollForJobs | internal/app/worker/polling.go:60-85 | Negative exactly when there is no room; otherwise the number received, or a failure. |
| WorkerLoops.Worker.PollLoop | internal/app/worker/polling.go:14-35 | With jobs starting and ending between the polls: the interval is the one of the whole poll history, and the end of the context cancels whatever is active then. |
| WorkerLoops.Worker.RenewLease | internal/app/worker/polling.go:240-279 | Goes on exactly while the lease is renewed, and successive renewals reach the server within the renewal gap. |
| ResultRetry.FirstStopDecides | internal/app/worker/polling.go:137-210 | How the loop ends is decided by the first turn that does not let it go on. |
| ResultRetry.RunningIff | internal/app/worker/polling.go:140-189 | The loop still runs if and only if no turn ended it and fewer than the maximum counted. |
| ResultRetry.EndsWhenRefreshesDo | internal/app/worker/polling.go:150-160 | With R successful refreshes it ends within the maximum plus R turns. |
| ResultRetry.NeverEnds | internal/app/worker/polling.go:156-158 | With a refresh on every turn it never ends, for any maximum. |
| Renewal.GapBetween | internal/app/worker/polling.go:240-279 | From the clock reading of one turn's handler to the statement of the next turn's at most max(interval, 5 s) + 20 s pass. |
| Renewal.GapReached | internal/app/worker/polling.go:240-279 | For every interval there are two turns exactly that far apart. |
| Renewal.RenewalsKeepLease | queries/jobs.sql:70-76 | Renewals whose statements run within a lease duration of the reading before each find the job still leased to the worker or completed by it, over every run, with late handlers anywhere. |
| Renewal.LoopKeepsLease | internal/app/worker/polling.go:240-279 | A renewal loop that keeps running keeps its lease when the gap fits the lease duration and its first request is in time, however late handlers run. |
| Polling.NextWithin | internal/app/worker/polling.go:37-58 | From any 64-bit interval one poll leads into the bounds, and a poll with jobs or without room to the base. |
| Polling.DoublesUpToMax | internal/app/worker/polling.go:50-57 | After k misses since the last reset the interval is min(base * 2^k, max), over every poll history. |
| Polling.ClosedFormIff | internal/app/worker/polling.go:50-57 | That closed form holds for all histories if and only if max < 2^62 or base = max: otherwise the doubling wraps and falls back to the base. |
| RollUp.GroupsCount | migrations/000004_uptime_aggregations.up.sql:6-24 | Summing rows of a refreshed aggregate gives the three counts of the raw rows they stand for. |
| RollUp.BucketAfterCutoff | queries/results.sql:50-52 | A bucket is selected if and only if its rows lie at or after the first boundary from the cutoff. |
| Uptime.TotalIsRaw | queries/results.sql:44-82 | An hourly or daily total equals the raw counts from the first bucket boundary at or after the cutoff. |
| Uptime.CountsAreSubmissions | migrations/000004_uptime_aggregations.up.sql:6-24 | The direct counts of a table filled by messages about different runs or times are counts of those messages: all known ones, those that say OK, and those that say FAIL or ERROR, of that monitor and from that time. |
| Uptime.StoreCounts | migrations/000004_uptime_aggregations.up.sql:11-13 | Storing a message adds one success exactly when it says OK and one failure exactly when it says FAIL or ERROR, for the monitor of its row and from its stored time; what it overwrites stops counting. |
| Uptime.AllOk | queries/results.sql:45-49 | When every message that counts says OK, 100 percent and no failure are shown. |
| Uptime.CountsWhole | migrations/000004_uptime_aggregations.up.sql:11-13 | In a raw or aggregated count, total = successful + failed. |
| Uptime.SumsWhole | queries/results.sql:45-48 | So it is for a sum of aggregate rows, refreshed or not. |
| Uptime.PercentRange | queries/results.sql:49 | The percentage lies in 0..100, grows with the successes, is 100 exactly from 99.5 percent up and 0 exactly up to 0.5 percent. |
| Uptime.FloatingPercent | queries/results.sql:49 | What double-precision division, multiplication and rounding give is that percentage, except that exactly between two whole numbers it may be either; always 0..100. |
| Uptime.AnswersWhole | internal/app/control-plane/api/monitors/service.go:752-807 | On every path of the fallback chain the answer is whole and its percentage is one. |
| Uptime.ChainIsFirstNonEmpty | internal/app/control-plane/api/monitors/service.go:752-807 | The chain over any results: the first query that counted something gives the answer, the raw one if none did, and a query that fails before that fails the request. |
| Uptime.ChainIsDirect | internal/app/control-plane/api/monitors/service.go:752-807 | With refreshed aggregates the week and month answers are the direct counts from their first boundary, and only the day falls back, when its full hours are empty. |
| Timelines.RebucketIsDirect | queries/results.sql:96-106 | Re-bucketing hourly counts to two hours is bucketing the raw rows to two hours, point by point, from the first full hour. |
| Timelines.BucketOfBucket | queries/results.sql:97-98 | The coarse bucket of a fine bucket is the coarse bucket of what lies in it. |
| Timelines.RawTimelineSums | queries/results.sql:84-94 | The day's timeline sums to the day's raw counts. |
| Timelines.RebucketedSums | queries/results.sql:96-106 | The week's timeline sums to the week's total query, whatever the aggregate holds. |
| Timelines.DayViewsAgreeIff | internal/app/control-plane/api/monitors/service.go:752-775 | For a day, total and timeline count the same checks if and only if none lies in the first, incomplete hour or all do. |
| Timelines.DayRepeatsIff | queries/results.sql:108-117 | In the month's timeline a day appears more than once if and only if results from two regions fall into it. |
| Sums.SumGroups | queries/results.sql:96-105 | Summing each group and then the groups is summing everything, in any order. |
| MonitorsApi.MonitorsService.CreateMonitor | internal/app/control-plane/api/monitors/service.go:36-118 | Needs an id and a URL; otherwise, for a new id, is the protocol's step and leaves a row with the interval (one minute for 0), the normalized regions (global for none), seed 42 and enabled unless switched off; a taken id changes nothing. |
| MonitorsApi.MonitorsService.UpdateMonitor | internal/app/control-plane/api/monitors/service.go:175-263 | Whatever the others do between its lookup and its write, it writes exactly the settings of the request and, where that names none, those it read, and never the schedule; the answer for each case. |
| MonitorsApi.MonitorsService.DeleteMonitor | internal/app/control-plane/api/monitors/service.go:573-598 | Is the protocol's step on a live monitor and changes nothing otherwise; both are answered alike. |
| MonitorsApi.EditIsStep | internal/app/control-plane/api/monitors/service.go:175-263 | With nothing in between, an edit is the protocol's update step. |
| MonitorsApi.LateEditIsStep | queries/monitors.sql:73-88 | Over every run: an edit whose row was read in any earlier state is an update step, too, so every theorem about runs covers overlapping edits. |
| MonitorsApi.OverlappingEditsIff | queries/monitors.sql:73-88 | Of two edits that read one row, the later writer keeps the other's change if and only if the other changed nothing that it leaves alone; the schedule is never lost. |
| MonitorsApi.RunsStayTidy | internal/app/control-plane/api/monitors/service.go:57-80 | In every state of every run a monitor's regions are some, normalized and without repeats, and its seed is 42. |
| Regions.NormalizeIdempotent | internal/pkg/regions/normalize.go:7-13 | A normalized name is not empty and is a fixed point. |
| Regions.NormalIff | internal/pkg/regions/normalize.go:7-13 | The names that can be stored are exactly the non-empty ones without upper case or space at either end. |
| Regions.NormalizePadded | internal/pkg/regions/normalize.go:7-13 | A name between spaces becomes the name itself, letter by letter in lower case; spaces alone become "global". |
| Regions.LowerIs | internal/pkg/regions/normalize.go:7-13 | Lower case maps the 26 capital letters to the small ones and nothing else. |
| Regions.NormalizeList | internal/pkg/regions/normalize.go:16-32 | The loop computes the normalized names in order of first appearance. |
| Regions.NormalizedIsSet | internal/pkg/regions/normalize.go:16-32 | No name twice, none lost, and empty only for the empty list. |
| Regions.NormalizedTwice | internal/pkg/regions/normalize.go:16-32 | Normalizing a stored list again changes nothing. |
| Spacing.WindowHolds | internal/app/control-plane/api/worker/heartbeat_tracker.go:34-40 | How many instants a window can hold when neighbours keep a distance. |
| Times.StoredSum | internal/app/control-plane/scheduler.go:160-166 | A stored sum is within a microsecond of the sum of the stored parts, and equal when one part is whole microseconds. |
| Times.StoredIsWhole | queries/jobs.sql:98-100 | A column holds the last whole microsecond at or before the instant. |

## Left out

- Advisory locks, the connection pool and isolation levels: an iteration of the scheduler and a statement are each atomic; an iteration that finds no lock does nothing.
- Time-outs inside a scheduling iteration: they end it like a failure, with nothing changed.
- Queries no shipped service calls (CreateJob, LeaseJobs, LeaseJobsWithFallback, ForceExpireJobLease, RegisterWorker, DeleteMonitorJobs); rows are therefore never soft-deleted.
- Hashes and randomness: the FNV hash, the SHA-1 suffix, SHA-256 and drawn tokens are parameters; that a new token and a new worker id are fresh is assumed of the steps, and a clash of worker ids is refused by the primary key.
- Calendar formatting and time zones of run ids, beyond telling seconds apart.
- Regions.NormalizeIdempotent: white space and letter case are the ASCII ones.
- Regions.NormalizeList: for the same reason.
- Regions.NormalizePadded: for the same reason.
- Regions.LowerIs: for the same reason.
- Regions.NormalIff: for the same reason; the names it calls stored are those of the ASCII reading.
- RunIds.Apart: reads a stored region in the same way, so that ids are compared with ASCII case and white space.
- RunIds.LongerRegion: for the same reason.
- RunIds.PlaceClash: for the same reason.
- Losses.SafeIdsIff: for the same reason.
- EnrollmentApi.EnrollmentService.RenewEnrollment: a worker lookup that fails for another reason than a missing row is answered alike and changes nothing; it is not a separate outcome.
- EnrollmentApi.EnrollmentService.RevokeEnrollment: for the same reason.
- Rows' other columns (name, method, headers, timeouts, assertions) and the monitors' owner: no modelled decision reads them; the calls of the monitor service are taken to be the owner's.
- MonitorsApi.MonitorsService.CreateMonitor: a malformed header or assertion document, which is refused before anything is written, is not an input.
- MonitorsApi.MonitorsService.UpdateMonitor: for the same reason.
- Several replicas of the auth cache and calls that interleave inside one: agreement is stated for atomic calls on one replica.
- Goroutines of the worker: its loops are taken one at a time, over arbitrary answers, a job may vanish from the active ones between turns, and a cap on concurrent checks is not stated, because registration happens in each job's own goroutine.
- Cancel functions: the model records which jobs were cancelled, not what cancelling does to a running check.
- Refresh requests that wait for another refresh of the same worker: their deadline counts, the order does not.
- Uptime.PercentRange: is about the exact quotient; Uptime.FloatingPercent carries it over to double-precision numbers up to 2 * 10^13 checks, and leaves open which neighbour an exact middle goes to.
- Aggregates between two refreshes: totals and timelines are whole on any aggregate, and equal to direct counts on a refreshed one.
- The one-minute aggregate, latency columns and percentiles.
- The timelines' fallback to a shorter range, which only chooses between queries, and zeroHealthyRegions, which is a filter.
- Session authentication, user and dashboard services, header and assertion JSON, the web interface, logging and wiring.
- Running the HTTP checks themselves.
