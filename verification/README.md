# Verification of the download engine

A Dafny model of the parts of spotiflac-lidarr-proxy that decide whether, when and how often a
job runs and what becomes of it, with proofs of what the program's comments promise about them.

- `Dispatch.dfy`: the dispatch protocol (LoadOrStore, askAgain, reload, takeRerun, retireJob) and
  the download slots, as a state machine over all interleavings of any number of callers and workers.
- `Handler.dfy`: one worker, imperatively: parking, taking a slot, attempts, the fallback chain, the
  verdict, the worker's loop. Everything else (other workers, the clock, the job's context) acts in
  `Handler.Watch`: arbitrary calls on the breaker, the gate and the park board, the passage of time, and a
  context that only goes from alive to cancelled or, from its deadline on, to expired. Backend runs
  are two arbitrary finite streams drained under an arbitrary scheduling.
- `Verdict.dfy`: what becomes of a job after a pass and after a worker's whole run, as value-level
  theorems; `Handler` is proved to end a pass only so.
- `SlotWait.dfy`: `Dispatch` with a clock, the gate's announcements and the moments workers leave the
  gate, again over all interleavings.
- `ParkBoard.dfy`: the published park, one field for all workers, over all runs of them.
- `Pass.dfy`: what a pass looks like from outside, as a value (`Visits`), and the theorems about
  every such pass; `Handler` is proved to produce only such passes and to report what they add up to.
- `Breaker.dfy`, `UpstreamBreak.dfy`, `Failure.dfy`: the circuit breaker and the break gate, each
  with a ghost history of every call, and the classification of errors.
- `JobTable.dfy`: the jobs table, crash recovery over any number of restarts, pruning by rank.
- `Drains.dfy`, `SearchFilter.dfy`, `Nzb.dfy`, `Decimal.dfy`: the two-channel drains, the
  album-over-track filter, the synthetic NZB printer and parser.

`dafny verify dfyconfig.toml` checks everything.

Assumptions: a breaker threshold of at least 1 and a breaker cooldown no longer than the park cap
(10 and 45 minutes in the program); non-decreasing clock readings; the other workers and callers act
finitely often during one worker's run (`othersLeft`, any number), which is what makes its waits end.
Only waits take time: sleeps, backend runs, the semaphore. Queue writes may fail: `SQLiteQueue.healthy`
is the assumption that they do not, and only the statements about where a row ends depend on it. While
a worker runs a job nobody else writes that row.

## What the code does, where its own words say otherwise

- The failed-reload exit of runJob ignores retireJob's answer (handler.go:290-294). With a re-run
  pending the registration stays for ever with no worker, and later dispatches of that job only ask
  the dead run (`Dispatch.OrphanAppearsIff`, `Dispatch.OrphanIsForever`).
- An ask between LoadOrStore and a retirement is lost (`Dispatch.AskAfterRetirement`);
  `Dispatch.RetirementWindowIsReached` leads there from the start, and
  `Dispatch.AskIsServedIffReachable` is the exact condition.
- After a cooldown's trial "a subsequent RecordFailure" does not re-open the circuit: Allow has zeroed the
  count (breaker.go:50-54). It does if and only if the threshold is one (`Breaker.OneFailureReopensIff`; a
  failing history is `Breaker.OneFailureDoesNotReopen`); otherwise it takes exactly a full threshold
  (`Breaker.ReopensExactlyAtTheThreshold`).
- "Zero requests hit the infra during the window" (upstream_break.go:18-31) is not kept by a worker that
  left the gate before the window was announced: the look after the semaphore is at the circuits alone
  (handler.go:510-525). It runs inside the window if and only if a pause announced since it left the gate
  is not over (`SlotWait.InsideTheWindowIff`, and `Handler.Handler.AcquireSlot` for the code itself);
  `SlotWait.BlockedWorkerRunsInsideTheBreak` is such a run.
- The cap of the circuit park closes only the primary's circuit: "attempting anyway" is an attempt
  exactly when the primary is supported or some candidate was admitted anyway
  (`Handler.Handler.AttemptAnyway`); `Handler.CapWithoutPrimary` gives calls by which neither is so.
- mode=retry does not reset recover_count, although MoveToQueue does, unless its second write is lost
  (`JobTable.SQLiteQueue.Retry`).
- A job that gives up after an announced pause is counted and worded twice: "gave up after 21 ...:
  gave up after 20 ...", and no other job is (`Verdict.GivenUpTwiceIff`).
- A "circuit open" message carries the raw output of an earlier attempt (handler.go:546-560), so an old
  pause text in it can send a never-tried job back by the cooldown rule and announce that pause to the
  whole queue again (handler.go:728-729). `Verdict.NothingInvokedVerdict` is the exact condition and
  `Verdict.StalePauseInstance` an instance.
- The published park is "zero when nothing is parked" (handler.go:1071), and can be zero when something
  is: it is one field for all workers, cleared by whichever worker ends its park. In every run somebody is
  parked and nothing shown if and only if the last step was such an end with another worker parked
  (`ParkBoard.HidesIff`; a run is `ParkBoard.OneEndHidesTheOther`), and each end of a park in the engine
  does exactly that (`Handler.Handler.ParkForOpenCircuits`).
- A run that both completes and reports an error is decided by channel scheduling alone
  (`Drains.DrainAttempt`).

## Model

| member | source | states |
|---|---|---|
| `Dispatch.ReachableInv` | internal/api/sabnzbd/handler.go:225-318 | For every interleaving of any number of callers and workers: a worker that has not exited is exactly the registered run of its job, the semaphore holds one token per worker between acquire and release, and never more than its capacity |
| `Dispatch.StepKeepsRegistration` | internal/api/sabnzbd/handler.go:274-318 | Every single step keeps the registration invariant, including LoadOrStore by a worker for its own job and CompareAndDelete on exit |
| `Dispatch.StepKeepsSlots` | internal/api/sabnzbd/handler.go:510-526 | Every single step keeps the token count equal to the number of workers holding a slot |
| `Dispatch.WorkerStepMovesOneSlot` | internal/api/sabnzbd/handler.go:510-526 | A slot is taken by the semaphore send alone and given back by the deferred receive and a failed second look alone |
| `Dispatch.OneWorkerPerJob` | internal/api/sabnzbd/handler.go:251-318 | In every reachable state two live workers of the same nzo_id are the same worker |
| `Dispatch.IdleMeansAllSlotsFree` | internal/api/sabnzbd/handler.go:500-526 | No exit path leaks a slot and neither park holds one: when nobody is between acquire and release, no token is out |
| `Dispatch.WorkersAreNeverStuck` | internal/api/sabnzbd/handler.go:288-318 | Every live worker has a step of its own; only a full semaphore can leave it with nothing but cancellation |
| `Dispatch.EveryOutcomeIsPossible` | internal/api/sabnzbd/handler.go:225-318 | Where a worker's step has an outcome each is possible, waits can be cancelled, and callers dispatch and ask at any time: the theorems are about all of it |
| `Dispatch.DebtIsPaidBeforeExit` | internal/api/sabnzbd/handler.go:231-318 | Once a re-run is owed, in every continuation the worker stays alive and keeps owing it until it has reloaded the job, and it has reloaded after at most eight steps of its own, plus three for every look that sent it back to the park |
| `Dispatch.DebtIsPaid` | internal/api/sabnzbd/handler.go:231-318 | The progress half by itself: a continuation in which an owing worker makes that many steps of its own holds its reload |
| `Dispatch.DebtIsPaidNext` | internal/api/sabnzbd/handler.go:298-318 | When its pass is over, a worker with a pending re-run is one step from the reload, by takeRerun or by retireJob's refusal |
| `Dispatch.UnreachableNeverReloads` | internal/api/sabnzbd/handler.go:288-318 | A run whose worker has exited, or has failed its reload, never reloads again in any continuation |
| `Dispatch.AskIsServedIffReachable` | internal/api/sabnzbd/handler.go:231-318 | An ask that lands while the worker is alive and past no failed reload is followed by a fresh reload within that bound on the worker's own steps, and owed until then; any other ask is followed by none in any continuation |
| `Dispatch.RequeueIsNeverStranded` | internal/api/sabnzbd/handler.go:262-318 | A pass that ends in a requeue finds its own run with LoadOrStore whatever happens between its two steps, and the job is reloaded within that bound on its worker's own steps, and owed until then |
| `Dispatch.NoReloadUnasked` | internal/api/sabnzbd/handler.go:231-318 | In every run a worker reloads its job no more often than it was asked to, its start included: takeRerun and retireJob consume the flag |
| `Dispatch.PassesAreForFoundJobs` | internal/api/sabnzbd/handler.go:288-301 | In every run a worker waits, holds a slot, runs and retires only for a job its last reload has found, and gives up only on one it has not |
| `Dispatch.DispatchReachesItsJob` | internal/api/sabnzbd/handler.go:262-272 | A dispatch starts a worker that owes the reload, or finds the registered run of its job and is about to ask it; it moves nobody else |
| `Dispatch.DispatchIsServed` | internal/api/sabnzbd/handler.go:231-318 | So every dispatch leads to a reload of its job within the bound on the worker's own steps, unless it finds a run that an ask can no longer reach |
| `Dispatch.OrphanAppearsIff` | internal/api/sabnzbd/handler.go:288-318 | A registration without a worker arises exactly when retireJob answers false on the failed-reload exit, whose answer is ignored |
| `Dispatch.OrphanIsForever` | internal/api/sabnzbd/handler.go:274-318 | Such a registration stays for every continuation: no worker of that job ever starts again |
| `Dispatch.AskDuringFailedReload` | internal/api/sabnzbd/handler.go:288-318 | A concrete five-step run that leaves the job registered with no worker |
| `Dispatch.RetirementWindowIsReached` | internal/api/sabnzbd/handler.go:231-318 | A concrete five-step run from the initial state to such a state |
| `Dispatch.AskAfterRetirement` | internal/api/sabnzbd/handler.go:274-318 | A concrete continuation, of every state with a caller about to ask a retiring worker, in which the ask is lost: no worker and no registration remain |
| `Breaker.StreakIsFailuresSinceLastClear` | internal/breaker/breaker.go:41-124 | The streak of a service, defined by recursion over the call history, is exactly the failures recorded after the last clearing call |
| `Breaker.ExtraFailuresNeverExtend` | internal/breaker/breaker.go:82-95 | Any number of further failures while the streak is full leaves the end of the open window where it was |
| `Breaker.ReopeningTakesAFullThreshold` | internal/breaker/breaker.go:41-57 | After the trial that follows a cooldown, any history with fewer than `threshold` new failures leaves the circuit closed at every instant |
| `Breaker.ReopensExactlyAtTheThreshold` | internal/breaker/breaker.go:41-95 | While only failures are recorded after the trial, the circuit is open if and only if there are `threshold` of them and the cooldown counted from that one is not over |
| `Breaker.OneFailureReopensIff` | internal/breaker/breaker.go:41-57 | One failure after the trial re-opens the circuit if and only if the threshold is one (and its own cooldown is not over) |
| `Breaker.OneFailureDoesNotReopen` | internal/breaker/breaker.go:41-57 | A concrete history with threshold 2 in which the failure after the trial leaves the circuit closed at every instant |
| `Breaker.LedgerAppend` | internal/breaker/breaker.go:41-95 | Sorting the calls by caller gives exactly the failures each pass reported and what each of its Allow calls was told |
| `Breaker.NoFailureNeverOpens` | internal/breaker/breaker.go:41-124 | A history with fewer than `threshold` failures of a service never has its circuit open, at any time |
| `Breaker.EveryFailureHasAReporter` | internal/breaker/breaker.go:82-95 | Every failure in the history was reported by some pass |
| `Breaker.RefusalsAreOpen` | internal/breaker/breaker.go:41-57 | A pass was refused a service, as its answers say, if and only if it called Allow while the streak of that service was open |
| `Breaker.UnfailedIsNeverRefused` | internal/breaker/breaker.go:41-57 | A service with fewer failures than the threshold is never refused to anybody |
| `Breaker.Breaker.ClosedAfterCooldown` | internal/breaker/breaker.go:41-80 | One cooldown after the last call of anybody every circuit is closed |
| `Breaker.Breaker.UnreportedNeverOpens` | internal/breaker/breaker.go:41-124 | The circuit of a service nobody has reported is closed at every instant |
| `Breaker.Breaker.UnreportedIsNeverRefused` | internal/breaker/breaker.go:41-57 | A service nobody has reported is never refused to anybody |
| `Breaker.Breaker.Allow` | internal/breaker/breaker.go:41-57 | Refuses exactly when the whole call history says the circuit is open, before and after its own effect; other services keep their streaks |
| `Breaker.Breaker.RetryAfter` | internal/breaker/breaker.go:67-80 | Zero exactly when Allow would accept, and otherwise the exact remaining time: open before now + d, closed from then on |
| `Breaker.Breaker.RecordFailure` | internal/breaker/breaker.go:82-95 | Adds one failure to the history and keeps the two stored numbers equal to what the history means |
| `Breaker.Breaker.Reset` | internal/breaker/breaker.go:107-115 | Closes the circuit at every instant until new failures come, and touches no other service |
| `Breaker.Breaker.RecordSuccess` | internal/breaker/breaker.go:117-124 | Closes the circuit at every instant until new failures come |
| `Breaker.Breaker.Status` | internal/breaker/breaker.go:127-142 | Reports a circuit open exactly when Allow would refuse it, with the exact time it closes and the streak's length and date, and lists every service that could be open |
| `UpstreamBreak.LongestIsLongest` | internal/api/sabnzbd/upstream_break.go:132-147 | The best announcement is an upper bound of all of them and is one of them |
| `UpstreamBreak.CooldownMeaning` | internal/api/sabnzbd/upstream_break.go:132-157 | A text asks for a pause exactly when it announces a positive break, a rate limit or a dead resolver; the pause is the longest it announces, and without an announcement the configured one, or ninety seconds |
| `UpstreamBreak.AnnouncedIsMinutes` | internal/api/sabnzbd/upstream_break.go:132-147 | A clause about N minutes announces N times sixty seconds whenever that fits |
| `UpstreamBreak.AnnouncesNothing` | internal/api/sabnzbd/upstream_break.go:132-147 | A number that does not fit, or is not one, announces nothing |
| `UpstreamBreak.OwnWords` | internal/api/sabnzbd/failure.go:60-99 | The program's own prefixes change nothing about what is found in a message, and its own words ask for no pause |
| `UpstreamBreak.UpstreamBreakGate.CooldownFor` | internal/api/sabnzbd/upstream_break.go:132-157 | The loop computes that pause, with Atoi's errors skipped and the 64-bit product wrapped |
| `UpstreamBreak.WindowCoversEveryAnnouncement` | internal/api/sabnzbd/upstream_break.go:160-174 | The window ends no earlier than any announcement ever made asks for, and exactly where some announcement said |
| `UpstreamBreak.OpenAgainIff` | internal/api/sabnzbd/upstream_break.go:160-174 | For whoever found the window over at some instant: it is open later exactly when an announcement made since is not over yet |
| `UpstreamBreak.UpstreamBreakGate.Extend` | internal/api/sabnzbd/upstream_break.go:160-174 | Never moves the window in, answers whether it moved, and keeps `until` equal to what the whole log of announcements means |
| `UpstreamBreak.UpstreamBreakGate.Remaining` | internal/api/sabnzbd/upstream_break.go:219-226 | The time from now to the end of the window, 0 when it is over |
| `SlotWait.InsideTheWindowIff` | internal/api/sabnzbd/handler.go:500-526 | In every run of any number of workers, slots, announcements and waits: a worker past the gate (waiting for a slot, looking again, or running) is inside a break window if and only if a pause announced since it left the gate is not over |
| `SlotWait.EachParkPassesTheGate` | internal/api/sabnzbd/handler.go:515-517 | A worker that reloaded its job, or was sent back by its second look, has to leave the gate again before it can go for a slot |
| `SlotWait.BlockedWorkerRunsInsideTheBreak` | internal/api/sabnzbd/upstream_break.go:18-31 | A concrete run of two workers and one slot in which the one blocked on the slot starts to run inside the break the other announced |
| `ParkBoard.ShownIsParked` | internal/api/sabnzbd/handler.go:1046-1081 | What is shown is always the last park of a worker that is still parked; with nobody parked nothing is shown |
| `ParkBoard.HidesIff` | internal/api/sabnzbd/handler.go:1046-1081 | In every run of any number of workers, somebody is parked and nothing is shown if and only if the last step was a worker done with its park while another one was parked |
| `ParkBoard.OneEndHidesTheOther` | internal/api/sabnzbd/handler.go:1056-1069 | A concrete run of two workers that park, in which the end of the first park hides the second |
| `ParkBoard.Board.Show` | internal/api/sabnzbd/handler.go:1056-1062 | Overwrites what is shown, whoever showed it; nothing is hidden after it |
| `ParkBoard.Board.Clear` | internal/api/sabnzbd/handler.go:1064-1069 | Clears what is shown, whoever showed it; that hides a park exactly when another worker is parked |
| `ParkBoard.Board.State` | internal/api/sabnzbd/handler.go:1071-1081 | The remaining time of what was shown last, 0 with nobody parked; with somebody parked, 0 exactly when the last step hid that or the time shown is over |
| `Handler.Handler.ClassifyFailure` | internal/api/sabnzbd/failure.go:101-109 | Cooldown first, then a property of the release, then the service's own fault |
| `Failure.ClassesMean` | internal/api/sabnzbd/failure.go:101-109 | A pause, a property of the release, the service's own fault: each class for exactly its reason; and another attempt exactly for the third, unless it is known to be pointless |
| `Handler.Handler.ShouldRetryNow` | internal/api/sabnzbd/failure.go:177-180 | Another attempt exactly for a service fault that is not marked as pointless to retry |
| `Handler.Handler.Observe` | internal/api/sabnzbd/failure.go:144-172 | Stops exactly on a pause of a run that was attempted, and by then every other worker sees the gate shut that long; an unattempted step is not folded in |
| `Handler.Handler.RecordServiceFailure` | internal/api/sabnzbd/failure.go:191-196 | Reports to the breaker exactly the service's own faults |
| `Pass.GoodPassMeaning` | internal/api/sabnzbd/handler.go:467-667 | Building a pass visit by visit yields exactly the orderly ones: primary first, then the chain in order with none left out, nothing after a success, a pause or a dead context at a service's door, nothing run once the context was seen dead |
| `Pass.WalkReports` | internal/api/sabnzbd/handler.go:577-667 | The running totals of a pass equal what its visits say: reports, the breaker's answers, pauses, backend runs, services tried, last error |
| `Pass.CooldownEndsThePass` | internal/api/sabnzbd/handler.go:621-667 | A pause heard from any call is the last call of the pass, becomes its last error and adds no breaker failure |
| `Pass.PausesAreOne` | internal/api/sabnzbd/failure.go:144-172 | A pass announces at most one pause while it walks, and it is the last visit's |
| `Pass.InvocationShape` | internal/api/sabnzbd/handler.go:546-667 | The backend runs of a pass are for the primary at most three times, followed by an order-preserving choice of the chain, each place once; no more than three plus the chain's length, and for the primary only if this deployment has it |
| `Pass.RepeatsAreRetries` | internal/api/sabnzbd/handler.go:858-903 | A service is asked twice only as the primary and only after an error worth a retry |
| `Pass.RetriesGoOn` | internal/api/sabnzbd/handler.go:858-903 | The primary is given up before its third try only for a success, an answer not worth another try, or a dead context |
| `Pass.LapsedHadATryLeft` | internal/api/sabnzbd/handler.go:862-868 | A visit that found the context dead before its next try had one left: of three for the primary, its only one for a fallback |
| `Pass.EndsOnlyFor` | internal/api/sabnzbd/handler.go:623-667 | A pass goes through its whole chain unless a service delivered, an answer asked for a pause, or the context was found dead at a fallback's door; and after any of these it goes no further |
| `Pass.LastRunDecides` | internal/api/sabnzbd/handler.go:636-660 | The last service that was given a run decides: its error explains the job and the job carries its name; without one, why the primary did not run |
| `Pass.DeliveryHasItsFiles` | internal/api/sabnzbd/handler.go:1206-1237 | A pass that delivered has its files: its last backend run sent a complete event and left audio files on disk |
| `Pass.FilesEndThePass` | internal/api/sabnzbd/handler.go:1118-1120 | A backend run that completed with files and without an error ends the pass, delivered, unless the album was short |
| `Pass.DeadContextRunsNothing` | internal/api/sabnzbd/handler.go:590-667 | After a visit that saw the context dead nothing is invoked and nothing is reported |
| `Pass.BlameBound` | internal/api/sabnzbd/handler.go:577-660 | One pass reports a service at most once as the primary, however many retries, and once per place in the chain |
| `Pass.ReportsPerPass` | internal/api/sabnzbd/handler.go:577-667 | One pass reports its primary at most once and any other service at most as often as it is configured |
| `Pass.BlamesComeFromFaults` | internal/api/sabnzbd/failure.go:182-196 | A service is reported if and only if some answer of its own was its own fault, heard on a live context: never for a pause, a property of the release or a dead context |
| `Pass.TotalsUntil` | internal/api/sabnzbd/upstream_break.go:160-174 | The promised end of the gate covers every pause any visit announced |
| `Pass.HeardPause` | internal/api/sabnzbd/handler.go:621-667 | A pause heard in a pass is the last thing heard, the walk ends on it, and the gate is promised to stay shut that long |
| `Pass.CooledCarries` | internal/api/sabnzbd/handler.go:701-737 | A pass that heard of a pause was attempted, delivered nothing and ends on that pause's error |
| `Pass.UnattemptedReportsNothing` | internal/api/sabnzbd/failure.go:131-147 | The walk of a pass that reached no backend reported no failure and announced no pause; what the verdict of such a pass announces is in `Verdict.NothingInvokedVerdict` |
| `Pass.UntriedCarriesIff` | internal/api/sabnzbd/handler.go:546-560 | A good pass that reached no backend ends on an error that asks for a pause if and only if its primary was refused with an earlier run's output asking for one and nothing was run after it |
| `Pass.ChainOf` | internal/api/sabnzbd/handler.go:932-944 | Every service of a chain is configured, supported and not the current one |
| `Pass.ChainPositions` | internal/api/sabnzbd/handler.go:932-944 | A chain is what stands at increasing positions of the configured list |
| `Pass.ChainCount` | internal/api/sabnzbd/handler.go:932-944 | Every supported service other than the current one is in the chain exactly as often as it is configured, and no other service is |
| `Pass.CandidatesMean` | internal/api/sabnzbd/handler.go:948-954 | The candidates are the primary first, if this deployment has it, and then each other configured service that it has, as often as it is configured |
| `Handler.Handler.BumpRequeue` | internal/api/sabnzbd/handler.go:822-830 | One shared counter per job, one higher than before; no other counter moves |
| `Handler.Handler.RequeueUnattempted` | internal/api/sabnzbd/handler.go:750-771 | Requeued exactly while the counter was below 5 (if the write succeeds): row Queued with no trace of the run, service kept, worker asked to run again |
| `Handler.Handler.RequeueAfterCooldown` | internal/api/sabnzbd/handler.go:795-819 | Requeued exactly while the counter was below 20 (if the write succeeds); otherwise the reason says that it gave up |
| `Handler.Handler.FailJob` | internal/api/sabnzbd/handler.go:1321-1334 | The row is in the history as Failed with its reason and a completion time, and the counter is gone |
| `Handler.Handler.HandleProgressEvents` | internal/api/sabnzbd/handler.go:1152-1183 | Of all that is handled on the way only the progress time and a missing track count change, the count to the first one reported |
| `Handler.Handler.HandleProgressEvent` | internal/api/sabnzbd/handler.go:1152-1183 | A progress or metadata event is on disk with its time before the next one is read, when the write succeeds |
| `Handler.Handler.HandleCompleteEvent` | internal/api/sabnzbd/handler.go:1206-1275 | A complete event is believed exactly with audio files on disk and enough tracks, and each refusal has its own message; then the job is Completed in the history, the breaker told and the counter gone, and otherwise nothing changed |
| `Handler.Handler.AttemptDownload` | internal/api/sabnzbd/handler.go:1087-1146 | One call of the backend with the job's service: the answer is exactly what the run's events, errors and files make it, whatever the scheduling; it either completes the job or leaves its row, service and counter for the caller; a backend error is passed on with its raw output kept |
| `Handler.Handler.RunAttemptsWithRetry` | internal/api/sabnzbd/handler.go:858-903 | At most `attempts` runs; every one but the last failed in a way worth a retry; it stops early exactly at an answer not worth one or at a dead context, and a context dead from the start runs nothing |
| `Handler.Handler.TryAndBackOff` | internal/api/sabnzbd/handler.go:878-900 | Another turn exactly after a run worth a retry with turns left, and only after its whole back-off, whatever becomes of the job meanwhile |
| `Handler.Handler.WeighFailure` | internal/api/sabnzbd/handler.go:582-597 | What the primary and a fallback do with a failed run adds exactly that visit to the totals |
| `Handler.Handler.ReportFailure` | internal/api/sabnzbd/handler.go:590-597 | A failure is held against its service exactly when the job's context is alive at that instant and the failure is the service's own |
| `Handler.Handler.AskBreaker` | internal/breaker/breaker.go:41-57 | The engine's question to the breaker: the answer is what the history says at that instant, and each is remembered |
| `Handler.Handler.RecordsAgree` | internal/breaker/breaker.go:41-95 | What a worker knows of its own calls is what the shared histories have: its failures and the breaker's answers, its announcements, its parks |
| `Handler.Handler.VisitNext` | internal/api/sabnzbd/handler.go:623-662 | One service of the chain, asked of the breaker first: a refusal, only while its circuit is open, is passed over, and the job entered with that service otherwise, all in what the visit says |
| `Handler.Handler.EnterService` | internal/api/sabnzbd/handler.go:634-662 | A service whose circuit let the job in: skipped, ending the walk, if the context has died meanwhile, and run once otherwise |
| `Handler.Handler.TryFallbackService` | internal/api/sabnzbd/handler.go:908-922 | Overwrites the job's service, gives it one attempt, and weighs the answer |
| `Handler.Handler.FallbackChain` | internal/api/sabnzbd/handler.go:932-944 | The configured services after the current one that this deployment has, in configured order |
| `Handler.Handler.CandidateServices` | internal/api/sabnzbd/handler.go:948-954 | The primary if this deployment has it, then its chain |
| `Handler.Handler.ReadCircuit` | internal/api/sabnzbd/handler.go:676-683 | One circuit read at its own instant: the exact time until it closes, 0 exactly when it is closed then |
| `Handler.Handler.AnyCandidateAllowed` | internal/api/sabnzbd/handler.go:671-685 | Each candidate is read by itself with the others free to act in between: true only when some candidate's circuit is closed now, or there is none; false, when nobody acted, only when every circuit is open |
| `Handler.Handler.WalkChain` | internal/api/sabnzbd/handler.go:623-667 | The walk over the whole chain, one visit after the other, until a success, a pause or a dead context ends it |
| `Handler.Handler.RunFallbackChain` | internal/api/sabnzbd/handler.go:623-667 | Every walk is a complete good pass: to the end of the chain unless a success, a pause or a dead context ended it; the job carries the last service that was given a run |
| `Handler.Handler.ConcludeFailedAttempts` | internal/api/sabnzbd/handler.go:701-737 | Requeued exactly when the job was untried with its counter below 5, or its last error asks for a pause with the counter below 20; failed with that error otherwise, prefixed when the budget had run out; announces a pause to the gate exactly when the error asks for one and the job does not go straight back |
| `Handler.Handler.DecideFate` | internal/api/sabnzbd/handler.go:701-737 | The same once it is known whether the budget is gone and the job alive; a job counts as untried exactly when it is alive, was not attempted, and some service could serve it |
| `Handler.Handler.TwoChances` | internal/api/sabnzbd/handler.go:724-735 | Both requeue branches in order, failing the job when neither sends it back: requeued and announced by the exact rules, and a failed job's reason is exactly the last error under one prefix per spent chance |
| `Verdict.GivenUpTwiceIff` | internal/api/sabnzbd/handler.go:724-735 | A given-up job is counted and worded twice if and only if its chain announced a pause, the budget lasted and its counter was spent; not at all exactly when its last error asks for no pause (if no write is lost) |
| `Verdict.SaidTwiceIff` | internal/api/sabnzbd/handler.go:724-735 | The same for any last error and counter: two prefixes, one or none, each with its exact condition |
| `Handler.Handler.ParkQueueAndRequeue` | internal/api/sabnzbd/handler.go:728-735 | A message that asks for a pause parks the whole queue that long, whether or not the job goes back; the message is prefixed exactly when the counter was spent |
| `Handler.Handler.BeginDownload` | internal/api/sabnzbd/handler.go:448-465 | Downloading with its clock started, or untouched exactly when the storage says the directory cannot be made |
| `Handler.Handler.EnterPrimary` | internal/api/sabnzbd/handler.go:547-560 | The primary's door: unsupported, or refused exactly while its circuit is open, with the message that says so; let in otherwise |
| `Handler.Handler.RunPrimary` | internal/api/sabnzbd/handler.go:546-603 | Skipped if unsupported or, exactly, open; up to three attempts otherwise; either way the first visit of a good pass |
| `Handler.Handler.RunInSlot` | internal/api/sabnzbd/handler.go:528-616 | Every way a pass can end once it holds a slot: not started exactly when the job's directory could not be made, and with the verdict of its whole attempt chain otherwise; never left Downloading when the writes succeed |
| `Verdict.EndedMeans` | internal/api/sabnzbd/handler.go:528-616 | What each end means for row, status, counter and reports, column by column |
| `Handler.Handler.Conclude` | internal/api/sabnzbd/handler.go:605-616 | A walk that delivered nothing ends as put back or given up, with everything that is true of such an end |
| `Verdict.CooldownVerdict` | internal/api/sabnzbd/handler.go:582-737 | If any call of a pass hears of a pause: it was the last call, no service is reported for it, the gate stays shut at least that long, and the job is back in the queue if and only if its counter was below 20 |
| `Verdict.NothingInvokedVerdict` | internal/api/sabnzbd/handler.go:701-737 | A pass that invoked nothing goes back if and only if it was untried with its counter below 5 or its primary's message carries a stale pause with the counter (one more if untried) below 20, and it announces that stale pause to everybody if and only if there is one and the job was not sent straight back as untried |
| `Verdict.UntriedVerdict` | internal/api/sabnzbd/handler.go:546-771 | A pass that invoked nothing on a live context, of a job some service could serve, ends Queued with its own service, no failure reported and nothing announced whenever its counter was below 5; from 5 on it goes back, and announces a pause, only on a stale one |
| `Verdict.StalePauseInstance` | internal/api/sabnzbd/handler.go:728-735 | A concrete ended pass of one refused service whose message still holds an earlier rate limit: with five requeues behind it the row is back in the queue by the cooldown rule, no backend was called, and the gate is shut from now on for everybody |
| `Handler.Handler.ParkForUpstreamBreak` | internal/api/sabnzbd/upstream_break.go:190-214 | Returns alive only when the gate is open, and, whatever the other workers announce, no later than one overshoot of a sleep after the window's last end |
| `Handler.Handler.ParkForOpenCircuits` | internal/api/sabnzbd/handler.go:980-1069 | Returns only when some candidate is admitted, there is none, the wait was cancelled, or the cap was reached; in at most the cap plus one poll and one overshoot of a sleep; it invokes no backend, publishes a park for exactly the candidates exactly when it waits, clears the board after that (hiding the other workers that are parked, if any), and the cap is reached only if other workers kept opening circuits |
| `Handler.Handler.ParkOnce` | internal/api/sabnzbd/handler.go:987-1037 | One turn of the park, the others free to act between its reads: each of its ends with its cause, or one park published and one sleep, of no more than a poll and an overshoot |
| `Handler.Handler.BeginCircuitPark` | internal/api/sabnzbd/handler.go:1056-1061 | The board shows this worker's park; what is shown is exact if nobody acted since the look began: no service of it is allowed before the time it gives, and one is then |
| `Handler.Handler.EndCircuitPark` | internal/api/sabnzbd/handler.go:1064-1069 | The board is cleared; if any other worker is parked, that hides it |
| `Handler.Handler.AttemptAnyway` | internal/api/sabnzbd/handler.go:1009-1027 | The reset at the cap admits a candidate if and only if the primary is supported or another one was admitted already |
| `Handler.CapWithoutPrimary` | internal/api/sabnzbd/handler.go:1009-1027 | A deployment and the calls of another worker by which the one candidate of a job, not its primary, is open at every instant, at the cap too, and after the reset |
| `Handler.Handler.AcquireSlot` | internal/api/sabnzbd/handler.go:515-526 | Ends, because the others can undo the park only finitely often; the slot is kept only with a candidate admitted at that instant, refused only for a dead context; waiting uses none of the budget, which starts with the slot; taken on a live context it is inside a break window if and only if a pause announced since the gate was left is not over |
| `Handler.Handler.WaitAndLook` | internal/api/sabnzbd/handler.go:515-526 | One turn of the wait: given up only for a dead context, a slot kept only with a candidate admitted, and handed back only because other workers acted or the context died |
| `Handler.Handler.LookAgain` | internal/api/sabnzbd/handler.go:510-526 | The look after the semaphore is at the circuits alone: what it says about the break window is only that it is over or was announced since |
| `Handler.Handler.ShortestWait` | internal/api/sabnzbd/handler.go:999-1008 | Each candidate's circuit is read by itself: 0 only with one admitted, and a wait that is exact if nobody acted in between: no candidate is admitted before it is over, and some candidate is then |
| `Handler.Handler.LookAtCircuits` | internal/api/sabnzbd/handler.go:990-1008 | One look of the park: 0 only with a candidate admitted or none at all, and otherwise that exact wait |
| `Handler.Handler.RunAndRelease` | internal/api/sabnzbd/handler.go:526-529 | Only with the whole budget of twice the timeout over can the context expire; the slot is given back on every path |
| `Handler.Handler.ProcessDownload` | internal/api/sabnzbd/handler.go:467-616 | A whole pass gives its slot back on every path; a cancelled wait leaves row, counter and reports untouched, and any other end is one of the fates of a pass that held a slot; the context never expires before the whole budget has passed |
| `Handler.Handler.TakeTurn` | internal/api/sabnzbd/handler.go:288-301 | After one pass the row is in exactly one of history-Completed, history-Failed and active-Queued, and a re-run is owed exactly in the last case; its reports, the breaker's answers to it, its backend runs and what the storage said are those of its visits and its end |
| `Handler.Handler.ServeOnce` | internal/api/sabnzbd/handler.go:288-301 | One turn of the loop: none if the row is not in the queue; otherwise a pass, and another one exactly if it put the job back or somebody asked, by takeRerun or by retireJob's second look |
| `Verdict.RequeuesRunOut` | internal/api/sabnzbd/handler.go:744-838 | Between two clearings of its counter a job is put back at most 20 times, whatever the kinds of the requeues and however often callers ask for it meanwhile |
| `Verdict.PassesAreBounded` | internal/api/sabnzbd/handler.go:288-318 | When no write is lost, a worker goes on only after a requeue or, with its wait cancelled, for an ask: its passes are bounded by the requeues its job had left plus the asks |
| `Verdict.RunIsBounded` | internal/api/sabnzbd/handler.go:288-318 | So a worker's whole run has at most one pass more than that |
| `Verdict.RunLeaves` | internal/api/sabnzbd/handler.go:288-318 | What a worker's run leaves, column by column: never a Downloading row, when no write is lost |
| `Handler.Handler.RunJob` | internal/api/sabnzbd/handler.go:288-301 | A worker's loop terminates for every backend behaviour and any finite number of asks by callers: every pass but the last was followed by another because it put the job back with a higher counter or was asked for, the last left it Completed, Failed or with its wait cancelled; what it reported, was told and had run is exactly what its passes add up to; and no recovery counter in the table changed, so that the run is a lifetime in the sense of crash recovery |
| `Verdict.ReportedMeansFaulted` | internal/api/sabnzbd/failure.go:182-196 | Over a worker's whole run a service is reported if and only if some answer of its own was its own fault |
| `Verdict.NoFaultNeverOpens` | internal/breaker/breaker.go:41-142 | Whatever any number of workers did: the circuit of a service that never failed by its own fault is closed at every instant |
| `Verdict.NoFaultNeverRefused` | internal/breaker/breaker.go:41-57 | Nor is such a service ever refused: every pass that came to it was let in |
| `Verdict.ReportsPerRun` | internal/api/sabnzbd/handler.go:577-667 | Over a worker's whole run a service is reported at most once per pass as the primary and once per pass and place as a fallback |
| `JobTable.TwoStatements` | internal/queue/queue.go:402-436 | The two UPDATEs in sequence change disjoint rows and together do what recovery means row by row |
| `JobTable.AddedIsWellFormed` | internal/queue/queue.go:171-183 | Tables are built row by row: a job with a new name and id can be added, and names and ids stay unique |
| `JobTable.RecoveryByColumn` | internal/queue/queue.go:402-436 | Recovery column by column: what is not active and Downloading is left alone; with three recoveries behind it a job is failed into the history, and otherwise queued as if it had never run, with one recovery more |
| `JobTable.RecoveryIsIdempotent` | internal/queue/queue.go:388-436 | No active Downloading row is left, and recovering again changes nothing |
| `JobTable.SQLiteQueue.RecoverStuckJobs` | internal/queue/queue.go:388-436 | Fails the rows whose budget is spent, requeues the other stuck ones, changes no other row, keeps the ids and returns the number of rows changed |
| `JobTable.RecoveryBudget` | internal/queue/queue.go:388-436 | Over any number of crashes a job is put back by recovery at most MaxRecoveries times, less what it had used up, and while it has a row recover_count counts exactly those requeues; its lifetimes may change, prune and delete anything, as long as its own counter is kept |
| `JobTable.SpentBudgetFails` | internal/queue/queue.go:402-412 | A job that a crash leaves stuck goes into the history as Failed with a completion time if and only if the recoveries it came with and those since make up MaxRecoveries, and back into the queue otherwise; whatever became of the other rows |
| `JobTable.PruningIsALifetime` | internal/queue/queue.go:440-458 | A prune with any bound is within what such a lifetime may do, for every job |
| `JobTable.TakeNewest` | internal/queue/queue.go:449-453 | Taking the first row of the order again and again takes exactly the rows with fewer than LIMIT newer ones |
| `JobTable.NewestKeysSize` | internal/queue/queue.go:449-453 | LIMIT keeps as many rows as asked for if there are that many, and all of them otherwise |
| `JobTable.NewestKeysRank` | internal/queue/queue.go:449-453 | Every row kept comes before every row left out, under COALESCE(completed_at, time_added) and then id |
| `JobTable.RankDetermines` | internal/queue/queue.go:449-453 | Size and rank determine the kept rows: no other set of rows has both |
| `JobTable.SQLiteQueue.PruneHistory` | internal/queue/queue.go:440-458 | The DELETE leaves exactly the specified table; keep <= 0 leaves everything |
| `JobTable.PruningKeepsActive` | internal/queue/queue.go:440-458 | Pruning drops no active row and changes no row it keeps; with keep <= 0 it drops nothing |
| `JobTable.PruningKeepsTheNewest` | internal/queue/queue.go:440-458 | The history that is left is the min(keep, size) greatest rows |
| `JobTable.KeptIsYounger` | internal/queue/queue.go:440-458 | Every history row kept was completed (or, never completed, added) later than every row deleted, or at the same time with the greater id |
| `JobTable.PruningIsIdempotent` | internal/queue/queue.go:440-458 | Pruning twice with the same bound is pruning once |
| `JobTable.FailedByRecoverySurvivePruning` | internal/queue/queue.go:395-412 | Rows just failed by recovery survive any prune that keeps at least as many, when the rest of the history was completed earlier, or at the same time with smaller ids |
| `JobTable.SQLiteQueue.Get` | internal/queue/queue.go:185-188 | Finds the row exactly when it is active |
| `JobTable.SQLiteQueue.Update` | internal/queue/queue.go:273-286 | Writes every column but the keys, time_added and is_history of the one row it names |
| `JobTable.SQLiteQueue.Retry` | internal/api/sabnzbd/status.go:115-137 | With both writes the row is active and Queued again and recover_count is what it was before: MoveToQueue's reset lasts only when there was nothing to reset, or when the second write is lost, which leaves the old status; without the first write nothing changes |
| `Drains.CollectPythonResult` | internal/spotiflac/client.go:819-870 | For every scheduling: true exactly when a complete event was sent, the events forwarded are exactly the suffix from the first complete one, and the errors forwarded are exactly those not read before it was |
| `Drains.SkippedMeans` | internal/spotiflac/client.go:819-870 | The errors read before the first complete event are those the scheduler served before it: none if it always serves the events first |
| `Drains.DrainAttempt` | internal/api/sabnzbd/handler.go:1103-1145 | For every scheduling: the generic message exactly when there was neither a completion nor an error; a reported error is always the first one; with both present the scheduling alone decides |
| `Drains.DeliveryHasFiles` | internal/api/sabnzbd/handler.go:1206-1237 | An answer of success takes a complete event, audio files on disk, and as many tracks as the job came with |
| `Drains.FilesAreDelivered` | internal/api/sabnzbd/handler.go:1206-1237 | A run with a complete event, files on disk and no error succeeds exactly when the album is not short |
| `Drains.OwnCountStays` | internal/api/sabnzbd/handler.go:1173-1180 | A job's own track count stays whatever the backend reports |
| `Drains.FirstCountWins` | internal/api/sabnzbd/handler.go:1173-1180 | A job without a track count gets the first one reported, and none if none is |
| `SearchFilter.FilterResults` | internal/indexer/spotify.go:60-97 | The two loops compute the specified filter |
| `SearchFilter.StaysIff` | internal/indexer/spotify.go:60-97 | A hit stays if and only if it is among the results, answers the query, and is an album or shares first artist and album with none that does |
| `SearchFilter.MatchesMeans` | internal/indexer/spotify.go:60-81 | What it takes to answer a query, in letters and digits: an album is named, and each of the wanted artist and album that is not blank is met |
| `SearchFilter.KeepsInOrder` | internal/indexer/spotify.go:147-167 | The letters and digits of a text are those of its parts, in order |
| `SearchFilter.KeepsOne` | internal/indexer/spotify.go:147-167 | A single character is kept exactly when it is a letter or a digit |
| `SearchFilter.EntityMeans` | internal/spotiflac/progress.go:59-85 | A hit is what it is reported to be, and otherwise what its URL points at, an album before a track |
| `SearchFilter.ContainsMeans` | internal/indexer/spotify.go:60-81 | To contain a text is to be something, that text, and something |
| `SearchFilter.FilteredPositions` | internal/indexer/spotify.go:60-97 | The result is an order-preserving selection of positions: exactly those of kept hits, each once |
| `SearchFilter.AlbumsWinTheirRelease` | internal/indexer/spotify.go:82-95 | Every matching album stays; a matching track goes exactly when a matching album has its release key |
| `SearchFilter.FilterIsIdempotent` | internal/indexer/spotify.go:60-97 | Filtering the filtered list changes nothing |
| `SearchFilter.CreditsArtist` | internal/indexer/spotify.go:104-114 | True exactly when one comma-separated credit, or all of them together, is the wanted artist in full |
| `SearchFilter.SplitJoins` | internal/indexer/spotify.go:108-112 | Splitting credits loses nothing and leaves no comma inside one |
| `SearchFilter.KeysEqualIffPartsEqual` | internal/indexer/spotify.go:119-122 | Two release keys are equal if and only if both normalised parts are, because the separator occurs in no normalised name |
| `Decimal.ParseFormatRoundTrip` | internal/indexer/nzb.go:98-103 | Printing then parsing is the identity on every 64-bit integer, both ends included |
| `Decimal.SignMeansNegative` | internal/indexer/nzb.go:98-103 | A sign is printed for negative numbers alone |
| `Decimal.ParsedInRange` | internal/indexer/nzb.go:152-165 | Every natural number, signed or not, is read as itself or as the nearest end of the range, with an error exactly in that case |
| `Decimal.NotANumber` | internal/indexer/nzb.go:152-165 | What is not a number is read as 0, with a syntax error |
| `Nzb.LastValueIsLast` | internal/indexer/nzb.go:152-165 | Of several entries of a kind the last one counts |
| `Nzb.GenerateNZBRelease` | internal/indexer/nzb.go:92-131 | The text printed is the specified document of the release |
| `Nzb.DocumentCarries` | internal/indexer/nzb.go:92-131 | The rest of the document: subject, date and a segment as long as the release or one byte; no size or track count that is not positive is written |
| `Nzb.ParseNZBMeta` | internal/indexer/nzb.go:146-170 | The loop over the head computes the specified result, with unparsable numbers as strconv leaves them and an error without a Spotify URL |
| `Nzb.ReleaseRoundTrip` | internal/indexer/nzb.go:92-170 | Parsing a printed release gives back URL, name and category, size and track count when positive and 0 otherwise; it fails exactly when the URL is empty |
| `Nzb.PrintingIsInjective` | internal/indexer/nzb.go:92-131 | Releases of non-negative size and track count whose printed texts are equal are equal |

## Left out

- Error texts and the regular expressions over them: an error is what the patterns find in it
  (`UpstreamBreak.Findings`), and prefixes such as the budget's keep that, because the patterns are unanchored.
- Handler.Handler.HandleProgressEvent: does not state percentages, byte counts and display names, which
  are floats and formatting.
- Handler.Handler.AttemptDownload: does not model processes or the deadline arithmetic of a context; files
  on disk are an arbitrary count or a failure to count. Cleaning and remaking the job's directory before a
  retry or a fallback is not modelled: its failure is only logged.
- Dispatch.ReachableInv: the protocol is a state machine on values, because its steps interleave; update
  in place is modelled in `Handler`, where one worker's dispatch of its own job is the re-run flag.
- Handler.Handler.RunJob: a caller's ask is taken where the flag is next read, which is all the worker can
  see of it; the races of an ask with the end of the worker are in `Dispatch`.
- JobTable.SQLiteQueue.Retry: the cancel, the cleared requeue counter and the dispatch around the two writes
  are those of `Handler` and `Dispatch`.
- JobTable.SQLiteQueue.Update: columns the engine never looks at (category, priority, paths, quality) are not in the row.
- SearchFilter.FilterResults: Unicode folding and the letter and digit classes are parameters; the separator
  is assumed to be neither a letter nor a digit.
- Nzb.ReleaseRoundTrip: the XML codec is a parameter assumed to give back the document it printed.
- Concurrent pause, resume, retry and delete on a job mid-pass: the code keeps no invariant there to state.
- Startup dispatch of queued jobs, the running map with its cancel functions, community-session renewal,
  stray-browser reaping, HTTP routing and response shapes, metrics and logging: no further logic of the engine.
- Network probing, the Python wrapper, subprocess handling, API keys and allowlists: foreign processes and I/O.
