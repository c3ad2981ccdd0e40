/** One pass over a job (internal/api/sabnzbd/handler.go): parking, taking a slot, the
primary's attempts, the fallback chain, and what becomes of the job.

The handler is seen by one worker. Every other worker, the clock and the job's context act
inside `Watch`, which stands before every look at shared state: it may make any calls on the
breaker, the gate and the board, let time pass and end the context. Calls this worker makes
carry its own tag `me` in the ghost histories. Only waits take time. */
module Handler {
  import opened UpstreamBreak
  import opened Failure
  import opened Pass
  import opened JobTable
  import B = Breaker
  import opened Verdict
  import D = Drains
  import opened ParkBoard

  const SECOND: nat := 1_000_000_000
  const MAX_CIRCUIT_PARK: nat := 45 * 60 * SECOND
  const CIRCUIT_PARK_POLL: nat := 15 * SECOND
  const RETRY_BACKOFF: seq<nat> := [5 * SECOND, 15 * SECOND]

  /** A *queue.Job: the worker's own copy of its row, changed in place. */
  class JobPtr {
    var rec: Job

    constructor (rec: Job)
      ensures this.rec == rec
    {
      this.rec := rec;
    }
  }

  /** How one wait for a slot ended. */
  datatype SlotEnd = WaitGivenUp | SlotTaken | SlotReturned

  /** Why parkForOpenCircuits returned. */
  datatype ParkEnd = WaitCancelled | NoCandidates | Admitted | Capped

  /** How the walk over the fallback chain goes on after one service. */
  datatype Walk = NextService | ChainEnds | Delivered

  class Handler {
    const breaker: B.Breaker
    const breakGate: UpstreamBreakGate
    const board: Board
    const queue: SQLiteQueue
    const fallbackServices: seq<string>
    /** The services this deployment can serve (client.SupportsService). */
    const supported: set<string>
    /** Half of a job's wall-clock budget; there is none when it is not positive. */
    const jobTimeout: int
    /** By how much a sleep may overshoot. */
    const slack: nat
    ghost const me: nat

    var requeues: map<string, nat>
    var now: int
    var ctx: Ctx
    /** The end of the job's wall-clock budget, while it runs. */
    var deadline: Option<int>
    /** Whether this worker holds a slot. */
    var holding: bool
    /** The worker's own re-run flag. */
    var rerun: bool
    /** The parks this worker has shown, as the board has them. */
    ghost var published: seq<CircuitPark>
    /** Whether this worker is parked, as the board has it. */
    ghost var onBoard: bool
    /** How many more calls other workers, and asks callers, will make: any finite number. */
    var othersLeft: nat
    /** The backend runs so far, as the backend made them. */
    ghost var invocations: seq<D.BackendRun>
    /** The services this worker has reported to the breaker, as its history has them. */
    ghost var failures: seq<string>
    /** What the storage has answered so far: whether it made a job's directory. */
    ghost var dirs: seq<bool>
    /** What the breaker has told this worker, as its history has it. */
    ghost var answers: seq<B.Answer>
    /** The pauses this worker has announced to the gate, as its log has them. */
    ghost var pauses: seq<int>

    constructor (breaker: B.Breaker, breakGate: UpstreamBreakGate, board: Board, queue: SQLiteQueue,
                 fallbackServices: seq<string>, supported: set<string>, jobTimeout: int, now: int, slack: nat,
                 othersLeft: nat, ghost me: nat)
      requires breaker.Valid() && breakGate.Valid() && board.Valid() && me !in Parked(board.steps)
      requires breaker.clock <= now && breaker.cooldown <= MAX_CIRCUIT_PARK
      ensures Valid() && !holding && !onBoard && !rerun && requeues == map[] && ctx == Alive
    {
      this.breaker, this.breakGate, this.board, this.queue := breaker, breakGate, board, queue;
      this.fallbackServices, this.supported, this.jobTimeout := fallbackServices, supported, jobTimeout;
      this.now, this.slack, this.othersLeft, this.me := now, slack, othersLeft, me;
      requeues := map[];
      ctx, deadline, holding, rerun := Alive, None, false, false;
      published, onBoard := ShownBy(board.steps, me), false;
      invocations, dirs := [], [];
      failures := breaker.Reported(me);
      answers := breaker.Told(me);
      pauses := breakGate.AnnouncedBy(me);
    }

    /** The shared objects are sound, and the worker's own records agree with their histories. Most
    methods only hand this on: it is behind a trigger, and unfolds where `Intact` is named. */
    ghost predicate Valid()
      reads this`now, this`failures, this`answers, this`pauses, this`published, this`onBoard
      reads breaker, breakGate, board
    {
      breaker.threshold >= 1 && forall h: Handler {:trigger h.Intact()} | h == this :: h.Intact()
    }

    ghost predicate Intact()
      reads this`now, this`failures, this`answers, this`pauses, this`published, this`onBoard
      reads breaker, breakGate, board
    {
      && breaker.Valid() && breakGate.Valid() && BoardKept()
      && breaker.clock <= now && breaker.cooldown <= MAX_CIRCUIT_PARK
      && failures == breaker.Reported(me) && answers == breaker.Told(me) && pauses == breakGate.AnnouncedBy(me)
    }

    /** What this worker knows of its own parks is what the board has. */
    ghost predicate BoardKept()
      reads this`published, this`onBoard, board
    {
      && board.Valid()
      && published == ShownBy(board.steps, me) && (onBoard <==> me in Parked(board.steps))
    }

    /** What this worker knows of its own calls is what the shared histories have. */
    lemma RecordsAgree()
      requires Valid()
      ensures breaker.Valid() && breakGate.Valid() && board.Valid() && breaker.clock <= now
      ensures failures == breaker.Reported(me) && answers == breaker.Told(me)
      ensures pauses == breakGate.AnnouncedBy(me)
      ensures published == ShownBy(board.steps, me) && (onBoard <==> me in Parked(board.steps))
    {
      assert Intact();
    }

    ghost function Park(): int {
      breakGate.rateLimitPark
    }

    ghost function Requeues(nzoId: string): nat
      reads this`requeues
    {
      if nzoId in requeues then requeues[nzoId] else 0
    }

    ghost function Site(): Deployment {
      Deployment(fallbackServices, supported, Park(), queue.healthy)
    }

    ghost function Chain(service: string): seq<string> {
      ChainOf(fallbackServices, service, supported)
    }

    ghost function Candidates(service: string): seq<string> {
      CandidatesOf(fallbackServices, service, supported)
    }

    ghost predicate Admits(services: seq<string>)
      requires breaker.threshold >= 1
      reads this`now, breaker
    {
      exists s :: s in services && !breaker.Open(s, now)
    }

    /** The job's row is in the queue. */
    ghost predicate Active(job: JobPtr)
      reads job, queue
    {
      && job.rec.nzoId in queue.rows
      && var r := queue.rows[job.rec.nzoId];
         && !r.isHistory && r.job.id == job.rec.id && r.job.timeAdded == job.rec.timeAdded
         && r.job.nzoId == job.rec.nzoId && r.job.recoverCount == job.rec.recoverCount
    }

    /** Time and announcements only go forward, a dead context stays dead, and it expires only
    at its deadline. */
    twostate predicate Forward()
      reads this`now, this`ctx, this`deadline, this`othersLeft, breakGate
    {
      && old(now) <= now && othersLeft <= old(othersLeft)
      && (old(ctx) != Alive ==> ctx == old(ctx))
      && (ctx == Expired && old(ctx) != Expired ==> deadline.Some? && deadline.value <= now)
      && old(breakGate.until) <= breakGate.until
    }

    /** Nothing but other workers, the clock and the context acted. */
    twostate predicate OnlyOthers()
      reads this`now, this`ctx, this`deadline, this`othersLeft, breaker, breakGate
    {
      && Forward()
      && (othersLeft == old(othersLeft) ==>
          breaker.history == old(breaker.history) && breaker.clock == old(breaker.clock)
              && breakGate.until == old(breakGate.until))
    }

    // ---------- What a pass leaves behind ----------

    ghost function Now(job: JobPtr): View
      reads this`now, this`ctx, this`requeues, this`rerun, this`failures, this`answers, this`pauses, this`invocations
      reads job, queue, breakGate
    {
      var id := job.rec.nzoId;
      View(job.rec, if id in queue.rows then Some(queue.rows[id]) else None,
        if id in requeues then Some(requeues[id]) else None, ctx, rerun, failures, answers, pauses, invocations,
            breakGate.until, now)
    }

    // ---------- The rest of the world ----------

    /** At most `hi` passes, while others act. */
    method Elapse(hi: nat)
      requires Valid()
      modifies this`now, this`ctx, this`othersLeft, board, breaker, breakGate
      ensures Valid() && OnlyOthers() && now <= old(now) + hi
    {
      Watch(0, hi, true);
    }

    /** At least `lo` and at most `hi` passes, less than `lo` only in a wait that ends with the
    context. */
    method Watch(lo: nat, hi: nat, early: bool)
      requires Valid() && lo <= hi
      modifies this`now, this`ctx, this`othersLeft, board, breaker, breakGate
      ensures Valid() && OnlyOthers() && Grown(old(breakGate.log), breakGate.log, old(now))
      ensures now <= old(now) + hi && (!early || ctx == Alive ==> now >= old(now) + lo)
    {
      var end: Ctx := *;
      assert 0 <= hi;
      var t: nat :| t <= hi;
      if t < lo && !early {
        t := lo;
      }
      if ctx != Alive || (end.Expired? && !(deadline.Some? && deadline.value <= now + t)) {
        end := ctx;
      }
      if end == Alive && t < lo {
        t := lo;
      }
      var calls: nat :| calls <= othersLeft;
      OthersAct(now + t, calls);
      ctx := end;
    }

    /** So many calls of other workers, until then. */
    method OthersAct(until: int, calls: nat)
      requires Valid() && now <= until && calls <= othersLeft
      modifies this`now, this`othersLeft, board, breaker, breakGate
      ensures Valid() && OnlyOthers() && Grown(old(breakGate.log), breakGate.log, old(now))
      ensures now == until
    {
      for i := 0 to calls
        invariant Valid() && OnlyOthers() && now <= until && othersLeft == old(othersLeft) - i
        invariant Grown(old(breakGate.log), breakGate.log, old(now))
      {
        assert Intact() && now + 0 <= until;
        var pause: nat :| now + pause <= until;
        now := now + pause;
        ghost var log := breakGate.log;
        OtherWorkerCalls();
        GrownOn(old(breakGate.log), log, breakGate.log, old(now), now);
        othersLeft := othersLeft - 1;
      }
      assert Intact();
      now := until;
    }

    /** One call of another worker on the breaker, the gate or the board. */
    method OtherWorkerCalls()
      requires Valid()
      modifies board, breaker, breakGate
      ensures Valid()
      ensures old(breakGate.until) <= breakGate.until && Grown(old(breakGate.log), breakGate.log, old(now))
    {
      assert Intact();
      ghost var other: nat := *;
      if other == me {
        other := me + 1;
      }
      var which: int := *;
      if which == 0 {
        OtherCallsBreaker(other);
      } else if which == 1 {
        OtherCallsBoard(other);
      } else {
        OtherCallsGate(other);
      }
    }

    /** Another worker shows its park, and may be done with it then. */
    method OtherCallsBoard(ghost other: nat)
      requires BoardKept() && other != me
      modifies board
      ensures BoardKept()
    {
      var services: seq<string>, until: int, done: bool := *, *, *;
      StepMore(board.steps, Begin(other, CircuitPark(services, until)));
      board.Show(CircuitPark(services, until), other);
      if done {
        StepMore(board.steps, End(other));
        board.Clear(other);
      }
    }

    method OtherCallsGate(ghost other: nat)
      requires breakGate.Valid() && other != me
      modifies breakGate
      ensures breakGate.Valid() && breakGate.AnnouncedBy(me) == old(breakGate.AnnouncedBy(me))
      ensures old(breakGate.until) <= breakGate.until && Grown(old(breakGate.log), breakGate.log, now)
    {
      var d: int := *;
      var moved := breakGate.Extend(d, now, other);
    }

    method OtherCallsBreaker(ghost other: nat)
      requires breaker.Valid() && breaker.clock <= now && other != me
      modifies breaker
      ensures breaker.Valid() && breaker.clock <= now
      ensures breaker.Reported(me) == old(breaker.Reported(me)) && breaker.Told(me) == old(breaker.Told(me))
    {
      var key: string := *;
      var op: B.Op := *;
      match op
      case Allow =>
        var allowed := breaker.Allow(key, now, other);
      case RecordFailure =>
        breaker.RecordFailure(key, now, other);
      case RecordSuccess =>
        breaker.RecordSuccess(key, now, other);
      case Reset =>
        breaker.Reset(key, now, other);
    }

    // ---------- The row ----------

    method Save(job: JobPtr) returns (ok: bool)
      requires Active(job)
      modifies queue
      ensures Active(job) && OtherRowsKept(old(queue.rows), queue.rows, job.rec.nzoId)
      ensures queue.healthy ==> ok
      ensures ok ==> queue.rows[job.rec.nzoId] == Row(job.rec, false)
      ensures !ok ==> queue.rows == old(queue.rows)
    {
      ok := queue.Update(job.rec);
    }

    method Archive(job: JobPtr)
      requires Active(job)
      modifies queue
      ensures OtherRowsKept(old(queue.rows), queue.rows, job.rec.nzoId)
      ensures queue.healthy ==> queue.rows[job.rec.nzoId] == Row(job.rec, true)
    {
      var saved := queue.Update(job.rec);
      var moved := queue.MoveToHistory(job.rec.nzoId);
    }

    // ---------- Requeueing ----------

    method BumpRequeue(nzoId: string) returns (n: nat)
      modifies this`requeues
      ensures requeues == old(requeues)[nzoId := n] && n == old(Requeues(nzoId)) + 1
    {
      n := (if nzoId in requeues then requeues[nzoId] else 0) + 1;
      requeues := requeues[nzoId := n];
    }

    method ClearRequeues(nzoId: string)
      modifies this`requeues
      ensures requeues == old(requeues) - {nzoId}
    {
      requeues := requeues - {nzoId};
    }

    /** The dispatch a worker makes for its own job: it finds its own registration and asks
    itself to run again. */
    method DispatchJob()
      modifies this`rerun
      ensures rerun
    {
      rerun := true;
    }

    method RequeueUnattempted(job: JobPtr) returns (requeued: bool)
      requires Active(job)
      modifies this`requeues, this`rerun, job, queue
      ensures Active(job) && OtherRowsKept(old(queue.rows), queue.rows, job.rec.nzoId)
      ensures job.rec.nzoId == old(job.rec.nzoId) && job.rec.service == old(job.rec.service)
      ensures Requeues(job.rec.nzoId) == old(Requeues(job.rec.nzoId)) + 1
      ensures OtherCountersKept(old(requeues), requeues, job.rec.nzoId)
      ensures requeued ==> old(Requeues(job.rec.nzoId)) < MAX_UNATTEMPTED_REQUEUES
      ensures queue.healthy && old(Requeues(job.rec.nzoId)) < MAX_UNATTEMPTED_REQUEUES ==> requeued
      ensures requeued ==> Requeued(Now(job), old(Requeues(job.rec.nzoId))) && job.rec == AsQueued(old(job.rec))
      ensures !requeued ==> rerun == old(rerun)
    {
      var n := BumpRequeue(job.rec.nzoId);
      if n > MAX_UNATTEMPTED_REQUEUES {
        return false;
      }
      job.rec := job.rec.(status := Queued, errorMessage := NoError, percentage := 0,
        completedAt := None, startedAt := None);
      var ok := Save(job);
      if !ok {
        return false;
      }
      DispatchJob();
      return true;
    }

    method RequeueAfterCooldown(job: JobPtr, lastErr: ErrMsg) returns (requeued: bool, giveUp: Option<ErrMsg>)
      requires Active(job)
      modifies this`requeues, this`rerun, job, queue
      ensures Active(job) && OtherRowsKept(old(queue.rows), queue.rows, job.rec.nzoId)
      ensures job.rec.nzoId == old(job.rec.nzoId) && job.rec.service == old(job.rec.service)
      ensures Requeues(job.rec.nzoId) == old(Requeues(job.rec.nzoId)) + 1
      ensures OtherCountersKept(old(requeues), requeues, job.rec.nzoId)
      ensures requeued ==> old(Requeues(job.rec.nzoId)) < MAX_COOLDOWN_REQUEUES
      ensures queue.healthy && old(Requeues(job.rec.nzoId)) < MAX_COOLDOWN_REQUEUES ==> requeued
      ensures !requeued ==> rerun == old(rerun)
      ensures requeued ==> Requeued(Now(job), old(Requeues(job.rec.nzoId))) && job.rec == AsQueued(old(job.rec))
      ensures giveUp == if old(Requeues(job.rec.nzoId)) >= MAX_COOLDOWN_REQUEUES
                        then Some(GaveUp(old(Requeues(job.rec.nzoId)), lastErr)) else None
    {
      var n := BumpRequeue(job.rec.nzoId);
      if n > MAX_COOLDOWN_REQUEUES {
        return false, Some(GaveUp(n - 1, lastErr));
      }
      job.rec := job.rec.(status := Queued, errorMessage := NoError, percentage := 0,
        completedAt := None, startedAt := None);
      var ok := Save(job);
      if !ok {
        return false, None;
      }
      DispatchJob();
      return true, None;
    }

    method FailJob(job: JobPtr, msg: ErrMsg)
      requires Active(job)
      modifies this`requeues, job, queue
      ensures OtherRowsKept(old(queue.rows), queue.rows, job.rec.nzoId)
      ensures OtherCountersKept(old(requeues), requeues, job.rec.nzoId)
      ensures NowFailed(Site(), Now(job))
      ensures job.rec == old(job.rec).(status := Failed, errorMessage := Reason(msg), completedAt := Some(now))
    {
      ClearRequeues(job.rec.nzoId);
      job.rec := job.rec.(status := Failed, errorMessage := Reason(msg), completedAt := Some(now));
      Archive(job);
    }

    // ---------- One backend run ----------

    /** The parts of a run the engine looks at. */
    method RunBackend(service: string)
      returns (events: seq<D.ProgressEvent>, errs: seq<Option<D.BackendError>>, pick: nat -> bool, onDisk: Option<nat>)
      requires Valid()
      modifies this`now, this`ctx, this`othersLeft, this`invocations, board, breaker, breakGate
      ensures Valid() && OnlyOthers()
      ensures invocations == old(invocations) + [D.BackendRun(service, events, errs, onDisk)]
    {
      var longest: int := *;
      Elapse(if longest < 0 then 0 else longest);
      events, errs, onDisk := *, *, *;
      invocations := invocations + [D.BackendRun(service, events, errs, onDisk)];
      var choices: seq<bool> := *;
      pick := (i: nat) => i < |choices| && choices[i];
    }

    /** A progress or metadata event, as far as it changes the row: the time of the last
    movement, and the track count of a job that came without one. */
    method HandleProgressEvent(job: JobPtr, evt: D.ProgressEvent)
      requires Active(job)
      modifies job, queue
      ensures Active(job) && OtherRowsKept(old(queue.rows), queue.rows, job.rec.nzoId)
      ensures job.rec == old(job.rec).(trackCount := job.rec.trackCount, progressAt := job.rec.progressAt)
      ensures job.rec.trackCount == D.TrackCountAfter([evt], old(job.rec.trackCount))
      ensures queue.healthy && (evt.kind.Progress? || evt.kind.Metadata?) ==>
                job.rec.progressAt == Some(now) && queue.rows[job.rec.nzoId] == Row(job.rec, false)
    {
      match evt.kind {
        case Progress =>
          job.rec := job.rec.(progressAt := Some(now));
          var ok := Save(job);
        case Metadata =>
          if job.rec.trackCount == 0 && evt.trackCount > 0 {
            job.rec := job.rec.(trackCount := evt.trackCount);
          }
          job.rec := job.rec.(progressAt := Some(now));
          var ok := Save(job);
        case _ =>
      }
    }

    method HandleProgressEvents(job: JobPtr, handled: seq<D.ProgressEvent>)
      requires Active(job)
      modifies job, queue
      ensures Active(job) && OtherRowsKept(old(queue.rows), queue.rows, job.rec.nzoId)
      ensures job.rec == old(job.rec).(trackCount := D.TrackCountAfter(handled, old(job.rec.trackCount)),
          progressAt := job.rec.progressAt)
    {
      for i := 0 to |handled|
        invariant Active(job) && OtherRowsKept(old(queue.rows), queue.rows, job.rec.nzoId)
        invariant job.rec == old(job.rec).(trackCount := D.TrackCountAfter(handled[..i], old(job.rec.trackCount)),
            progressAt := job.rec.progressAt)
      {
        assert handled[..i + 1][..i] == handled[..i];
        HandleProgressEvent(job, handled[i]);
      }
      assert handled[..|handled|] == handled;
    }

    /** A complete event is believed only with files on disk, and not for a short album. */
    method HandleCompleteEvent(job: JobPtr, evt: D.ProgressEvent, onDisk: Option<nat>) returns (err: Option<ErrMsg>)
      requires Valid() && Active(job)
      modifies this`requeues, job, queue, breaker
      ensures Valid() && OtherRowsKept(old(queue.rows), queue.rows, job.rec.nzoId)
      ensures err.None? <==>
                && onDisk.Some? && onDisk.value > 0
                && (old(job.rec.trackCount) > 0 ==>
                      (if evt.trackCount == 0 then onDisk.value else evt.trackCount) >= old(job.rec.trackCount))
      ensures err.Some? ==>
                && unchanged(this) && unchanged(job) && unchanged(queue) && unchanged(breaker)
                && Found(err.value) == NOTHING
      ensures err == D.Judged(evt, onDisk, old(job.rec.trackCount))
      ensures onDisk.None? ==> err == Some(Unverifiable)
      ensures onDisk == Some(0) ==> err == Some(NoAudio)
      ensures err.None? ==>
                && job.rec == old(job.rec).(status := Completed, percentage := 100, size := evt.size, sizeleft := 0,
                completedAt := Some(now))
                && requeues == old(requeues) - {job.rec.nzoId}
                && (queue.healthy ==> queue.rows[job.rec.nzoId] == Row(job.rec, true))
                && breaker.history == old(breaker.history) + [B.Call(now, job.rec.service, B.Op.RecordSuccess, me)]
    {
      assert Intact();
      if onDisk.None? {
        return Some(Unverifiable);
      }
      if onDisk.value == 0 {
        return Some(NoAudio);
      }
      if job.rec.trackCount > 0 {
        var got := evt.trackCount;
        if got == 0 {
          got := onDisk.value;
        }
        if got < job.rec.trackCount {
          return Some(PartialAlbum(got, job.rec.trackCount));
        }
      }
      breaker.RecordSuccess(job.rec.service, now, me);
      ClearRequeues(job.rec.nzoId);
      job.rec := job.rec.(status := Completed, percentage := 100, size := evt.size, sizeleft := 0,
        completedAt := Some(now));
      Archive(job);
      return None;
    }

    /** The job is where it was but for its progress columns. */
    ghost predicate StillRunning(job: JobPtr, nzoId: string, service: string, counters: map<string, nat>, rows: Table)
      reads this`requeues, job, queue
    {
      && Active(job) && job.rec.nzoId == nzoId && job.rec.service == service
      && requeues == counters && OtherRowsKept(rows, queue.rows, nzoId)
    }

    /** The job is in the history as Completed, its requeue counter gone. */
    ghost predicate NowCompleted(job: JobPtr, nzoId: string, service: string, counters: map<string, nat>, rows: Table)
      reads this`requeues, job, queue
    {
      && job.rec.nzoId == nzoId && job.rec.service == service
      && requeues == counters - {nzoId} && OtherRowsKept(rows, queue.rows, nzoId)
      && nzoId in queue.rows && AsDone(job.rec)
      && (queue.healthy ==> queue.rows[nzoId] == Row(job.rec, true))
    }

    /** Where a run leaves the job: completed if it delivered, and for the caller otherwise. */
    ghost predicate AfterRun(job: JobPtr, delivered: bool, nzoId: string, service: string,
                             counters: map<string, nat>, rows: Table)
      reads this`requeues, job, queue
    {
      if delivered then NowCompleted(job, nzoId, service, counters, rows)
      else StillRunning(job, nzoId, service, counters, rows)
    }

    /** The raw output of a backend error stays with the job, in memory. */
    method KeepRawOutput(job: JobPtr, e: D.BackendError)
      modifies job
      ensures job.rec == old(job.rec).(cliOutput := if e.rawOutput.Some? then e.rawOutput else old(job.rec.cliOutput))
    {
      if e.rawOutput.Some? {
        job.rec := job.rec.(cliOutput := e.rawOutput);
      }
    }

    /** One invocation: nothing on success, with the job completed and in the history; the
    error otherwise, with the job left for the caller. */
    method AttemptDownload(job: JobPtr)
      returns (err: Reply, ghost run: D.BackendRun, ghost r: D.Drained, ghost handled: seq<D.ProgressEvent>)
      requires Valid() && Active(job)
      modifies this`now, this`ctx, this`othersLeft, this`invocations, this`requeues, board, breaker, breakGate,
          job, queue
      ensures Valid() && Forward() && invocations == old(invocations) + [run] && run.service == old(job.rec.service)
      // the answer is what the run's channels and files make it
      ensures D.DrainedFrom(run.events, run.errs, r, handled)
      ensures r.GotError? ==> err == Some(r.err.msg)
      ensures r.GotError? ==>
                job.rec.cliOutput == if r.err.rawOutput.Some? then r.err.rawOutput else old(job.rec.cliOutput)
      ensures r.NoCompletionSignal? ==> err == Some(NoSignal)
      ensures r.SawComplete? ==> err == D.Judged(r.evt, run.onDisk, D.TrackCountAfter(handled, old(job.rec.trackCount)))
      ensures err == D.Answered(run, r, handled, old(job.rec.trackCount))
      ensures !r.GotError? ==> job.rec.cliOutput == old(job.rec.cliOutput)
      ensures err.Some? ==> job.rec.trackCount == D.TrackCountAfter(handled, old(job.rec.trackCount))
      ensures AfterRun(job, err.None?, old(job.rec.nzoId), old(job.rec.service), old(requeues), old(queue.rows))
    {
      var events, errs, pick, onDisk := RunBackend(job.rec.service);
      run := D.BackendRun(job.rec.service, events, errs, onDisk);
      var drained, progress := D.DrainAttempt(events, errs, pick);
      r, handled := drained, progress;
      HandleProgressEvents(job, progress);
      match drained
      case SawComplete(evt) =>
        err := HandleCompleteEvent(job, evt, onDisk);
      case GotError(e) =>
        KeepRawOutput(job, e);
        err := Some(e.msg);
      case NoCompletionSignal =>
        err := Some(NoSignal);
    }

    // ---------- Attempts ----------

    method ClassifyFailure(e: ErrMsg) returns (kind: FailureClass, cooldown: int)
      ensures (kind, cooldown) == Classify(e, Park())
    {
      var d := breakGate.CooldownFor(Found(e));
      if d.Some? {
        return UpstreamCooldown, d.value;
      }
      if Found(e).permanent {
        return Permanent, 0;
      }
      return Retryable, 0;
    }

    method ShouldRetryNow(e: ErrMsg) returns (retry: bool)
      ensures retry == ShouldRetry(e, Park())
    {
      var kind, d := ClassifyFailure(e);
      return kind == Retryable && !Found(e).noRetry;
    }

    /** A look at the context and, if it is alive, one invocation. */
    method TryOnce(job: JobPtr) returns (ran: bool, err: Reply, ghost run: D.BackendRun)
      requires Valid() && Active(job)
      modifies this`now, this`ctx, this`othersLeft, this`invocations, this`requeues, board, breaker, breakGate,
          job, queue
      ensures Valid() && Forward() && invocations == if ran then old(invocations) + [run] else old(invocations)
      ensures ran ==> run.service == old(job.rec.service) && D.Heard(run, err)
      ensures !ran ==> ctx != Alive && err == Some(Canceled)
      ensures old(ctx) != Alive ==> !ran
      ensures AfterRun(job, err.None?, old(job.rec.nzoId), old(job.rec.service), old(requeues), old(queue.rows))
    {
      Elapse(0);
      if ctx != Alive {
        return false, Some(Canceled), D.BackendRun("", [], [], None);
      }
      ghost var drained, handled;
      ghost var tracks := job.rec.trackCount;
      err, run, drained, handled := AttemptDownload(job);
      ran := true;
      assert D.HeardWith(run, err, tracks);
    }

    /** One turn of the retry loop: try, and back off if another try is worth making. */
    method TryAndBackOff(job: JobPtr, attempt: nat, attempts: nat)
      returns (ran: bool, err: Reply, again: bool, ghost run: D.BackendRun)
      requires Valid() && Active(job) && 1 <= attempt <= attempts <= MAX_ATTEMPTS
      modifies this`now, this`ctx, this`othersLeft, this`invocations, this`requeues, board, breaker, breakGate,
          job, queue
      ensures Valid() && Forward() && invocations == if ran then old(invocations) + [run] else old(invocations)
      ensures ran ==> run.service == old(job.rec.service) && D.Heard(run, err)
      ensures !ran ==> ctx != Alive && err == Some(Canceled)
      ensures old(ctx) != Alive ==> !ran
      ensures AfterRun(job, err.None?, old(job.rec.nzoId), old(job.rec.service), old(requeues), old(queue.rows))
      ensures again <==> ran && attempt < attempts && RetryWorthy(err, Park())
      ensures again ==> now >= old(now) + RETRY_BACKOFF[attempt - 1]
    {
      ran, err, run := TryOnce(job);
      again := false;
      if ran && err.Some? && attempt < attempts {
        again := ShouldRetryNow(err.value);
        if again {
          Watch(RETRY_BACKOFF[attempt - 1], RETRY_BACKOFF[attempt - 1] + slack, false);
        }
      }
    }

    method RunAttemptsWithRetry(job: JobPtr, attempts: nat)
      returns (lastErr: Option<ErrMsg>, attempted: bool, ghost replies: seq<Reply>, ghost lapsed: bool,
               ghost runs: seq<D.BackendRun>)
      requires Valid() && Active(job) && 1 <= attempts <= MAX_ATTEMPTS
      modifies this`now, this`ctx, this`othersLeft, this`invocations, this`requeues, board, breaker, breakGate,
          job, queue
      ensures Valid() && Forward() && invocations == old(invocations) + runs
      ensures RunsHeard(old(job.rec.service), runs, replies)
      ensures GoodRun(replies, lapsed, attempts, Park())
      ensures lastErr == ErrorOf(replies, lapsed) && (attempted <==> replies != [])
      ensures lapsed ==> ctx != Alive
      ensures old(ctx) != Alive ==> replies == []
      ensures AfterRun(job, lastErr.None?, old(job.rec.nzoId), old(job.rec.service), old(requeues), old(queue.rows))
    {
      lastErr, attempted, replies, lapsed, runs := None, false, [], false, [];
      var attempt := 1;
      while true
        invariant Valid() && Forward() && invocations == old(invocations) + runs
        invariant RunsHeard(old(job.rec.service), runs, replies)
        invariant StillRunning(job, old(job.rec.nzoId), old(job.rec.service), old(requeues), old(queue.rows))
        invariant |replies| == attempt - 1 && !lapsed && (attempted <==> replies != [])
        invariant AllRetried(replies, Park())
        invariant 1 <= attempt <= attempts
        invariant old(ctx) != Alive ==> replies == []
        decreases attempts - attempt
      {
        var ran, err, again;
        ghost var run;
        ran, err, again, run := TryAndBackOff(job, attempt, attempts);
        RunEnds(replies, err, attempts, Park());
        if !ran {
          lapsed := true;
          return Some(Canceled), attempted, replies, lapsed, runs;
        }
        attempted := true;
        Assoc(old(invocations), runs, [run]);
        HeardMore(old(job.rec.service), runs, replies, run, err);
        replies, runs := replies + [err], runs + [run];
        lastErr := err;
        if !again {
          return lastErr, attempted, replies, lapsed, runs;
        }
        attempt := attempt + 1;
      }
    }

    // ---------- Weighing an answer ----------

    method AnnouncePause(d: int)
      requires Valid() && d > 0
      modifies breakGate, this`pauses
      ensures Valid()
      ensures breakGate.until == Max(old(breakGate.until), now + d)
      ensures pauses == old(pauses) + [d]
    {
      assert Intact();
      var moved := breakGate.Extend(d, now, me);
      pauses := pauses + [d];
    }

    /** Folds one answer into the outcome; a pause is announced to everybody at once. */
    method Observe(err: ErrMsg, attempted: bool, out: JobOutcome, service: string) returns (stop: bool)
      requires Valid()
      modifies out, breakGate, this`pauses
      ensures Valid()
      ensures stop <==> attempted && Carries(err, Park())
      ensures out.attempted == (old(out.attempted) || attempted)
      ensures out.services == old(out.services) + (if attempted then [service] else [])
      ensures out.permanent == if attempted then Classify(err, Park()).0 == Permanent else old(out.permanent)
      ensures !stop ==> out.cooldown == old(out.cooldown) && unchanged(breakGate) && pauses == old(pauses)
      ensures stop ==> var d := CooldownOf(Found(err), Park()).value;
                && out.cooldown == Max(old(out.cooldown), d)
                && breakGate.until == Max(old(breakGate.until), now + d)
                && pauses == old(pauses) + [d]
    {
      if !attempted {
        return false;
      }
      out.attempted := true;
      out.services := out.services + [service];
      var kind, cooldown := ClassifyFailure(err);
      match kind {
        case UpstreamCooldown =>
          AnnouncePause(cooldown);
          if cooldown > out.cooldown {
            out.cooldown := cooldown;
          }
          out.permanent := false;
          return true;
        case Permanent =>
          out.permanent := true;
          return false;
        case Retryable =>
          out.permanent := false;
          return false;
      }
    }

    method RecordServiceFailure(service: string, kind: FailureClass)
      requires Valid()
      modifies breaker, this`failures
      ensures Valid()
      ensures kind == Retryable
          ==> breaker.history == old(breaker.history) + [B.Call(now, service, B.Op.RecordFailure, me)]
      ensures kind != Retryable ==> breaker.history == old(breaker.history)
      ensures failures == if kind == Retryable then old(failures) + [service] else old(failures)
    {
      assert Intact();
      if kind != Retryable {
        return;
      }
      breaker.RecordFailure(service, now, me);
      failures := failures + [service];
    }

    /** The outcome and the reports say what the totals say. */
    ghost predicate Tallied(t: Totals, out: JobOutcome)
      reads this`ctx, this`failures, this`pauses, this`invocations, breakGate, out
    {
      && out.attempted == t.attempted && (out.cooldown > 0 <==> t.cooled) && out.services == t.services
      && Reported(t)
    }

    ghost predicate Reported(t: Totals)
      reads this`ctx, this`failures, this`pauses, this`invocations, breakGate
    {
      && failures == t.failures && pauses == t.pauses && invocations == t.invocations
      && breakGate.until >= t.until && (t.dead ==> ctx != Alive)
    }

    /** A failure is held against the service only while the job itself is alive. */
    method ReportFailure(err: ErrMsg, service: string) returns (ghost live: bool)
      requires Valid()
      modifies this`now, this`ctx, this`othersLeft, this`failures, board, breaker, breakGate
      ensures Valid() && Forward()
      ensures live <==> ctx == Alive
      ensures failures ==
              if live && Classify(err, Park()).0 == Retryable then old(failures) + [service] else old(failures)
    {
      Elapse(0);
      live := ctx == Alive;
      if ctx == Alive {
        var kind, d := ClassifyFailure(err);
        RecordServiceFailure(service, kind);
      }
    }

    /** What both the primary and a fallback do with a run that failed: observe it, and tell
    the breaker only while the context is alive. It adds the visit to the totals. */
    method WeighFailure(err: ErrMsg, attempted: bool, out: JobOutcome, service: string,
                        ghost replies: seq<Reply>, ghost lapsed: bool, ghost runs: seq<D.BackendRun>, ghost t: Totals)
      returns (stop: bool, ghost v: Visit)
      requires Valid()
      requires Some(err) == ErrorOf(replies, lapsed) && (attempted <==> replies != []) && (lapsed ==> ctx != Alive)
      requires Tallied(t.(invocations := t.invocations + runs), out) && !t.cooled
      modifies this`now, this`ctx, this`othersLeft, this`failures, this`pauses, out, board, breaker, breakGate
      ensures Valid() && Forward()
      ensures v.Ran? && v == Ran(service, replies, lapsed, v.live, old(now), runs) && (lapsed ==> !v.live)
      ensures stop <==> Cooled(v, Park())
      ensures Tallied(Add(t, v, Park()), out)
    {
      ghost var at := now;
      stop := Observe(err, attempted, out, service);
      ghost var live := ReportFailure(err, service);
      v := Ran(service, replies, lapsed, live, at, runs);
      FailedRun(v, err, Park());
    }

    /** What an answer to a service's attempts adds: a delivery its calls, a failure its weight. */
    method WeighAnswer(err: Option<ErrMsg>, attempted: bool, out: JobOutcome, service: string,
                       ghost replies: seq<Reply>, ghost lapsed: bool, ghost runs: seq<D.BackendRun>,
                       ghost attempts: nat, ghost t: Totals)
      returns (stop: bool, ghost v: Visit)
      requires Valid() && GoodRun(replies, lapsed, attempts, Park()) && RunsHeard(service, runs, replies)
      requires err == ErrorOf(replies, lapsed) && (attempted <==> replies != []) && (lapsed ==> ctx != Alive)
      requires Tallied(t.(invocations := t.invocations + runs), out) && !t.delivered && !t.cooled
      modifies this`now, this`ctx, this`othersLeft, this`failures, this`pauses, out, board, breaker, breakGate
      ensures Valid() && Forward()
      ensures v.Ran? && v.service == service && v.replies == replies && v.lapsed == lapsed && v.runs == runs
      ensures GoodVisit(v, attempts, Park())
      ensures Reported(Add(t, v, Park())) && (err.None? <==> Succeeded(v)) && (stop <==> Cooled(v, Park()))
      ensures err.Some? ==> Tallied(Add(t, v, Park()), out)
    {
      stop := false;
      if err.None? {
        v := Ran(service, replies, lapsed, true, now, runs);
        DeliveryAdds(t, v, Park());
        return;
      }
      stop, v := WeighFailure(err.value, attempted, out, service, replies, lapsed, runs, t);
    }

    /** A service's attempts, weighed: added to the totals, and to the outcome if they failed. */
    method RunAndWeigh(job: JobPtr, out: JobOutcome, attempts: nat, ghost t: Totals)
      returns (err: Option<ErrMsg>, stop: bool, ghost v: Visit)
      requires Valid() && Active(job) && 1 <= attempts <= MAX_ATTEMPTS
      requires Tallied(t, out) && !t.delivered && !t.cooled
      modifies this`now, this`ctx, this`othersLeft, this`invocations, this`requeues, this`failures, this`pauses
      modifies board, breaker, breakGate, job, queue, out
      ensures Valid() && Forward()
      ensures v.Ran? && v.service == old(job.rec.service) && GoodVisit(v, attempts, Park())
      ensures Reported(Add(t, v, Park())) && (err.None? <==> Succeeded(v)) && (stop <==> Cooled(v, Park()))
      ensures err.Some? ==> Tallied(Add(t, v, Park()), out) && err == ErrorOf(v.replies, v.lapsed)
      ensures AfterRun(job, err.None?, old(job.rec.nzoId), old(job.rec.service), old(requeues), old(queue.rows))
    {
      var svc := job.rec.service;
      var attempted;
      ghost var replies, lapsed, runs;
      err, attempted, replies, lapsed, runs := RunAttemptsWithRetry(job, attempts);
      stop, v := WeighAnswer(err, attempted, out, svc, replies, lapsed, runs, attempts, t);
    }

    // ---------- Services ----------

    method FallbackChain(current: string) returns (chain: seq<string>)
      ensures chain == Chain(current)
    {
      chain := [];
      for i := 0 to |fallbackServices|
        invariant chain == ChainOf(fallbackServices[..i], current, supported)
      {
        assert fallbackServices[..i + 1][..i] == fallbackServices[..i];
        var svc := fallbackServices[i];
        if svc == current {
          continue;
        }
        if svc !in supported {
          continue;
        }
        chain := chain + [svc];
      }
      assert fallbackServices[..|fallbackServices|] == fallbackServices;
    }

    method CandidateServices(job: JobPtr) returns (out: seq<string>)
      ensures out == Candidates(job.rec.service)
    {
      out := [];
      if job.rec.service in supported {
        out := out + [job.rec.service];
      }
      var chain := FallbackChain(job.rec.service);
      out := out + chain;
    }

    /** One circuit, read exactly at that instant. */
    method ReadCircuit(svc: string) returns (d: int)
      requires Valid()
      modifies this`now, this`ctx, this`othersLeft, board, breaker, breakGate
      ensures Valid() && OnlyOthers() && Grown(old(breakGate.log), breakGate.log, old(now)) && now == old(now)
      ensures d >= 0 && (d == 0 <==> !breaker.Open(svc, now))
      ensures d > 0 ==> forall t | now <= t :: breaker.Open(svc, t) <==> t < now + d
    {
      Watch(0, 0, true);
      assert Intact();
      d := breaker.RetryAfter(svc, now);
    }

    /** Each candidate's circuit is read by itself, and the others may act in between. */
    method AnyCandidateAllowed(job: JobPtr) returns (ok: bool)
      requires Valid()
      modifies this`now, this`ctx, this`othersLeft, board, breaker, breakGate
      ensures Valid() && OnlyOthers() && Grown(old(breakGate.log), breakGate.log, old(now)) && now == old(now)
      ensures ok ==> Candidates(job.rec.service) == [] || Admits(Candidates(job.rec.service))
      ensures othersLeft == old(othersLeft) && !ok ==>
                Candidates(job.rec.service) != [] && !Admits(Candidates(job.rec.service))
    {
      var candidates := CandidateServices(job);
      if |candidates| == 0 {
        return true;
      }
      for i := 0 to |candidates|
        invariant Valid() && OnlyOthers() && Grown(old(breakGate.log), breakGate.log, old(now)) && now == old(now)
        invariant othersLeft == old(othersLeft) ==> forall k | 0 <= k < i :: breaker.Open(candidates[k], now)
      {
        ghost var log := breakGate.log;
        var d := ReadCircuit(candidates[i]);
        GrownOn(old(breakGate.log), log, breakGate.log, old(now), old(now));
        if d <= 0 {
          assert candidates[i] in candidates;
          return true;
        }
      }
      return false;
    }

    // ---------- The fallback chain ----------

    /** Asks the breaker, whose answer is exact at that instant. */
    method AskBreaker(svc: string) returns (allowed: bool)
      requires Valid()
      modifies this`now, this`ctx, this`othersLeft, this`answers, board, breaker, breakGate
      ensures Valid() && Forward()
      ensures allowed <==> !breaker.Open(svc, now)
      ensures answers == old(answers) + [B.Answer(svc, allowed)]
    {
      Elapse(0);
      assert Intact();
      allowed := breaker.Allow(svc, now, me);
      answers := answers + [B.Answer(svc, allowed)];
    }

    /** Switches the job to `svc`, in its row too. */
    method SwitchService(job: JobPtr, svc: string)
      requires Active(job)
      modifies job, queue
      ensures Active(job) && OtherRowsKept(old(queue.rows), queue.rows, job.rec.nzoId)
      ensures job.rec == old(job.rec).(service := svc)
      ensures queue.healthy ==> queue.rows[job.rec.nzoId] == Row(job.rec, false)
    {
      job.rec := job.rec.(service := svc);
      var ok := Save(job);
    }

    /** Switches the job to `svc`, gives it one attempt and weighs the answer. */
    method TryFallbackService(job: JobPtr, out: JobOutcome, svc: string, ghost t: Totals)
      returns (err: Option<ErrMsg>, stop: bool, ghost v: Visit)
      requires Valid() && Active(job)
      requires Tallied(t, out) && !t.delivered && !t.cooled
      modifies this`now, this`ctx, this`othersLeft, this`invocations, this`requeues, this`failures, this`pauses
      modifies board, breaker, breakGate, job, queue, out
      ensures Valid() && Forward()
      ensures v.Ran? && v.service == svc && GoodVisit(v, 1, Park())
      ensures Reported(Add(t, v, Park())) && (err.None? <==> Succeeded(v)) && (stop <==> Cooled(v, Park()))
      ensures err.Some? ==> Tallied(Add(t, v, Park()), out) && err == ErrorOf(v.replies, v.lapsed)
      ensures AfterRun(job, err.None?, old(job.rec.nzoId), svc, old(requeues), old(queue.rows))
    {
      SwitchService(job, svc);
      err, stop, v := RunAndWeigh(job, out, 1, t);
    }

    /** One turn of the walk. A refused service is passed over; a dead context ends the walk, and
    so does a run that succeeded or was asked to pause. */
    method VisitNext(job: JobPtr, out: JobOutcome, err: ErrMsg, svc: string, ghost t: Totals)
      returns (walk: Walk, lastErr: ErrMsg, ghost v: Visit)
      requires Valid() && Active(job)
      requires Tallied(t, out) && !t.delivered && !t.cooled && Some(err) == t.lastErr
      modifies this`now, this`ctx, this`othersLeft, this`invocations, this`requeues, this`failures,
          this`answers, this`pauses
      modifies board, breaker, breakGate, job, queue, out
      ensures Valid() && Forward()
      ensures v.service == svc && !v.Unsupported? && GoodVisit(v, 1, Park()) && (t.dead ==> !v.Ran?)
      ensures Reported(Add(t, v, Park()))
      ensures v.Refused? ==> breaker.Open(svc, now)
      ensures answers == old(answers) + [B.Answer(svc, !v.Refused?)]
      ensures !walk.Delivered? ==> Tallied(Add(t, v, Park()), out) && Some(lastErr) == Add(t, v, Park()).lastErr
      ensures walk == if Succeeded(v) then Delivered else if Stops(v, Park()) then ChainEnds else NextService
      ensures AfterRun(job, Succeeded(v), old(job.rec.nzoId), if v.Ran? then svc else old(job.rec.service),
                old(requeues), old(queue.rows))
    {
      var allowed := AskBreaker(svc);
      if !allowed {
        return NextService, err, Refused(svc, None);
      }
      walk, lastErr, v := EnterService(job, out, err, svc, t);
    }

    /** A service whose circuit let us in: skipped if the context has died, run otherwise. */
    method EnterService(job: JobPtr, out: JobOutcome, err: ErrMsg, svc: string, ghost t: Totals)
      returns (walk: Walk, lastErr: ErrMsg, ghost v: Visit)
      requires Valid() && Active(job)
      requires Tallied(t, out) && !t.delivered && !t.cooled && Some(err) == t.lastErr
      modifies this`now, this`ctx, this`othersLeft, this`invocations, this`requeues, this`failures, this`pauses
      modifies board, breaker, breakGate, job, queue, out
      ensures Valid() && Forward()
      ensures v.service == svc && (v.Ran? || v.Skipped?) && GoodVisit(v, 1, Park()) && (t.dead ==> !v.Ran?)
      ensures Reported(Add(t, v, Park()))
      ensures !walk.Delivered? ==> Tallied(Add(t, v, Park()), out) && Some(lastErr) == Add(t, v, Park()).lastErr
      ensures walk == if Succeeded(v) then Delivered else if Stops(v, Park()) then ChainEnds else NextService
      ensures AfterRun(job, Succeeded(v), old(job.rec.nzoId), if v.Ran? then svc else old(job.rec.service),
                old(requeues), old(queue.rows))
    {
      Elapse(0);
      if ctx != Alive {
        return ChainEnds, err, Skipped(svc);
      }
      var e, stop;
      e, stop, v := TryFallbackService(job, out, svc, t);
      if e.None? {
        return Delivered, err, v;
      }
      return if stop then ChainEnds else NextService, e.value, v;
    }

    /** Where a walk stands: the visits so far are a good pass from `service`, all reported;
    the job is completed if it was delivered, and left for the next service otherwise. */
    ghost predicate Walking(job: JobPtr, out: JobOutcome, walk: Walk, lastErr: ErrMsg, vs: Visits, t: Totals,
                            service: string, start: Totals, nzoId: string, counters: map<string, nat>, rows: Table)
      reads this`ctx, this`requeues, this`failures, this`answers, this`pauses, this`invocations, job, out, queue,
          breakGate
    {
      && GoodWalk(vs, t, service, Chain(service), supported, Park(), start)
      && Reported(t) && answers == t.answers && (walk.Delivered? <==> t.delivered)
      && AfterRun(job, walk.Delivered?, nzoId, job.rec.service, counters, rows)
      && (!walk.Delivered? ==>
            Tallied(t, out) && Some(lastErr) == t.lastErr)
      && (if walk.NextService? then Stops(vs[|vs| - 1], Park()) ==> t.cooled else Stops(vs[|vs| - 1], Park()))
      && (t.cooled ==> Stops(vs[|vs| - 1], Park()))
      && job.rec.service == ServiceNow(t, service)
    }

    /** One turn of the walk, with its visit added. */
    method WalkOn(job: JobPtr, out: JobOutcome, err: ErrMsg, svc: string, ghost vs: Visits, ghost t: Totals,
                  ghost service: string, ghost start: Totals, ghost counters: map<string, nat>, ghost rows: Table)
      returns (walk: Walk, lastErr: ErrMsg, ghost vs': Visits, ghost t': Totals)
      requires Valid() && Walking(job, out, NextService, err, vs, t, service, start, job.rec.nzoId, counters, rows)
      requires |vs| <= |Chain(service)| && svc == Chain(service)[|vs| - 1] && !t.cooled
      modifies this`now, this`ctx, this`othersLeft, this`invocations, this`requeues, this`failures,
          this`answers, this`pauses
      modifies board, breaker, breakGate, job, queue, out
      ensures Valid() && Forward()
      ensures Walking(job, out, walk, lastErr, vs', t', service, start, old(job.rec.nzoId), counters, rows)
      ensures vs <= vs' && (walk.NextService? ==> |vs'| == |vs| + 1)
    {
      ghost var v;
      walk, lastErr, v := VisitNext(job, out, err, svc, t);
      Advance(vs, t, v, service, Chain(service), supported, Park(), start);
      vs', t' := vs + [v], Add(t, v, Park());
    }

    /** A walk at its end: complete, all reported; the job is completed if it was delivered, and
    otherwise left with the error that explains its fate, a pause if one was announced. */
    ghost predicate WalkOver(job: JobPtr, out: JobOutcome, done: bool, err: ErrMsg, vs: Visits, t: Totals,
                             service: string, start: Totals, nzoId: string, counters: map<string, nat>, rows: Table)
      reads this, job, out, queue, breakGate
    {
      && Walked(Site(), Now(job), vs, t, service, start) && pauses == t.pauses && (done <==> t.delivered)
      && AfterRun(job, done, nzoId, job.rec.service, counters, rows)
      && (!done ==>
            Tallied(t, out) && t.lastErr == Some(err) && (t.cooled ==> t.attempted && Carries(err, Park())))
    }

    /** The loop over the chain after the primary, whose visit is all of `vs0`. */
    method WalkChain(job: JobPtr, out: JobOutcome, primaryErr: ErrMsg, chain: seq<string>, ghost vs0: Visits,
                     ghost t0: Totals, ghost service: string, ghost start: Totals, ghost counters: map<string, nat>,
                     ghost rows: Table)
      returns (walk: Walk, lastErr: ErrMsg, ghost vs: Visits, ghost t: Totals)
      requires Valid() && chain == Chain(service) && |vs0| == 1
      requires Walking(job, out, NextService, primaryErr, vs0, t0, service, start, job.rec.nzoId, counters, rows)
      modifies this`now, this`ctx, this`othersLeft, this`invocations, this`requeues, this`failures,
          this`answers, this`pauses
      modifies board, breaker, breakGate, job, queue, out
      ensures Valid() && Forward()
      ensures Walking(job, out, walk, lastErr, vs, t, service, start, old(job.rec.nzoId), counters, rows)
      ensures vs0 <= vs && (walk.NextService? ==> |vs| == 1 + |chain| || t.cooled)
    {
      ghost var nzoId := job.rec.nzoId;
      walk, lastErr, vs, t := NextService, primaryErr, vs0, t0;
      var i := 0;
      while i < |chain| && walk.NextService? && out.cooldown <= 0
        invariant Valid() && Forward()
        invariant 0 <= i <= |chain| && (walk.NextService? ==> |vs| == 1 + i) && vs0 <= vs
        invariant Walking(job, out, walk, lastErr, vs, t, service, start, nzoId, counters, rows)
      {
        walk, lastErr, vs, t := WalkOn(job, out, lastErr, chain[i], vs, t, service, start, counters, rows);
        i := i + 1;
      }
    }

    /** Walks the configured services after the primary, whose visit is `first`. */
    method RunFallbackChain(job: JobPtr, out: JobOutcome, primaryErr: ErrMsg, ghost first: Visit, ghost start: Totals)
      returns (done: bool, lastErr: ErrMsg, ghost vs: Visits, ghost t: Totals)
      requires Valid() && Active(job)
      requires GoodFirst(first, job.rec.service, supported, Park())
      requires var t := Add(start, first, Park()); !t.delivered && Tallied(t, out) && Some(primaryErr) == t.lastErr
      requires start.lastRan == None && !start.cooled && answers == Add(start, first, Park()).answers
      modifies this`now, this`ctx, this`othersLeft, this`invocations, this`requeues, this`failures,
          this`answers, this`pauses
      modifies board, breaker, breakGate, job, queue, out
      ensures Valid() && Forward() && [first] <= vs
      ensures WalkOver(job, out, done, lastErr, vs, t, old(job.rec.service), start,
                old(job.rec.nzoId), old(requeues), old(queue.rows))
    {
      ghost var service := job.rec.service;
      var chain := FallbackChain(job.rec.service);
      FirstVisit(first, service, chain, supported, Park(), start);
      var walk;
      walk, lastErr, vs, t := WalkChain(job, out, primaryErr, chain, [first], Add(start, first, Park()),
        service, start, requeues, queue.rows);
      done := walk.Delivered?;
      if t.cooled {
        CooledCarries(vs, t, service, chain, supported, Park(), start);
      }
    }

    // ---------- What becomes of the job ----------

    /** Requeued or failed, decided from the whole chain: an untried job goes back while its
    counter is below the small bound, a job told to wait while it is below the large one. */
    method ConcludeFailedAttempts(job: JobPtr, err: ErrMsg, out: JobOutcome)
      returns (requeued: bool, ghost untried: bool, ghost exhausted: bool)
      requires Valid() && Active(job)
      requires out.cooldown > 0 ==> out.attempted && Carries(err, Park())
      modifies this`now, this`ctx, this`othersLeft, this`requeues, this`rerun, this`pauses, board, breaker,
          breakGate, job, queue
      ensures Valid() && Forward()
      ensures job.rec.nzoId == old(job.rec.nzoId) && job.rec.service == old(job.rec.service)
      ensures OtherRowsKept(old(queue.rows), queue.rows, job.rec.nzoId)
      ensures untried ==> !out.attempted && Candidates(job.rec.service) != []
      ensures !out.attempted && Candidates(job.rec.service) != [] && ctx == Alive ==> untried
      ensures Decided(Site(), Now(job), requeued, untried, Worded(err, exhausted),
                out.cooldown > 0 && !exhausted, old(Requeues(job.rec.nzoId)))
      ensures !requeued ==> rerun == old(rerun)
      ensures OtherCountersKept(old(requeues), requeues, job.rec.nzoId)
      ensures VerdictPauses(old(pauses), pauses, Found(err), Park(),
                StraightBack(untried, out.cooldown > 0 && !exhausted, old(Requeues(job.rec.nzoId))), queue.healthy)
      ensures Kept(old(pauses), pauses, Found(err), Park(), breakGate.until, now)
      ensures exhausted ==> ctx == Expired
      ensures old(ctx) == Expired ==> exhausted
    {
      ghost var before := Requeues(job.rec.nzoId);
      var expired, live := ReadContext();
      exhausted := expired;
      var lastErr := if expired then BudgetExhausted(err) else err;
      assert lastErr == Worded(err, expired);
      requeued, untried := DecideFate(job, lastErr, out.attempted, out.cooldown > 0 && !expired, live, before);
    }

    /** The decision itself, once it is known whether the budget is gone and the job alive. */
    method DecideFate(job: JobPtr, lastErr: ErrMsg, attempted: bool, announced: bool, live: bool, ghost before: nat)
      returns (requeued: bool, ghost untried: bool)
      requires Valid() && Active(job) && before == Requeues(job.rec.nzoId)
      requires announced ==> attempted && Carries(lastErr, Park())
      modifies this`requeues, this`rerun, this`pauses, breakGate, job, queue
      ensures Valid() && old(breakGate.until) <= breakGate.until
      ensures job.rec.nzoId == old(job.rec.nzoId) && job.rec.service == old(job.rec.service)
      ensures OtherRowsKept(old(queue.rows), queue.rows, job.rec.nzoId)
      ensures untried <==> live && !attempted && Candidates(job.rec.service) != []
      ensures Decided(Site(), Now(job), requeued, untried, lastErr, announced, before)
      ensures !requeued ==> rerun == old(rerun)
      ensures OtherCountersKept(old(requeues), requeues, job.rec.nzoId)
      ensures VerdictPauses(old(pauses), pauses, Found(lastErr), Park(),
                StraightBack(untried, announced, before), queue.healthy)
      ensures Kept(old(pauses), pauses, Found(lastErr), Park(), breakGate.until, now)
    {
      untried := false;
      if live && !attempted {
        var candidates := CandidateServices(job);
        if |candidates| > 0 {
          untried := true;
          requeued := DecideUntried(job, lastErr);
          return;
        }
      }
      requeued := TwoChances(job, lastErr, announced, false, before);
    }

    /** A pass that reached no backend hands a job back that some service could serve. */
    method DecideUntried(job: JobPtr, err: ErrMsg) returns (requeued: bool)
      requires Valid() && Active(job)
      modifies this`requeues, this`rerun, this`pauses, breakGate, job, queue
      ensures Valid() && old(breakGate.until) <= breakGate.until
      ensures job.rec.nzoId == old(job.rec.nzoId) && job.rec.service == old(job.rec.service)
      ensures OtherRowsKept(old(queue.rows), queue.rows, job.rec.nzoId)
      ensures Decided(Site(), Now(job), requeued, true, err, false, old(Requeues(job.rec.nzoId)))
      ensures !requeued ==> rerun == old(rerun)
      ensures OtherCountersKept(old(requeues), requeues, job.rec.nzoId)
      ensures VerdictPauses(old(pauses), pauses, Found(err), Park(),
                StraightBack(true, false, old(Requeues(job.rec.nzoId))), queue.healthy)
      ensures Kept(old(pauses), pauses, Found(err), Park(), breakGate.until, now)
    {
      ghost var before := Requeues(job.rec.nzoId);
      requeued := RequeueUnattempted(job);
      if requeued {
        return;
      }
      requeued := TwoChances(job, err, false, true, before);
    }

    /** The two looks at the context: has the budget run out, and is the job still alive. */
    method ReadContext() returns (exhausted: bool, live: bool)
      requires Valid()
      modifies this`now, this`ctx, this`othersLeft, board, breaker, breakGate
      ensures Valid() && Forward()
      ensures exhausted ==> ctx == Expired
      ensures live <==> ctx == Alive
      ensures old(ctx) == Expired ==> exhausted
    {
      Elapse(0);
      exhausted := ctx == Expired;
      Elapse(0);
      live := ctx == Alive;
    }

    /** A pause announced in the chain sends the job back; so does one the message carries; and a
    job that neither sends back is failed. What it says then is exact: it is counted and worded
    twice if and only if it gives up after an announced pause. */
    method TwoChances(job: JobPtr, err: ErrMsg, announced: bool, ghost untried: bool, ghost before: nat)
      returns (requeued: bool)
      requires Valid() && Active(job)
      requires announced ==> Carries(err, Park()) && !untried
      requires Requeues(job.rec.nzoId) == before + (if untried then 1 else 0)
      requires queue.healthy && untried ==> before >= MAX_UNATTEMPTED_REQUEUES
      modifies this`requeues, this`rerun, this`pauses, breakGate, job, queue
      ensures Valid() && old(breakGate.until) <= breakGate.until
      ensures job.rec.nzoId == old(job.rec.nzoId) && job.rec.service == old(job.rec.service)
      ensures OtherRowsKept(old(queue.rows), queue.rows, job.rec.nzoId)
      ensures Decided(Site(), Now(job), requeued, untried, err, announced, before)
      ensures !requeued ==> rerun == old(rerun)
      ensures OtherCountersKept(old(requeues), requeues, job.rec.nzoId)
      ensures VerdictPauses(old(pauses), pauses, Found(err), Park(), StraightBack(untried, announced, before),
                queue.healthy)
      ensures Kept(old(pauses), pauses, Found(err), Park(), breakGate.until, now)
    {
      var lastErr;
      requeued, lastErr := TakeAnnouncedChance(job, err, announced);
      if requeued {
        FirstChanceDecides(Site(), Now(job), untried, err, announced, before);
        return;
      }
      ghost var counter := Requeues(job.rec.nzoId);
      requeued := TakeLastChance(job, lastErr);
      LastChanceDecides(Site(), Now(job), requeued, untried, err, announced, before, lastErr, counter);
      LastChanceAnnounces(Site(), Now(job), old(pauses), Found(err), StraightBack(untried, announced, before));
    }

    /** The first chance: of a job whose chain announced a pause, and of no other. */
    method TakeAnnouncedChance(job: JobPtr, err: ErrMsg, announced: bool) returns (requeued: bool, lastErr: ErrMsg)
      requires Active(job)
      modifies this`requeues, this`rerun, job, queue
      ensures Active(job) && OtherRowsKept(old(queue.rows), queue.rows, job.rec.nzoId)
      ensures job.rec.nzoId == old(job.rec.nzoId) && job.rec.service == old(job.rec.service)
      ensures OtherCountersKept(old(requeues), requeues, job.rec.nzoId)
      ensures Requeues(job.rec.nzoId) == old(Requeues(job.rec.nzoId)) + (if announced then 1 else 0)
      ensures requeued ==> announced && old(Requeues(job.rec.nzoId)) < MAX_COOLDOWN_REQUEUES
      ensures queue.healthy && announced && old(Requeues(job.rec.nzoId)) < MAX_COOLDOWN_REQUEUES ==> requeued
      ensures requeued ==> Requeued(Now(job), old(Requeues(job.rec.nzoId)))
      ensures !requeued ==> rerun == old(rerun)
      ensures lastErr == SaidFirst(err, announced, old(Requeues(job.rec.nzoId)))
    {
      requeued, lastErr := false, err;
      if announced {
        var giveUp;
        requeued, giveUp := RequeueAfterCooldown(job, err);
        if giveUp.Some? {
          lastErr := giveUp.value;
        }
      }
    }

    /** The second chance: of a job whose message asks for a pause. Without one it is failed. */
    method TakeLastChance(job: JobPtr, err: ErrMsg) returns (requeued: bool)
      requires Valid() && Active(job)
      modifies this`requeues, this`rerun, this`pauses, breakGate, job, queue
      ensures Valid() && old(breakGate.until) <= breakGate.until
      ensures job.rec.nzoId == old(job.rec.nzoId) && job.rec.service == old(job.rec.service)
      ensures OtherRowsKept(old(queue.rows), queue.rows, job.rec.nzoId)
      ensures OtherCountersKept(old(requeues), requeues, job.rec.nzoId)
      ensures requeued ==> Carries(err, Park()) && old(Requeues(job.rec.nzoId)) < MAX_COOLDOWN_REQUEUES
      ensures queue.healthy && Carries(err, Park()) && old(Requeues(job.rec.nzoId)) < MAX_COOLDOWN_REQUEUES ==> requeued
      ensures requeued ==> Requeued(Now(job), old(Requeues(job.rec.nzoId)))
      ensures !requeued ==> rerun == old(rerun) && NowFailed(Site(), Now(job))
      ensures !requeued ==> job.rec.errorMessage.msg == SaidLast(err, Park(), old(Requeues(job.rec.nzoId)))
      ensures pauses == if Carries(err, Park()) then old(pauses) + [CooldownOf(Found(err), Park()).value]
          else old(pauses)
      ensures Carries(err, Park()) ==> breakGate.until >= now + CooldownOf(Found(err), Park()).value
    {
      var lastErr;
      requeued, lastErr := ParkQueueAndRequeue(job, err);
      if !requeued {
        FailJob(job, lastErr);
      }
    }

    /** A message that asks for a pause parks the whole queue and sends the job back. */
    method ParkQueueAndRequeue(job: JobPtr, err: ErrMsg) returns (requeued: bool, lastErr: ErrMsg)
      requires Valid() && Active(job)
      modifies this`requeues, this`rerun, this`pauses, breakGate, job, queue
      ensures Valid() && old(breakGate.until) <= breakGate.until && Active(job)
      ensures job.rec.nzoId == old(job.rec.nzoId) && job.rec.service == old(job.rec.service)
      ensures OtherRowsKept(old(queue.rows), queue.rows, job.rec.nzoId)
      ensures OtherCountersKept(old(requeues), requeues, job.rec.nzoId)
      ensures requeued ==> Carries(err, Park()) && old(Requeues(job.rec.nzoId)) < MAX_COOLDOWN_REQUEUES
      ensures queue.healthy && Carries(err, Park()) && old(Requeues(job.rec.nzoId)) < MAX_COOLDOWN_REQUEUES ==> requeued
      ensures requeued ==> Requeued(Now(job), old(Requeues(job.rec.nzoId)))
      ensures !requeued ==> rerun == old(rerun)
      ensures lastErr == SaidLast(err, Park(), old(Requeues(job.rec.nzoId)))
      ensures pauses == if Carries(err, Park()) then old(pauses) + [CooldownOf(Found(err), Park()).value]
          else old(pauses)
      ensures Carries(err, Park()) ==> breakGate.until >= now + CooldownOf(Found(err), Park()).value
    {
      requeued, lastErr := false, err;
      var d := breakGate.CooldownFor(Found(err));
      if d.Some? {
        AnnouncePause(d.value);
        var giveUp;
        requeued, giveUp := RequeueAfterCooldown(job, err);
        if giveUp.Some? {
          lastErr := giveUp.value;
        }
      }
    }

    // ---------- A pass that holds a slot ----------

    /** The storage's answer. */
    method PrepareJobDir() returns (made: bool)
      modifies this`dirs
      ensures dirs == old(dirs) + [made]
    {
      made := *;
      dirs := dirs + [made];
    }

    /** Allocates the job directory, which may fail, and marks the job Downloading. */
    method BeginDownload(job: JobPtr) returns (prepared: bool)
      requires Active(job)
      modifies this`dirs, job, queue
      ensures dirs == old(dirs) + [prepared]
      ensures Active(job) && OtherRowsKept(old(queue.rows), queue.rows, job.rec.nzoId)
      ensures prepared ==> job.rec == old(job.rec).(status := Downloading, startedAt := Some(now),
          progressAt := Some(now))
      ensures prepared && queue.healthy ==> queue.rows[job.rec.nzoId] == Row(job.rec, false)
      ensures !prepared ==> job.rec == old(job.rec) && queue.rows == old(queue.rows)
    {
      prepared := PrepareJobDir();
      if !prepared {
        return;
      }
      job.rec := job.rec.(status := Downloading, startedAt := Some(now), progressAt := Some(now));
      var ok := Save(job);
    }

    /** Whether the primary can be tried; if not, why, as a visit that ran nothing. */
    method EnterPrimary(svc: string, waited: Option<Findings>) returns (refusal: Option<ErrMsg>, ghost first: Visit)
      requires Valid()
      modifies this`now, this`ctx, this`othersLeft, this`answers, board, breaker, breakGate
      ensures Valid() && Forward()
      ensures refusal.None? ==> svc in supported && !breaker.Open(svc, now)
      ensures refusal.Some? && svc in supported ==> breaker.Open(svc, now)
      ensures answers == if svc in supported then old(answers) + [B.Answer(svc, refusal.None?)] else old(answers)
      ensures refusal.Some? ==>
                && first == (if svc in supported then Refused(svc, waited) else Unsupported(svc))
                && refusal == Some(if svc in supported then CircuitOpen(svc, waited) else ServiceUnavailable(svc))
    {
      first := Unsupported(svc);
      if svc !in supported {
        return Some(ServiceUnavailable(svc)), first;
      }
      var allowed := AskBreaker(svc);
      if !allowed {
        return Some(CircuitOpen(svc, waited)), Refused(svc, waited);
      }
      return None, first;
    }

    /** The primary service: skipped if this deployment lacks it or its circuit is open, given
    up to three attempts otherwise. */
    method RunPrimary(job: JobPtr, out: JobOutcome, ghost start: Totals)
      returns (done: bool, lastErr: Option<ErrMsg>, ghost first: Visit)
      requires Valid() && Active(job)
      requires Tallied(start, out) && !start.delivered && !start.cooled && start.lastErr == None
      modifies this`now, this`ctx, this`othersLeft, this`invocations, this`requeues, this`failures,
          this`answers, this`pauses
      modifies board, breaker, breakGate, job, queue, out
      ensures Valid() && Forward()
      ensures GoodFirst(first, old(job.rec.service), supported, Park())
      ensures first.Refused? ==> breaker.Open(first.service, now)
      ensures answers ==
              if first.Unsupported? then old(answers) else old(answers) + [B.Answer(first.service, !first.Refused?)]
      ensures first.Refused? ==> first.waited == old(job.rec.cliOutput)
      ensures var t := Add(start, first, Park());
              && Reported(t) && (done <==> t.delivered)
              && (!done ==> Tallied(t, out) && lastErr.Some? && lastErr == t.lastErr)
      ensures AfterRun(job, done, old(job.rec.nzoId), old(job.rec.service), old(requeues), old(queue.rows))
    {
      done := false;
      lastErr, first := EnterPrimary(job.rec.service, job.rec.cliOutput);
      if lastErr.Some? {
        return;
      }
      var stop;
      lastErr, stop, first := RunAndWeigh(job, out, MAX_ATTEMPTS, start);
      done := lastErr.None?;
    }

    /** What this worker has reported so far, as the start of a pass. */
    ghost function SoFar(): Totals
      reads this`failures, this`answers, this`pauses, this`invocations, breakGate
    {
      Start(failures, answers, pauses, breakGate.until, invocations)
    }

    /** The primary and then the fallback chain. */
    method TryServices(job: JobPtr, out: JobOutcome, ghost start: Totals)
      returns (done: bool, err: ErrMsg, ghost vs: Visits, ghost t: Totals)
      requires Valid() && Active(job)
      requires Tallied(start, out) && !start.delivered && !start.cooled && start.lastErr == None
      requires !start.attempted && start.lastRan == None && start.answers == answers
      modifies this`now, this`ctx, this`othersLeft, this`invocations, this`requeues, this`failures,
          this`answers, this`pauses
      modifies board, breaker, breakGate, job, queue, out
      ensures Valid() && Forward()
      ensures WalkOver(job, out, done, err, vs, t, old(job.rec.service), start,
                old(job.rec.nzoId), old(requeues), old(queue.rows))
      ensures vs[0].Refused? ==> vs[0].waited == old(job.rec.cliOutput)
    {
      ghost var service := job.rec.service;
      var lastErr;
      ghost var first;
      done, lastErr, first := RunPrimary(job, out, start);
      vs, t := [first], Add(start, first, Park());
      if done {
        DeliveredAtOnce(Site(), Now(job), first, service, start);
        err := NoSignal;
        return;
      }
      done, err, vs, t := RunFallbackChain(job, out, lastErr.value, first, start);
    }

    /** What processDownload does once it holds a slot. */
    method RunInSlot(job: JobPtr, ghost service: string, ghost start: Totals, ghost before: nat)
      returns (fate: Fate, ghost log: PassLog)
      requires service == job.rec.service && start == SoFar() && before == Requeues(job.rec.nzoId)
      requires Valid() && Active(job) && holding
      modifies this`now, this`ctx, this`othersLeft, this`invocations, this`requeues, this`failures,
          this`answers, this`pauses, this`rerun, this`dirs
      modifies board, breaker, breakGate, job, queue
      ensures Valid() && Forward()
      ensures job.rec.nzoId == old(job.rec.nzoId) && OtherRowsKept(old(queue.rows), queue.rows, job.rec.nzoId)
      ensures dirs == old(dirs) + [!fate.NotStarted?]
      ensures OtherCountersKept(old(requeues), requeues, job.rec.nzoId)
      ensures Ended(Site(), Now(job), fate, log, service, start, before)
      ensures !fate.PutBackInQueue? ==> rerun == old(rerun)
    {
      var out := new JobOutcome();
      var prepared := BeginDownload(job);
      if !prepared {
        FailJob(job, PrepareFailed);
        return NotStarted, PassLog([], start, false, false);
      }
      fate, log := ServeJob(job, out, service, start, before);
    }

    /** The services, and then what becomes of a job none of them delivered. */
    method ServeJob(job: JobPtr, out: JobOutcome, ghost service: string, ghost start: Totals, ghost before: nat)
      returns (fate: Fate, ghost log: PassLog)
      requires service == job.rec.service && start == SoFar() && before == Requeues(job.rec.nzoId)
      requires Valid() && Active(job) && !out.attempted && out.cooldown <= 0 && out.services == []
      modifies this`now, this`ctx, this`othersLeft, this`invocations, this`requeues, this`failures,
          this`answers, this`pauses, this`rerun
      modifies board, breaker, breakGate, job, queue, out
      ensures Valid() && Forward() && !fate.NotStarted?
      ensures job.rec.nzoId == old(job.rec.nzoId) && OtherRowsKept(old(queue.rows), queue.rows, job.rec.nzoId)
      ensures OtherCountersKept(old(requeues), requeues, job.rec.nzoId)
      ensures Ended(Site(), Now(job), fate, log, service, start, before)
      ensures !fate.PutBackInQueue? ==> rerun == old(rerun)
    {
      var done, err;
      ghost var vs, t;
      done, err, vs, t := TryServices(job, out, start);
      if done {
        fate, log := DeliveredRelease, PassLog(vs, t, false, false);
        DeliveredEnds(Site(), Now(job), log, service, start, before);
        return;
      }
      fate, log := Conclude(job, err, out, vs, t, service, start, before);
    }

    /** The verdict on a pass that delivered nothing, for the log of the pass. */
    method Judge(job: JobPtr, err: ErrMsg, out: JobOutcome, ghost vs: Visits, ghost t: Totals, ghost before: nat)
      returns (requeued: bool, ghost log: PassLog)
      requires Valid() && Active(job) && before == Requeues(job.rec.nzoId)
      requires pauses == t.pauses && !t.delivered && t.lastErr == Some(err)
      requires out.attempted == t.attempted && (out.cooldown > 0 <==> t.cooled)
      requires t.cooled ==> t.attempted && Carries(err, Park())
      modifies this`now, this`ctx, this`othersLeft, this`requeues, this`rerun, this`pauses, board, breaker,
          breakGate, job, queue
      ensures Valid() && Forward() && log.visits == vs && log.totals == t
      ensures job.rec.nzoId == old(job.rec.nzoId) && job.rec.service == old(job.rec.service)
      ensures OtherRowsKept(old(queue.rows), queue.rows, job.rec.nzoId)
      ensures OtherCountersKept(old(requeues), requeues, job.rec.nzoId)
      ensures Undelivered(Site(), Now(job), log, before)
      ensures Decided(Site(), Now(job), requeued, log.untried, log.LastWords(), log.Announced(), before)
      ensures !requeued ==> rerun == old(rerun)
    {
      ghost var untried, exhausted;
      requeued, untried, exhausted := ConcludeFailedAttempts(job, err, out);
      log := PassLog(vs, t, untried, exhausted);
    }

    /** The verdict on a walk that delivered nothing. */
    method Conclude(job: JobPtr, err: ErrMsg, out: JobOutcome, ghost vs: Visits, ghost t: Totals,
                    ghost service: string, ghost start: Totals, ghost before: nat)
      returns (fate: Fate, ghost log: PassLog)
      requires Valid() && Active(job) && Walked(Site(), Now(job), vs, t, service, start)
      requires before == Requeues(job.rec.nzoId)
      requires pauses == t.pauses && !t.delivered && t.lastErr == Some(err)
      requires out.attempted == t.attempted && (out.cooldown > 0 <==> t.cooled)
      requires t.cooled ==> t.attempted && Carries(err, Park())
      modifies this`now, this`ctx, this`othersLeft, this`requeues, this`rerun, this`pauses, board, breaker,
          breakGate, job, queue
      ensures Valid() && Forward() && (fate.PutBackInQueue? || fate.GivenUp?)
      ensures job.rec.nzoId == old(job.rec.nzoId) && OtherRowsKept(old(queue.rows), queue.rows, job.rec.nzoId)
      ensures OtherCountersKept(old(requeues), requeues, job.rec.nzoId)
      ensures Ended(Site(), Now(job), fate, log, service, start, before)
      ensures !fate.PutBackInQueue? ==> rerun == old(rerun)
    {
      ghost var tried := Now(job);
      var requeued;
      requeued, log := Judge(job, err, out, vs, t, before);
      fate := if requeued then PutBackInQueue else GivenUp;
      Concluded(Site(), tried, Now(job), requeued, log, service, start, before);
    }

    // ---------- Waiting for a slot ----------

    /** Holds the job until the break window is over or the wait is cancelled: returns alive
    only when the gate is open, and never later than one overshoot after its last end. */
    method ParkForUpstreamBreak()
      requires Valid() && !holding
      modifies this`now, this`ctx, this`othersLeft, board, breaker, breakGate
      ensures Valid() && OnlyOthers() && Grown(old(breakGate.log), breakGate.log, old(now))
      ensures ctx == Alive ==> now >= breakGate.until
      ensures now <= Max(old(now), breakGate.until) + slack
    {
      assert Intact();
      while true
        invariant Valid() && OnlyOthers() && Grown(old(breakGate.log), breakGate.log, old(now))
        invariant now <= Max(old(now), breakGate.until) + slack
        decreases othersLeft, if ctx == Alive then 1 else 0, breakGate.until - now
      {
        if ctx != Alive {
          return;
        }
        var remaining := breakGate.until - now;
        if remaining <= 0 {
          return;
        }
        var step := breakGate.poll;
        if remaining < step {
          step := remaining;
        }
        ghost var log, since := breakGate.log, now;
        Watch(step, step + slack, true);
        GrownOn(old(breakGate.log), log, breakGate.log, old(now), since);
      }
    }

    ghost predicate OpenFor(services: seq<string>, wait: int)
      requires breaker.threshold >= 1
      reads this`now, breaker
    {
      B.OpenThrough(breaker.history, services, breaker.threshold, breaker.cooldown, now, now + wait)
    }

    /** No service is allowed before the wait is over, and some one is then. */
    ghost predicate ExactWait(services: seq<string>, wait: int)
      requires breaker.threshold >= 1
      reads this`now, breaker
    {
      OpenFor(services, wait) && exists s :: s in services && !breaker.Open(s, now + wait)
    }

    lemma ExactWaitMeans(services: seq<string>, wait: int, s: string, t: int)
      requires breaker.threshold >= 1 && ExactWait(services, wait)
      ensures s in services && now <= t < now + wait ==> breaker.Open(s, t)
      ensures exists first :: first in services && !breaker.Open(first, now + wait)
    {
    }

    /** The wait so far, and one more service. */
    lemma ShorterWait(services: seq<string>, wait: int, svc: string, d: int)
      requires breaker.threshold >= 1 && OpenFor(services, wait) && d >= 0
      requires forall t | now <= t :: breaker.Open(svc, t) <==> t < now + d
      ensures OpenFor(services + [svc], if d < wait then d else wait)
      ensures !breaker.Open(svc, now + d)
    {
      assert !breaker.Open(svc, now + d);
      forall s, t | s in services + [svc] && now <= t < now + (if d < wait then d else wait)
        ensures B.OpenStreak(B.Streak(breaker.history, s, breaker.threshold, breaker.cooldown),
                  breaker.threshold, breaker.cooldown, t)
      {
        if s == svc {
          assert breaker.Open(svc, t);
        }
      }
    }

    /** How long until the first candidate is allowed; 0 if one is. Each circuit is read by itself,
    and the wait is exact if nobody acts in between. */
    method ShortestWait(candidates: seq<string>) returns (wait: nat)
      requires Valid() && candidates != []
      modifies this`now, this`ctx, this`othersLeft, board, breaker, breakGate
      ensures Valid() && OnlyOthers() && Grown(old(breakGate.log), breakGate.log, old(now)) && now == old(now)
      ensures wait <= MAX_CIRCUIT_PARK
      ensures wait == 0 ==> Admits(candidates)
      ensures othersLeft == old(othersLeft) ==> ExactWait(candidates, wait)
    {
      assert Intact();
      wait := MAX_CIRCUIT_PARK;
      ghost var first := candidates[0];
      breaker.ClosedAfterCooldown(first, now + wait);
      for i := 0 to |candidates|
        invariant Valid() && OnlyOthers() && Grown(old(breakGate.log), breakGate.log, old(now)) && now == old(now)
        invariant 0 < wait <= MAX_CIRCUIT_PARK && first in candidates
        invariant othersLeft == old(othersLeft) ==> !breaker.Open(first, now + wait) && OpenFor(candidates[..i], wait)
      {
        ghost var log := breakGate.log;
        var d := ReadCircuit(candidates[i]);
        GrownOn(old(breakGate.log), log, breakGate.log, old(now), old(now));
        if d <= 0 {
          assert candidates[i] in candidates;
          return 0;
        }
        assert candidates[..i + 1] == candidates[..i] + [candidates[i]];
        if othersLeft == old(othersLeft) {
          ShorterWait(candidates[..i], wait, candidates[i], d);
        }
        if d < wait {
          wait := d;
          first := candidates[i];
        }
      }
      assert candidates[..|candidates|] == candidates;
    }

    /** One look: how long until a candidate is allowed, 0 if one is or there are none. */
    method LookAtCircuits(job: JobPtr) returns (candidates: seq<string>, wait: nat)
      requires Valid()
      modifies this`now, this`ctx, this`othersLeft, board, breaker, breakGate
      ensures Valid() && OnlyOthers() && Grown(old(breakGate.log), breakGate.log, old(now)) && now == old(now)
      ensures candidates == Candidates(job.rec.service) && wait <= MAX_CIRCUIT_PARK
      ensures wait == 0 ==> candidates == [] || Admits(candidates)
      ensures wait > 0 ==> candidates != []
      ensures wait > 0 && othersLeft == old(othersLeft) ==>
                ExactWait(candidates, wait) && !Admits(candidates) && now < breaker.clock + MAX_CIRCUIT_PARK
    {
      candidates := CandidateServices(job);
      if |candidates| == 0 {
        return candidates, 0;
      }
      wait := ShortestWait(candidates);
      if wait > 0 && othersLeft == old(othersLeft) {
        StillOpenMeansOthersActed(candidates);
      }
    }

    /** The cap of the park: remembers the wait and closes the primary's circuit, and no other. */
    method AttemptAnyway(job: JobPtr)
      requires Valid()
      modifies breaker, job
      ensures Valid() && job.rec == old(job.rec).(cliOutput := Some(NOTHING))
      ensures breaker.history == old(breaker.history) + [B.Call(now, job.rec.service, B.Op.Reset, me)]
      ensures Admits(Candidates(job.rec.service)) <==>
                job.rec.service in supported || old(Admits(Candidates(job.rec.service)))
    {
      assert Intact();
      job.rec := job.rec.(cliOutput := Some(NOTHING));
      breaker.Reset(job.rec.service, now, me);
      ghost var service := job.rec.service;
      if service in supported {
        assert service in Candidates(service) && !breaker.Open(service, now);
      } else {
        assert forall s | s in Candidates(service) :: s != service && breaker.Open(s, now) == old(breaker.Open(s, now));
      }
    }

    /** One whole cap after the last call on the breaker some candidate is admitted. */
    lemma StillOpenMeansOthersActed(candidates: seq<string>)
      requires Valid() && candidates != [] && !Admits(candidates)
      ensures now < breaker.clock + MAX_CIRCUIT_PARK
    {
      assert Intact();
      var s := candidates[0];
      assert s in candidates && breaker.Open(s, now);
      breaker.ClosedAfterCooldown(s, breaker.clock + breaker.cooldown);
    }

    /** Shows the park. What is shown is exact if nobody acted since the look began. */
    method BeginCircuitPark(services: seq<string>, wait: nat, ghost quiet: bool)
      requires Valid() && (quiet ==> ExactWait(services, wait))
      modifies this`published, this`onBoard, board
      ensures Valid() && board.shown == Some(CircuitPark(services, now + wait)) && onBoard
      ensures published == old(published) + [CircuitPark(services, now + wait)]
    {
      assert Intact();
      PutOnBoard(CircuitPark(services, now + wait));
    }

    method PutOnBoard(park: CircuitPark)
      requires BoardKept()
      modifies this`published, this`onBoard, board
      ensures BoardKept() && board.shown == Some(park) && onBoard && published == old(published) + [park]
    {
      StepMore(board.steps, Begin(me, park));
      board.Show(park, me);
      published, onBoard := published + [park], true;
    }

    /** Clears the board; that hides the parks of the others, if there are any. */
    method EndCircuitPark()
      requires Valid() && onBoard
      modifies this`onBoard, board
      ensures Valid() && board.shown == None && !onBoard
      ensures Hides(board.steps) <==> Parked(board.steps) != {}
    {
      assert Intact();
      ghost var steps := board.steps;
      board.Clear(me);
      StepMore(steps, End(me));
      onBoard := false;
    }

    /** One turn of the park: done with it, or shown and slept. */
    method ParkOnce(job: JobPtr, deadline: int) returns (end: Option<ParkEnd>)
      requires Valid() && !holding && now <= deadline + CIRCUIT_PARK_POLL + slack
      modifies this`now, this`ctx, this`othersLeft, this`published, this`onBoard, board, breaker, breakGate, job
      ensures Valid() && Forward() && Grown(old(breakGate.log), breakGate.log, old(now))
      ensures end != Some(Capped) ==> OnlyOthers() && job.rec == old(job.rec)
      ensures end.Some? ==> now == old(now) && onBoard == old(onBoard) && published == old(published)
      ensures end == Some(WaitCancelled) ==> ctx != Alive
      ensures end == Some(NoCandidates) ==> Candidates(job.rec.service) == []
      ensures end == Some(Admitted) ==> Admits(Candidates(job.rec.service))
      ensures end == Some(Capped) ==>
                && job.rec == old(job.rec).(cliOutput := job.rec.cliOutput) && now > deadline && ResetLast(job)
                && (othersLeft < old(othersLeft) || old(breaker.clock) + MAX_CIRCUIT_PARK > now)
      // a park is shown, and shown again within a poll and an overshoot
      ensures end.None? ==>
                && old(ctx) == Alive && old(now) <= deadline && onBoard
                && old(now) < now <= old(now) + CIRCUIT_PARK_POLL + slack
                && exists until :: published == old(published) + [CircuitPark(Candidates(job.rec.service), until)]
    {
      if ctx != Alive {
        return Some(WaitCancelled);
      }
      ghost var log, left := breakGate.log, othersLeft;
      var candidates, wait := LookAtCircuits(job);
      ghost var since := breakGate.log;
      if wait == 0 {
        return Some(if |candidates| == 0 then NoCandidates else Admitted);
      }
      if now > deadline {
        AttemptAnyway(job);
        return Some(Capped);
      }
      ShowAndSleep(candidates, wait, othersLeft == left);
      GrownOn(log, since, breakGate.log, old(now), old(now));
      return None;
    }

    /** Shows the park, and sleeps for it or for a poll. */
    method ShowAndSleep(services: seq<string>, wait: nat, ghost quiet: bool)
      requires Valid() && wait > 0 && (quiet ==> ExactWait(services, wait))
      modifies this`now, this`ctx, this`othersLeft, this`published, this`onBoard, board, breaker, breakGate
      ensures Valid() && OnlyOthers() && Grown(old(breakGate.log), breakGate.log, old(now)) && onBoard
      ensures old(now) < now <= old(now) + CIRCUIT_PARK_POLL + slack
      ensures published == old(published) + [CircuitPark(services, old(now) + wait)]
    {
      BeginCircuitPark(services, wait, quiet);
      var step := wait;
      if step > CIRCUIT_PARK_POLL {
        step := CIRCUIT_PARK_POLL;
      }
      Watch(step, step + slack, false);
    }

    /** The last call on the breaker was this worker's reset of its primary at this instant; some
    candidate is admitted if and only if that was one, or another one was admitted before it. */
    ghost predicate ResetLast(job: JobPtr)
      requires breaker.threshold >= 1
      reads this`now, breaker, job
    {
      && Candidates(job.rec.service) != []
      && breaker.history != []
      && var n := |breaker.history| - 1;
         && breaker.history[n] == B.Call(now, job.rec.service, B.Op.Reset, me)
         && (Admits(Candidates(job.rec.service)) <==>
              job.rec.service in supported || AdmittedBy(breaker.history[..n], Candidates(job.rec.service)))
    }

    lemma ResetLastMeans(job: JobPtr)
      requires breaker.threshold >= 1 && ResetLast(job)
      ensures Candidates(job.rec.service) != []
      ensures var n := |breaker.history|;
              && n > 0 && breaker.history[n - 1] == B.Call(now, job.rec.service, B.Op.Reset, me)
              && (Admits(Candidates(job.rec.service)) <==>
                   job.rec.service in supported || AdmittedBy(breaker.history[..n - 1], Candidates(job.rec.service)))
    {
    }

    /** Some service is allowed now by that history. */
    ghost predicate AdmittedBy(h: B.History, services: seq<string>)
      requires breaker.threshold >= 1
      reads this`now
    {
      exists s :: s in services
        && !B.OpenStreak(B.Streak(h, s, breaker.threshold, breaker.cooldown), breaker.threshold, breaker.cooldown, now)
    }

    /** What a park has shown since: parks for just these services. */
    ghost predicate ShownSince(before: seq<CircuitPark>, services: seq<string>)
      reads this`published
    {
      && before <= published
      && forall i | |before| <= i < |published| :: published[i].services == services
    }

    /** The turns of the park. */
    method ParkWhileOpen(job: JobPtr, deadline: int) returns (end: ParkEnd, parked: bool)
      requires Valid() && !holding && !onBoard && deadline == now + MAX_CIRCUIT_PARK
      modifies this`now, this`ctx, this`othersLeft, this`published, this`onBoard, board, breaker, breakGate, job
      ensures Valid() && Forward() && Grown(old(breakGate.log), breakGate.log, old(now))
      ensures job.rec == old(job.rec).(cliOutput := job.rec.cliOutput)
      ensures now <= deadline + CIRCUIT_PARK_POLL + slack
      ensures end.WaitCancelled? ==> ctx != Alive
      ensures end.NoCandidates? ==> Candidates(job.rec.service) == []
      ensures end.Admitted? ==> Admits(Candidates(job.rec.service))
      ensures end.Capped? ==> now > deadline && ResetLast(job) && othersLeft < old(othersLeft)
      ensures !end.Capped? ==> OnlyOthers()
      ensures parked == onBoard && (parked <==> published != old(published))
      ensures !parked ==> now == old(now)
      ensures ShownSince(old(published), Candidates(job.rec.service))
    {
      assert Intact();
      parked := false;
      while true
        invariant Valid() && OnlyOthers() && Grown(old(breakGate.log), breakGate.log, old(now))
        invariant job.rec == old(job.rec) && now <= deadline + CIRCUIT_PARK_POLL + slack
        invariant parked == onBoard && (parked <==> published != old(published))
        invariant !parked ==> now == old(now)
        invariant ShownSince(old(published), Candidates(job.rec.service))
        decreases if ctx == Alive then 1 else 0, deadline + CIRCUIT_PARK_POLL + slack - now
      {
        ghost var log, since := breakGate.log, now;
        var turn := ParkOnce(job, deadline);
        GrownOn(old(breakGate.log), log, breakGate.log, old(now), since);
        if turn.Some? {
          return turn.value, parked;
        }
        parked := true;
      }
    }

    /** Holds the job while every service it could use has an open circuit. */
    method ParkForOpenCircuits(job: JobPtr) returns (end: ParkEnd, ghost parked: bool)
      requires Valid() && !holding && !onBoard
      modifies this`now, this`ctx, this`othersLeft, this`published, this`onBoard, board, breaker, breakGate, job
      ensures Valid() && Forward() && Grown(old(breakGate.log), breakGate.log, old(now)) && !onBoard
      ensures job.rec == old(job.rec).(cliOutput := job.rec.cliOutput)
      // it returns in time, whatever the other workers do
      ensures now <= old(now) + MAX_CIRCUIT_PARK + CIRCUIT_PARK_POLL + slack
      ensures end.WaitCancelled? ==> ctx != Alive
      ensures end.NoCandidates? ==> Candidates(job.rec.service) == []
      ensures end.Admitted? ==> Admits(Candidates(job.rec.service))
      // at the cap the primary's circuit is closed by force, and no other; and the cap is
      // reached only if other workers kept opening circuits
      ensures end.Capped? ==> now > old(now) + MAX_CIRCUIT_PARK && ResetLast(job) && othersLeft < old(othersLeft)
      ensures !end.Capped? ==> OnlyOthers()
      // it parks exactly when time passes here, shows every park, and leaves nothing shown
      // after it: with other workers still parked, that hides them
      ensures parked <==> published != old(published)
      ensures parked ==> board.shown == None && (Hides(board.steps) <==> Parked(board.steps) != {})
      ensures !parked ==> now == old(now)
      ensures old(published) <= published
      ensures forall i | |old(published)| <= i < |published| :: published[i].services == Candidates(job.rec.service)
    {
      var deadline := now + MAX_CIRCUIT_PARK;
      var waited;
      end, waited := ParkWhileOpen(job, deadline);
      parked := waited;
      if waited {
        EndCircuitPark();
      }
    }

    /** Everything announced before entry `n` of the gate's log was over at `left`, when the
    worker left the gate; the rest was announced since. */
    ghost predicate LeftGate(left: int, n: nat)
      reads this`now, breakGate
    {
      && left <= now && n <= |breakGate.log| && breakGate.zero <= left
      && WindowEnd(breakGate.log[..n], breakGate.zero) <= left
      && forall i | n <= i < |breakGate.log| :: left <= breakGate.log[i].at
    }

    /** Both parks and the wait for the semaphore. */
    method WaitForTurn(job: JobPtr) returns (ghost left: int, ghost n: nat)
      requires Valid() && !holding && !onBoard
      modifies this`now, this`ctx, this`othersLeft, this`published, this`onBoard, board, breaker, breakGate, job
      ensures Valid() && Forward() && Grown(old(breakGate.log), breakGate.log, old(now)) && !onBoard
          && job.rec == old(job.rec).(cliOutput := job.rec.cliOutput)
      ensures ctx == Alive && othersLeft == old(othersLeft) ==>
                Candidates(job.rec.service) == [] || Admits(Candidates(job.rec.service))
      ensures old(now) <= left && |old(breakGate.log)| <= n
      ensures ctx == Alive ==> LeftGate(left, n)
    {
      ParkForUpstreamBreak();
      assert Intact();
      left, n := now, |breakGate.log|;
      ghost var log := breakGate.log;
      assert log[..n] == log;
      var end;
      ghost var parked;
      end, parked := ParkForOpenCircuits(job);
      ghost var since, later := breakGate.log, now;
      WaitForSlot(job);
      GrownOn(log, since, breakGate.log, left, later);
      WindowCoversEveryAnnouncement(log, breakGate.zero);
      assert breakGate.log[..n] == log;
    }

    /** Blocked on the semaphore for any time. */
    method WaitForSlot(job: JobPtr)
      requires Valid()
      modifies this`now, this`ctx, this`othersLeft, board, breaker, breakGate
      ensures Valid() && OnlyOthers() && Grown(old(breakGate.log), breakGate.log, old(now))
      ensures othersLeft == old(othersLeft) && old(Admits(Candidates(job.rec.service))) ==>
                Admits(Candidates(job.rec.service))
    {
      ghost var s := "";
      if Admits(Candidates(job.rec.service)) {
        s :| s in Candidates(job.rec.service) && !breaker.Open(s, now);
      }
      var longest: int := *;
      Watch(0, if longest < 0 then 0 else longest, true);
      assert othersLeft == old(othersLeft) && old(Admits(Candidates(job.rec.service))) ==> !breaker.Open(s, now);
    }

    /** Parks, takes a slot, and looks again: the slot is kept only if some candidate is still
    allowed. Ends, because other workers can undo the park only finitely often. The second look
    is at the circuits alone: the slot can be taken inside a break announced since the gate was
    left, and exactly then. */
    method AcquireSlot(job: JobPtr) returns (got: bool, ghost left: int, ghost n: nat)
      requires Valid() && Active(job) && !holding && !onBoard
      modifies this`now, this`ctx, this`deadline, this`othersLeft, this`holding, this`published, this`onBoard
      modifies board, breaker, breakGate, job
      ensures Valid() && Active(job) && !onBoard
      ensures old(now) <= now && othersLeft <= old(othersLeft) && old(breakGate.until) <= breakGate.until
      ensures job.rec.nzoId == old(job.rec.nzoId) && job.rec.service == old(job.rec.service)
      ensures got == holding && (!got ==> ctx != Alive)
      // waiting uses up none of the budget, which starts with the slot
      ensures ctx != Expired
      ensures got ==> deadline == if jobTimeout > 0 then Some(now + 2 * jobTimeout) else None
      ensures got ==> MayRun(job)
      ensures got && ctx == Alive ==> old(now) <= left && |old(breakGate.log)| <= n && SinceLeft(left, n)
    {
      ctx, deadline := Alive, None;
      left, n := now, 0;
      var end := SlotReturned;
      while end.SlotReturned?
        invariant Valid() && !onBoard && job.rec == old(job.rec).(cliOutput := job.rec.cliOutput)
        invariant deadline == None && ctx != Expired && |old(breakGate.log)| <= |breakGate.log|
        invariant old(now) <= now && othersLeft <= old(othersLeft) && old(breakGate.until) <= breakGate.until
        invariant holding <==> end.SlotTaken?
        invariant end.WaitGivenUp? ==> ctx != Alive
        invariant end.SlotTaken? ==> MayRun(job)
        invariant end.SlotTaken? && ctx == Alive ==> old(now) <= left && |old(breakGate.log)| <= n && SinceLeft(left, n)
        decreases end.SlotReturned?, othersLeft, if ctx == Alive then 1 else 0
      {
        end, left, n := WaitAndLook(job);
      }
      got := end.SlotTaken?;
      if got {
        deadline := if jobTimeout > 0 then Some(now + 2 * jobTimeout) else None;
      }
    }

    /** Some service is allowed, or there is none to wait for. */
    ghost predicate MayRun(job: JobPtr)
      reads this`now, breaker, job
    {
      breaker.threshold >= 1 && (Candidates(job.rec.service) == [] || Admits(Candidates(job.rec.service)))
    }

    /** The gate is shut if and only if an announcement made since it was left still runs. */
    ghost predicate SinceLeft(left: int, n: nat)
      reads this`now, breakGate
    {
      && LeftGate(left, n)
      && (now < breakGate.until <==>
           exists i | n <= i < |breakGate.log| :: breakGate.log[i].at + breakGate.log[i].d > now)
    }

    lemma SinceLeftMeans(left: int, n: nat)
      requires SinceLeft(left, n)
      ensures left <= now && n <= |breakGate.log| && WindowEnd(breakGate.log[..n], breakGate.zero) <= left
      ensures forall i | n <= i < |breakGate.log| :: left <= breakGate.log[i].at
      ensures now < breakGate.until <==>
                exists i | n <= i < |breakGate.log| :: breakGate.log[i].at + breakGate.log[i].d > now
    {
    }

    /** One turn of the wait: given up, or a slot that is kept or handed back. */
    method WaitAndLook(job: JobPtr) returns (end: SlotEnd, ghost left: int, ghost n: nat)
      requires Valid() && !holding && !onBoard && ctx != Expired && deadline == None
      modifies this`now, this`ctx, this`othersLeft, this`holding, this`published, this`onBoard
      modifies board, breaker, breakGate, job
      ensures Valid() && Forward() && !onBoard && job.rec == old(job.rec).(cliOutput := job.rec.cliOutput)
      ensures |old(breakGate.log)| <= |breakGate.log| && old(now) <= left && |old(breakGate.log)| <= n
      ensures holding <==> end.SlotTaken?
      ensures end.WaitGivenUp? ==> ctx != Alive
      ensures end.SlotTaken? ==> MayRun(job)
      ensures end.SlotTaken? && ctx == Alive ==> SinceLeft(left, n)
      // a slot is handed back only because others acted, or the context died meanwhile
      ensures end.SlotReturned? ==> othersLeft < old(othersLeft) || (old(ctx) == Alive && ctx != Alive)
    {
      left, n := now, |breakGate.log|;
      if ctx != Alive {
        return WaitGivenUp, left, n;
      }
      left, n := WaitForTurn(job);
      var done: bool := *;
      if ctx != Alive && done {
        return WaitGivenUp, left, n;
      }
      holding := true;
      var ok := LookAgain(job, left, n);
      if ok {
        return SlotTaken, left, n;
      }
      holding := false;
      return SlotReturned, left, n;
    }

    /** The look after the semaphore. */
    method LookAgain(job: JobPtr, ghost left: int, ghost n: nat) returns (ok: bool)
      requires Valid() && (ctx == Alive ==> LeftGate(left, n))
      modifies this`now, this`ctx, this`othersLeft, board, breaker, breakGate
      ensures Valid() && OnlyOthers() && Grown(old(breakGate.log), breakGate.log, old(now))
      ensures ok ==> MayRun(job)
      ensures othersLeft == old(othersLeft) && !ok ==>
                Candidates(job.rec.service) != [] && !Admits(Candidates(job.rec.service))
      ensures ctx == Alive ==> SinceLeft(left, n)
    {
      ok := AnyCandidateAllowed(job);
      if ctx == Alive {
        assert Intact();
        assert breakGate.log[..n] == old(breakGate.log)[..n];
        OpenAgainIff(breakGate.log, breakGate.zero, n, left, now);
      }
    }

    /** A whole pass, from the first wait to the release of the slot. No fate means the wait
    was cancelled: then the row and everything reported is as it was. */
    method ProcessDownload(job: JobPtr) returns (fate: Option<Fate>, ghost log: PassLog, ghost start: Totals)
      requires Valid() && Active(job) && !holding && !onBoard
      modifies this`now, this`ctx, this`othersLeft, this`invocations, this`requeues, this`failures,
          this`answers, this`pauses, this`rerun, this`dirs
      modifies this`holding, this`deadline, this`published, this`onBoard, board, breaker, breakGate, job, queue
      ensures Valid() && !holding && !onBoard
      ensures old(now) <= now && othersLeft <= old(othersLeft) && old(breakGate.until) <= breakGate.until
      ensures job.rec.nzoId == old(job.rec.nzoId) && OtherRowsKept(old(queue.rows), queue.rows, job.rec.nzoId)
      ensures dirs == if fate.None? then old(dirs) else old(dirs) + [fate != Some(NotStarted)]
      ensures OtherCountersKept(old(requeues), requeues, job.rec.nzoId)
      ensures start == Start(old(failures), old(answers), old(pauses), start.until, old(invocations))
          && start.until >= old(breakGate.until)
      ensures fate.None? ==>
                && ctx != Alive && queue.rows == old(queue.rows) && requeues == old(requeues) && rerun == old(rerun)
                && failures == old(failures) && answers == old(answers) && pauses == old(pauses)
                && invocations == old(invocations)
      ensures fate.Some? ==> Ended(Site(), Now(job), fate.value, log, old(job.rec.service), start,
          old(Requeues(job.rec.nzoId)))
      ensures fate != Some(PutBackInQueue) ==> rerun == old(rerun)
      ensures ctx == Expired ==> fate.Some? && jobTimeout > 0 && now >= old(now) + 2 * jobTimeout
    {
      ghost var service, before := job.rec.service, Requeues(job.rec.nzoId);
      var got;
      ghost var left, n;
      got, left, n := AcquireSlot(job);
      start, log := SoFar(), PassLog([], SoFar(), false, false);
      if !got {
        return None, log, start;
      }
      var f;
      f, log := RunAndRelease(job, start, service, before);
      fate := Some(f);
    }

    /** The slot is given back on every path. The budget starts with it, and it alone can expire. */
    method RunAndRelease(job: JobPtr, ghost start: Totals, ghost service: string, ghost before: nat)
      returns (fate: Fate, ghost log: PassLog)
      requires service == job.rec.service && before == Requeues(job.rec.nzoId)
      requires Valid() && Active(job) && holding && start == SoFar() && ctx != Expired
      requires deadline == if jobTimeout > 0 then Some(now + 2 * jobTimeout) else None
      modifies this`now, this`ctx, this`othersLeft, this`invocations, this`requeues, this`failures,
          this`answers, this`pauses, this`rerun, this`dirs
      modifies this`holding, board, breaker, breakGate, job, queue
      ensures Valid() && !holding
      ensures old(now) <= now && othersLeft <= old(othersLeft) && old(breakGate.until) <= breakGate.until
      ensures job.rec.nzoId == old(job.rec.nzoId) && OtherRowsKept(old(queue.rows), queue.rows, job.rec.nzoId)
      ensures dirs == old(dirs) + [!fate.NotStarted?]
      ensures OtherCountersKept(old(requeues), requeues, job.rec.nzoId)
      ensures Ended(Site(), Now(job), fate, log, service, start, before)
      ensures !fate.PutBackInQueue? ==> rerun == old(rerun)
      ensures ctx == Expired ==> jobTimeout > 0 && now >= old(now) + 2 * jobTimeout
    {
      fate, log := RunInSlot(job, service, start, before);
      ghost var v := Now(job);
      holding := false;
      assert Now(job) == v;
    }

    // ---------- A worker ----------

    ghost function RowOf(nzoId: string): Option<Row>
      reads queue
    {
      if nzoId in queue.rows then Some(queue.rows[nzoId]) else None
    }

    /** One pass as the worker's log has it. */
    method TakeTurn(row: Job) returns (ghost turn: Turn)
      requires Valid() && !holding && !onBoard && !rerun
      requires row.nzoId in queue.rows && queue.rows[row.nzoId] == Row(row, false)
      modifies this`now, this`ctx, this`othersLeft, this`invocations, this`requeues, this`failures,
          this`answers, this`pauses, this`rerun, this`dirs
      modifies this`holding, this`deadline, this`published, this`onBoard, board, breaker, breakGate, queue
      ensures Valid() && !holding && !onBoard
      ensures turn.service == row.service && turn.counter == old(Requeues(row.nzoId)) && GoodTurn(Site(), turn)
      ensures OtherRowsKept(old(queue.rows), queue.rows, row.nzoId)
      ensures OtherCountersKept(old(requeues), requeues, row.nzoId)
      ensures Made() == Adds(old(Made()), turn, Park())
      ensures queue.healthy ==> Settled(RowOf(row.nzoId), ctx == Alive, turn.fate)
      ensures rerun <==> turn.fate == Some(PutBackInQueue)
      ensures !turn.asked && othersLeft <= old(othersLeft)
      ensures match turn.fate
              case None => queue.rows == old(queue.rows) && requeues == old(requeues)
              case Some(PutBackInQueue) =>
                InQueue(RowOf(row.nzoId)) && turn.counter < Requeues(row.nzoId) <= MAX_COOLDOWN_REQUEUES
              case Some(_) => Requeues(row.nzoId) == 0
    {
      var job := new JobPtr(row);
      var fate;
      ghost var log, start;
      fate, log, start := ProcessDownload(job);
      turn := Turn(row.service, old(Requeues(row.nzoId)), fate, [], false);
      if fate.Some? && !fate.value.NotStarted? {
        turn := turn.(visits := log.visits);
        WalkReports(log.visits, log.totals, row.service, Chain(row.service), supported, Park(), start);
      }
    }

    /** Whether the worker goes on: its passes so far, the row and the counter say so. */
    ghost predicate GoingOn(nzoId: string, turns: seq<Turn>, before: nat)
      reads this`ctx, this`requeues, queue
    {
      && (nzoId in queue.rows ==> queue.rows[nzoId].job.nzoId == nzoId)
      && WorkerGoesOn(Site(), RowOf(nzoId), Requeues(nzoId), ctx == Alive, turns, before)
    }

    ghost function Made(): Record
      reads this`failures, this`answers, this`invocations, this`dirs
    {
      Record(failures, answers, invocations, dirs)
    }

    /** The worker's log so far: good passes, and what they added to the record. */
    ghost predicate Logged(turns: seq<Turn>, before: Record)
      reads this`failures, this`answers, this`invocations, this`dirs
    {
      GoodTurns(Site(), turns) && Made() == DoneBy(turns, before, Park())
    }

    /** A caller may ask for the job. Nobody looks at the flag while a pass is on, so an ask made
    during the pass is as good as one made at its end. */
    method OthersAsk() returns (asked: bool)
      modifies this`rerun, this`othersLeft
      ensures rerun <==> old(rerun) || asked
      ensures othersLeft == old(othersLeft) - (if asked then 1 else 0)
    {
      asked := *;
      if othersLeft == 0 {
        asked := false;
      }
      if asked {
        rerun, othersLeft := true, othersLeft - 1;
      }
    }

    /** takeRerun, and retireJob's second look at the flag. */
    method TakeRerun() returns (again: bool, asked: bool)
      modifies this`rerun, this`othersLeft
      ensures !rerun && (again <==> old(rerun) || asked)
      ensures othersLeft <= old(othersLeft) - (if asked then 1 else 0)
    {
      asked := OthersAsk();
      again := rerun;
      rerun := false;
      if !again {
        asked := OthersAsk();
        again := rerun;
        rerun := false;
      }
    }

    /** A pass over the row just loaded, and the look at the re-run flag after it. */
    method ServeFound(row: Job, ghost turns: seq<Turn>, ghost before: nat, ghost f: Record)
      returns (again: bool, ghost turn: Turn)
      requires Valid() && !holding && !onBoard && !rerun
      requires row.nzoId in queue.rows && queue.rows[row.nzoId] == Row(row, false)
      requires AllGoOn(Site(), turns, before, Requeues(row.nzoId)) && Logged(turns, f)
      modifies this`now, this`ctx, this`othersLeft, this`invocations, this`requeues, this`failures,
          this`answers, this`pauses, this`rerun, this`dirs
      modifies this`holding, this`deadline, this`published, this`onBoard, board, breaker, breakGate, queue
      ensures Valid() && !holding && !onBoard && !rerun && Logged(turns + [turn], f)
      ensures OtherRowsKept(old(queue.rows), queue.rows, row.nzoId)
      ensures OtherCountersKept(old(requeues), requeues, row.nzoId)
      ensures othersLeft + (if turn.asked then 1 else 0) <= old(othersLeft)
      ensures again <==> turn.fate == Some(PutBackInQueue) || turn.asked
      ensures turn.fate == Some(PutBackInQueue) ==>
                old(Requeues(row.nzoId)) < Requeues(row.nzoId) <= MAX_COOLDOWN_REQUEUES
      ensures if again then
                WorkerGoesOn(Site(), RowOf(row.nzoId), Requeues(row.nzoId), ctx == Alive, turns + [turn], before)
              else WorkerEnds(Site(), RowOf(row.nzoId), ctx == Alive, turns + [turn], before)
    {
      turn := TakeTurn(row);
      var asked;
      again, asked := TakeRerun();
      AppendTurn(Site(), turns, turn, asked, f, Made());
      turn := turn.(asked := asked);
      OnePassMore(Site(), RowOf(row.nzoId), Requeues(row.nzoId), ctx == Alive, turns, turn, before);
    }

    /** One turn of the worker's loop: reload the row, run a pass, take the re-run flag. */
    method ServeOnce(nzoId: string, ghost turns: seq<Turn>, ghost before: nat, ghost f: Record)
      returns (again: bool, ghost turns': seq<Turn>)
      requires Valid() && !holding && !onBoard && !rerun && GoingOn(nzoId, turns, before) && Logged(turns, f)
      modifies this`now, this`ctx, this`othersLeft, this`invocations, this`requeues, this`failures,
          this`answers, this`pauses, this`rerun, this`dirs
      modifies this`holding, this`deadline, this`published, this`onBoard, board, breaker, breakGate, queue
      ensures Valid() && !holding && !onBoard && !rerun && Logged(turns', f)
      ensures OtherRowsKept(old(queue.rows), queue.rows, nzoId) && OtherCountersKept(old(requeues), requeues, nzoId)
      ensures othersLeft + Asks(turns') <= old(othersLeft) + Asks(turns)
      ensures again ==> GoingOn(nzoId, turns', before)
      ensures again ==>
                || othersLeft < old(othersLeft)
                || (othersLeft == old(othersLeft) && old(Requeues(nzoId)) < Requeues(nzoId) <= MAX_COOLDOWN_REQUEUES)
      ensures !again ==> WorkerEnds(Site(), RowOf(nzoId), ctx == Alive, turns', before)
    {
      var row := queue.Get(nzoId);
      if row.None? {
        return false, turns;
      }
      ghost var turn;
      again, turn := ServeFound(row.value, turns, before, f);
      AsksMore(turns, turn);
      turns' := turns + [turn];
    }

    /** A worker runs its job for as long as its passes put the job back, or callers ask for it:
    at most until the requeue counter has reached its bound and the asks run out. To the table
    it is a lifetime that keeps every recovery counter. */
    method RunJob(nzoId: string) returns (ghost turns: seq<Turn>)
      requires Valid() && !holding && !onBoard && !rerun && WellFormed(queue.rows)
      modifies this`now, this`ctx, this`othersLeft, this`invocations, this`requeues, this`failures,
          this`answers, this`pauses, this`rerun, this`dirs
      modifies this`holding, this`deadline, this`published, this`onBoard, board, breaker, breakGate, queue
      ensures Valid() && !holding && !onBoard && !rerun && Logged(turns, old(Made()))
      ensures OtherRowsKept(old(queue.rows), queue.rows, nzoId) && OtherCountersKept(old(requeues), requeues, nzoId)
      ensures WorkerEnds(Site(), RowOf(nzoId), ctx == Alive, turns, old(Requeues(nzoId)))
      ensures Asks(turns) <= old(othersLeft) - othersLeft
      ensures forall k :: LifetimeOf(old(queue.rows), queue.rows, k)
    {
      turns := [];
      ghost var before, f := Requeues(nzoId), Made();
      var again := true;
      while again
        invariant Valid() && !holding && !onBoard && !rerun && Logged(turns, f)
        invariant OtherRowsKept(old(queue.rows), queue.rows, nzoId) && OtherCountersKept(old(requeues), requeues, nzoId)
        invariant othersLeft + Asks(turns) <= old(othersLeft)
        invariant again ==> GoingOn(nzoId, turns, before)
        invariant !again ==> WorkerEnds(Site(), RowOf(nzoId), ctx == Alive, turns, before)
        decreases again, othersLeft, MAX_COOLDOWN_REQUEUES - Requeues(nzoId)
      {
        again, turns := ServeOnce(nzoId, turns, before, f);
      }
      forall k ensures LifetimeOf(old(queue.rows), queue.rows, k) {
        KeptIsALifetime(old(queue.rows), queue.rows, nzoId, k);
      }
    }
  }

  /** The cap without a primary to close is reached: a deployment that has only the fallback "b"
  of a job for "a", with a threshold of one, and a worker that lets "b" fail at the end of each
  cooldown. At every instant `t`, at the cap too, the one candidate is open by the calls made
  until then, the last at `last`, and resetting "a" leaves it so. */
  lemma CapWithoutPrimary(cooldown: nat, last: nat, t: int, other: nat, me: nat)
    requires last <= t < last + cooldown
    ensures var calls := B.Rounds("b", cooldown, last, other);
            && CandidatesOf(["b"], "a", {"b"}) == ["b"]
            && (forall c | c in calls :: c.at <= t)
            && B.OpenThrough(calls, ["b"], 1, cooldown, t, last + cooldown)
            && B.OpenThrough(calls + [B.Call(t, "a", B.Op.Reset, me)], ["b"], 1, cooldown, t, last + cooldown)
  {
    B.RoundsKeepOpen("b", cooldown, last, other);
    B.RoundsAreOver("b", cooldown, last, other);
    B.StreakAppend(B.Rounds("b", cooldown, last, other), B.Call(t, "a", B.Op.Reset, me), "b", 1, cooldown);
    assert ["b"][..0] == [];
  }
}
