/** What becomes of a job: what can be seen of it when a pass is over, and the theorems about
every pass and every run of passes. The engine in Handler.dfy is proved to end only so
(internal/api/sabnzbd/handler.go concludeFailedAttempts and its helpers). */
module Verdict {
  import opened UpstreamBreak
  import opened Failure
  import opened Pass
  import opened JobTable
  import B = Breaker
  import D = Drains

  /** What ctx.Err() says. */
  datatype Ctx = Alive | Expired | Cancelled

  /** What a deployment is given: the configured fallbacks, the services it can serve, the pause
  for a rate limit, and whether no write to its table is ever lost. */
  datatype Deployment = Deployment(fallbacks: seq<string>, supported: set<string>, park: int, healthy: bool) {
    ghost function Chain(service: string): seq<string> {
      ChainOf(fallbacks, service, supported)
    }

    ghost function Candidates(service: string): seq<string> {
      CandidatesOf(fallbacks, service, supported)
    }
  }

  /** Only the row of job `id` may differ, and neither in its name nor in its recovery counter. */
  ghost predicate OtherRowsKept(before: Table, after: Table, id: string) {
    && after.Keys == before.Keys && after - {id} == before - {id}
    && (id in before ==>
          && after[id].job.nzoId == before[id].job.nzoId
          && after[id].job.recoverCount == before[id].job.recoverCount)
  }

  lemma KeptIsALifetime(before: Table, after: Table, id: string, k: string)
    requires OtherRowsKept(before, after, id)
    ensures LifetimeOf(before, after, k)
  {
    if k in after && k != id {
      assert (after - {id})[k] == (before - {id})[k];
    }
  }

  /** Only the counter of job `id` may differ. */
  ghost predicate OtherCountersKept(before: map<string, nat>, after: map<string, nat>, id: string) {
    before - {id} == after - {id}
  }

  /** Queued, with no trace of an earlier run. */
  ghost predicate AsNew(rec: Job) {
    && rec.status == Queued && rec.errorMessage == NoError && rec.percentage == 0
    && rec.completedAt == None && rec.startedAt == None
  }

  /** What a requeue makes of a job: the rest of it stays. */
  ghost function AsQueued(rec: Job): Job {
    rec.(status := Queued, errorMessage := NoError, percentage := 0, completedAt := None, startedAt := None)
  }

  /** Completed, at a known time, with nothing left to fetch. */
  ghost predicate AsDone(rec: Job) {
    rec.status == Completed && rec.percentage == 100 && rec.sizeleft == 0 && rec.completedAt.Some?
  }

  /** What the verdict announces to the gate: nothing, or just the pause `f` asks for; and, unless
  a write is lost, that one exactly when there is one and the job does not go straight back. */
  ghost predicate VerdictPauses(before: seq<int>, after: seq<int>, f: Findings, park: int, straightBack: bool,
      healthy: bool) {
    && (after == before || (CooldownOf(f, park).Some? && after == before + [CooldownOf(f, park).value]))
    && (healthy ==> (after != before <==> CooldownOf(f, park).Some? && !straightBack))
  }

  /** A pause announced is one the gate keeps from now on. */
  ghost predicate Kept(before: seq<int>, after: seq<int>, f: Findings, park: int, until: int, now: int) {
    after != before && CooldownOf(f, park).Some? ==> until >= now + CooldownOf(f, park).value
  }

  /** What can be seen of a job and its worker at one instant: the worker's copy, the row, the
  requeue counter, the context and flag, and what has been reported so far. */
  datatype View = View(
    rec: Job, row: Option<Row>, counter: Option<nat>, ctx: Ctx, rerun: bool,
    failures: seq<string>, answers: seq<B.Answer>, pauses: seq<int>, invocations: seq<D.BackendRun>,
    until: int, now: int)

  /** How a pass that held a slot ended. */
  datatype Fate = NotStarted | DeliveredRelease | PutBackInQueue | GivenUp

  /** The last error, prefixed when the budget had run out. */
  ghost function Worded(err: ErrMsg, exhausted: bool): (e: ErrMsg)
    ensures Found(e) == Found(err)
  {
    if exhausted then BudgetExhausted(err) else err
  }

  /** What a pass did: its visits, what they add up to, and whether it was judged untried and
  out of budget. */
  datatype PassLog = PassLog(visits: Visits, totals: Totals, untried: bool, exhausted: bool) {
    /** The error a pass that delivered nothing ends on. */
    ghost function LastWords(): ErrMsg
      requires totals.lastErr.Some?
    {
      Worded(totals.lastErr.value, exhausted)
    }

    /** Whether its chain announced a pause that the verdict still acts on. */
    ghost function Announced(): bool {
      totals.cooled && !exhausted
    }
  }

  /** One pass of a worker: the service and the requeue counter it started with, how it ended
  (no fate when the wait was cancelled), its visits, and whether a caller's ask made the worker
  go on. */
  datatype Turn = Turn(service: string, counter: nat, fate: Option<Fate>, visits: Visits, asked: bool)

  /** Everything one worker has reported to the breaker, been told by it, had the backend run, and
  heard from the storage about job directories, in order. */
  datatype Record = Record(
    failures: seq<string>, answers: seq<B.Answer>, invocations: seq<D.BackendRun>, dirs: seq<bool>)

  /** Whether the job's directory could be made, of a pass that got so far as to need it. */
  ghost function DirsOf(turn: Turn): seq<bool> {
    if turn.fate.None? then [] else [turn.fate != Some(NotStarted)]
  }

  /** What a pass adds to the record. */
  ghost function Adds(r: Record, turn: Turn, park: int): Record {
    Record(r.failures + Blames(turn.visits, park), r.answers + Answers(turn.visits),
      r.invocations + Invoked(turn.visits), r.dirs + DirsOf(turn))
  }

  ghost function DoneBy(turns: seq<Turn>, before: Record, park: int): Record {
    if turns == [] then before
    else Adds(DoneBy(turns[..|turns| - 1], before, park), turns[|turns| - 1], park)
  }

  /** Every answer the breaker gave the passes of one worker, in order. */
  ghost function AllAnswers(turns: seq<Turn>): seq<B.Answer> {
    if turns == [] then [] else AllAnswers(turns[..|turns| - 1]) + Answers(turns[|turns| - 1].visits)
  }

  /** The record of a worker's passes holds their reports and the breaker's answers to them. */
  lemma {:induction false} RecordAddsUp(turns: seq<Turn>, before: Record, park: int)
    ensures DoneBy(turns, before, park).failures == before.failures + AllBlames(turns, park)
    ensures DoneBy(turns, before, park).answers == before.answers + AllAnswers(turns)
  {
    if turns != [] {
      var n := |turns| - 1;
      RecordAddsUp(turns[..n], before, park);
      Assoc(before.failures, AllBlames(turns[..n], park), Blames(turns[n].visits, park));
      Assoc(before.answers, AllAnswers(turns[..n]), Answers(turns[n].visits));
    }
  }

  /** Every failure the passes of one worker reported to the breaker, in order. */
  ghost function AllBlames(turns: seq<Turn>, park: int): seq<string> {
    if turns == [] then []
    else AllBlames(turns[..|turns| - 1], park) + Blames(turns[|turns| - 1].visits, park)
  }

  /** Why a worker goes on after a pass that left the counter at `after`: it put the job back, or
  a caller asked for one whose wait was cancelled; or, with a write lost, for one that ended. */
  ghost predicate GoesOn(c: Deployment, turn: Turn, after: nat) {
    match turn.fate
    case Some(PutBackInQueue) => turn.counter < after <= MAX_COOLDOWN_REQUEUES
    case None => turn.asked && after == turn.counter
    case Some(_) => turn.asked && !c.healthy && after == 0
  }

  /** The worker went on after every one of these passes; the counter went from `before` to
  `after`. */
  ghost predicate AllGoOn(c: Deployment, turns: seq<Turn>, before: nat, after: nat) {
    if turns == [] then after == before
    else
      var last := turns[|turns| - 1];
      GoesOn(c, last, after) && AllGoOn(c, turns[..|turns| - 1], before, last.counter)
  }

  /** The row of a job after a pass that ended so. */
  ghost predicate Settled(row: Option<Row>, alive: bool, fate: Option<Fate>) {
    && row.Some?
    && match fate
       case None => !row.value.isHistory && !alive
       case Some(DeliveredRelease) => row.value.isHistory && AsDone(row.value.job)
       case Some(PutBackInQueue) => !row.value.isHistory && AsNew(row.value.job)
       case Some(_) => row.value.isHistory && row.value.job.status == Failed && row.value.job.completedAt.Some?
  }

  ghost predicate InQueue(row: Option<Row>) {
    row.Some? && !row.value.isHistory
  }

  /** What a worker that has made these passes leaves behind: none, if the job was not in
  the queue; otherwise it went on after every pass but the last, and that one did not put the
  job back, and settled it. */
  ghost predicate WorkerEnds(c: Deployment, row: Option<Row>, alive: bool, turns: seq<Turn>, before: nat) {
    if turns == [] then !InQueue(row)
    else
      var n := |turns| - 1;
      && turns[n].fate != Some(PutBackInQueue) && AllGoOn(c, turns[..n], before, turns[n].counter)
      && (c.healthy ==> Settled(row, alive, turns[n].fate))
  }

  /** The job is in the queue for the next pass; or it is not, and the worker is about to see
  that. */
  ghost predicate WorkerGoesOn(c: Deployment, row: Option<Row>, counter: nat, alive: bool, turns: seq<Turn>,
      before: nat) {
    if InQueue(row) then AllGoOn(c, turns, before, counter) else WorkerEnds(c, row, alive, turns, before)
  }

  /** One pass more: the worker goes on if it put the job back or was asked, and ends otherwise. */
  lemma OnePassMore(c: Deployment, row: Option<Row>, counter: nat, alive: bool, turns: seq<Turn>, turn: Turn,
                    before: nat)
    requires AllGoOn(c, turns, before, turn.counter)
    requires row.Some? && (c.healthy ==> Settled(row, alive, turn.fate))
    requires match turn.fate
             case None => InQueue(row) && counter == turn.counter
             case Some(PutBackInQueue) => InQueue(row) && turn.counter < counter <= MAX_COOLDOWN_REQUEUES
             case Some(_) => counter == 0
    ensures if turn.fate == Some(PutBackInQueue) || turn.asked
            then WorkerGoesOn(c, row, counter, alive, turns + [turn], before)
            else WorkerEnds(c, row, alive, turns + [turn], before)
  {
    assert (turns + [turn])[..|turns|] == turns;
  }

  /** How many of these passes put the job back. */
  ghost function PutBacks(turns: seq<Turn>): nat {
    if turns == [] then 0
    else
      var n := |turns| - 1;
      PutBacks(turns[..n]) + (if turns[n].fate == Some(PutBackInQueue) then 1 else 0)
  }

  /** How many of them a caller's ask made the worker follow by another. */
  ghost function Asks(turns: seq<Turn>): nat {
    if turns == [] then 0
    else
      var n := |turns| - 1;
      Asks(turns[..n]) + (if turns[n].asked then 1 else 0)
  }

  lemma AsksMore(turns: seq<Turn>, turn: Turn)
    ensures Asks(turns + [turn]) == Asks(turns) + (if turn.asked then 1 else 0)
  {
    assert (turns + [turn])[..|turns|] == turns;
  }

  /** Between two clearings of its counter a job is put back at most twenty times, whatever
  the kinds of the requeues and however often it is asked for meanwhile. */
  lemma {:induction false} RequeuesRunOut(c: Deployment, turns: seq<Turn>, before: nat, after: nat)
    requires AllGoOn(c, turns, before, after)
    requires forall turn | turn in turns :: turn.fate == None || turn.fate == Some(PutBackInQueue)
    ensures before + PutBacks(turns) <= after
    ensures PutBacks(turns) > 0 ==> after <= MAX_COOLDOWN_REQUEUES
  {
    if turns != [] {
      RequeuesRunOut(c, turns[..|turns| - 1], before, turns[|turns| - 1].counter);
    }
  }

  /** When no write is lost, the passes a worker makes are bounded by the requeues its job had
  left and the asks of callers: there is one pass more than these at most. */
  lemma {:induction false} PassesAreBounded(c: Deployment, turns: seq<Turn>, before: nat, after: nat)
    requires c.healthy && AllGoOn(c, turns, before, after)
    ensures forall turn | turn in turns :: turn.fate == None || turn.fate == Some(PutBackInQueue)
    ensures |turns| <= PutBacks(turns) + Asks(turns)
    ensures |turns| <= (if before < MAX_COOLDOWN_REQUEUES then MAX_COOLDOWN_REQUEUES - before else 0) + Asks(turns)
  {
    if turns != [] {
      PassesAreBounded(c, turns[..|turns| - 1], before, turns[|turns| - 1].counter);
    }
    RequeuesRunOut(c, turns, before, after);
  }

  /** So is a worker's whole run. */
  lemma RunIsBounded(c: Deployment, row: Option<Row>, alive: bool, turns: seq<Turn>, before: nat)
    requires c.healthy && WorkerEnds(c, row, alive, turns, before)
    ensures |turns| <= 1 + (if before < MAX_COOLDOWN_REQUEUES then MAX_COOLDOWN_REQUEUES - before else 0) + Asks(turns)
  {
    if turns != [] {
      var n := |turns| - 1;
      PassesAreBounded(c, turns[..n], before, turns[n].counter);
    }
  }

  /** And this is what it leaves: never a row that is Downloading, when no write is lost. */
  lemma RunLeaves(c: Deployment, row: Option<Row>, alive: bool, turns: seq<Turn>, before: nat)
    requires c.healthy && WorkerEnds(c, row, alive, turns, before) && turns != []
    ensures row.Some?
    ensures var fate, r := turns[|turns| - 1].fate, row.value;
            match fate
            case None => !r.isHistory && !alive
            case Some(DeliveredRelease) =>
              && r.isHistory && r.job.status == Completed && r.job.percentage == 100 && r.job.sizeleft == 0
              && r.job.completedAt.Some?
            case Some(PutBackInQueue) => false
            case Some(_) => r.isHistory && r.job.status == Failed && r.job.completedAt.Some?
  {
  }

  lemma {:induction false} BlamesAddUp(turns: seq<Turn>, park: int, s: string, k: nat)
    requires forall i | 0 <= i < |turns| :: Count(Blames(turns[i].visits, park), s) <= k
    ensures Count(AllBlames(turns, park), s) <= |turns| * k
  {
    if turns != [] {
      var n := |turns| - 1;
      BlamesAddUp(turns[..n], park, s, k);
      CountConcat(AllBlames(turns[..n], park), Blames(turns[n].visits, park), s);
      OneMore(n, k);
    }
  }

  lemma OneMore(n: nat, k: nat)
    ensures (n + 1) * k == n * k + k
  {
  }

  // ---------- One pass ----------

  /** The job is back in the queue, its worker asked to run again, its counter higher than
  `before` and within the bound. */
  ghost predicate Requeued(v: View, before: nat) {
    && v.rerun && AsNew(v.rec) && v.row == Some(Row(v.rec, false))
    && v.counter.Some? && before < v.counter.value <= MAX_COOLDOWN_REQUEUES
  }

  /** The job is in the history as Failed with a reason, its requeue counter gone. */
  ghost predicate NowFailed(c: Deployment, v: View) {
    && v.counter == None && v.row.Some?
    && v.rec.status == Failed && v.rec.errorMessage.Reason? && v.rec.completedAt.Some?
    && (c.healthy ==> v.row == Some(Row(v.rec, true)))
  }

  /** How often a message says that the job gave up. */
  function GaveUps(e: ErrMsg): nat {
    match e
    case GaveUp(_, inner) => 1 + GaveUps(inner)
    case BudgetExhausted(inner) => GaveUps(inner)
    case _ => 0
  }

  /** The message behind any give-up prefixes. */
  function Behind(e: ErrMsg): ErrMsg {
    match e
    case GaveUp(_, inner) => Behind(inner)
    case _ => e
  }

  /** What giving up after an announced pause with counter `n` makes of a message. */
  ghost function SaidFirst(err: ErrMsg, announced: bool, n: nat): (e: ErrMsg)
    ensures Found(e) == Found(err)
  {
    if announced && n >= MAX_COOLDOWN_REQUEUES then GaveUp(n, err) else err
  }

  /** What giving up on a pause the message carries makes of it. */
  ghost function SaidLast(err: ErrMsg, park: int, n: nat): (e: ErrMsg)
    ensures Found(e) == Found(err)
  {
    if Carries(err, park) && n >= MAX_COOLDOWN_REQUEUES then GaveUp(n, err) else err
  }

  /** What a job fails with that ends on `err` with counter `n`: an announced pause and one the
  message carries have a count and a prefix each. */
  ghost function Said(err: ErrMsg, announced: bool, park: int, n: nat): (e: ErrMsg)
    ensures Found(e) == Found(err)
  {
    SaidLast(SaidFirst(err, announced, n), park, if announced then n + 1 else n)
  }

  /** Said once when it gives up, twice if and only if it gives up after an announced pause, and
  not at all otherwise; the patterns still find what they found. */
  lemma SaidTwiceIff(err: ErrMsg, announced: bool, park: int, n: nat)
    requires announced ==> Carries(err, park)
    ensures var said := GaveUps(Said(err, announced, park, n)) - GaveUps(err);
            && (said == 2 <==> announced && n >= MAX_COOLDOWN_REQUEUES)
            && (said == 0 <==> !Carries(err, park) || n + (if announced then 1 else 0) < MAX_COOLDOWN_REQUEUES)
            && 0 <= said <= 2
  {
  }

  /** Requeued or failed, by the rule of `PutBack` on what the last error asks for and the
  counter the pass started with; a failed job says why. */
  ghost predicate Decided(c: Deployment, v: View, requeued: bool, untried: bool, err: ErrMsg, announced: bool,
      before: nat) {
    var carries := Carries(err, c.park);
    && (requeued ==> PutBack(untried, carries, before) && Requeued(v, before))
    && (c.healthy && PutBack(untried, carries, before) ==> requeued)
    && (!requeued ==>
          && NowFailed(c, v)
          && v.rec.errorMessage.msg == Said(err, announced, c.park, if untried then before + 1 else before))
  }

  /** The first chance, taken. */
  lemma FirstChanceDecides(c: Deployment, v: View, untried: bool, err: ErrMsg, announced: bool, before: nat)
    requires announced && Carries(err, c.park) && !untried && before < MAX_COOLDOWN_REQUEUES && Requeued(v, before)
    ensures Decided(c, v, true, untried, err, announced, before)
    ensures VerdictPauses(v.pauses, v.pauses, Found(err), c.park, StraightBack(untried, announced, before), c.healthy)
  {
  }

  /** The second, taken or not: what becomes of the job ... */
  lemma LastChanceDecides(c: Deployment, v: View, requeued: bool, untried: bool, err: ErrMsg, announced: bool,
                          before: nat, lastErr: ErrMsg, counter: nat)
    requires announced ==> Carries(err, c.park) && !untried
    requires c.healthy && untried ==> before >= MAX_UNATTEMPTED_REQUEUES
    requires c.healthy && announced ==> before >= MAX_COOLDOWN_REQUEUES
    requires counter == before + (if untried || announced then 1 else 0) && lastErr == SaidFirst(err, announced, before)
    requires requeued ==> Carries(lastErr, c.park) && counter < MAX_COOLDOWN_REQUEUES && Requeued(v, counter)
    requires c.healthy && Carries(lastErr, c.park) && counter < MAX_COOLDOWN_REQUEUES ==> requeued
    requires !requeued ==> NowFailed(c, v) && v.rec.errorMessage.msg == SaidLast(lastErr, c.park, counter)
    ensures Decided(c, v, requeued, untried, err, announced, before)
  {
  }

  /** ... and what is announced. */
  lemma LastChanceAnnounces(c: Deployment, v: View, pauses: seq<int>, f: Findings, straightBack: bool)
    requires c.healthy ==> !straightBack
    requires v.pauses == if CooldownOf(f, c.park).Some? then pauses + [CooldownOf(f, c.park).value] else pauses
    requires CooldownOf(f, c.park).Some? ==> v.until >= v.now + CooldownOf(f, c.park).value
    ensures VerdictPauses(pauses, v.pauses, f, c.park, straightBack, c.healthy)
    ensures Kept(pauses, v.pauses, f, c.park, v.until, v.now)
  {
  }

  /** Everything that is true of a pass that held a slot, given the service, the reports and
  the requeue counter it started with. */
  ghost predicate Ended(c: Deployment, v: View, fate: Fate, log: PassLog, service: string, start: Totals, before: nat) {
    match fate
    case NotStarted =>
      && NowFailed(c, v) && v.rec.errorMessage == Reason(PrepareFailed)
      && v.failures == start.failures && v.answers == start.answers && v.pauses == start.pauses
      && v.invocations == start.invocations
    case DeliveredRelease =>
      && Walked(c, v, log.visits, log.totals, service, start) && log.totals.delivered && v.pauses == log.totals.pauses
      && v.counter == None && v.row.Some? && AsDone(v.rec) && (c.healthy ==> v.row == Some(Row(v.rec, true)))
    case PutBackInQueue =>
      && Walked(c, v, log.visits, log.totals, service, start) && Undelivered(c, v, log, before)
      && Decided(c, v, true, log.untried, log.LastWords(), log.Announced(), before)
    case GivenUp =>
      && Walked(c, v, log.visits, log.totals, service, start) && Undelivered(c, v, log, before)
      && Decided(c, v, false, log.untried, log.LastWords(), log.Announced(), before)
  }

  /** What an end of a pass means for the job, column by column. */
  lemma EndedMeans(c: Deployment, v: View, fate: Fate, log: PassLog, service: string, start: Totals, before: nat)
    requires Ended(c, v, fate, log, service, start, before)
    ensures fate.DeliveredRelease? ==>
              && v.rec.status == Completed && v.rec.percentage == 100 && v.rec.sizeleft == 0
              && v.rec.completedAt.Some? && v.counter == None && log.totals.delivered
              && (c.healthy ==> v.row == Some(Row(v.rec, true)))
    ensures fate.PutBackInQueue? ==>
              && v.row == Some(Row(v.rec, false)) && v.rec.status == Queued && v.rec.errorMessage == NoError
              && v.rec.percentage == 0 && v.rec.startedAt == None && v.rec.completedAt == None
              && v.rerun && v.counter.Some? && before < v.counter.value <= 20 && !log.totals.delivered
    ensures fate.GivenUp? || fate.NotStarted? ==>
              && v.rec.status == Failed && v.rec.errorMessage.Reason? && v.rec.completedAt.Some?
              && v.counter == None && (c.healthy ==> v.row == Some(Row(v.rec, true)))
    ensures fate.NotStarted? ==>
              && v.rec.errorMessage == Reason(PrepareFailed) && v.invocations == start.invocations
              && v.failures == start.failures && v.answers == start.answers && v.pauses == start.pauses
    ensures fate.GivenUp? ==> !log.totals.delivered
    ensures (fate.GivenUp? || fate.PutBackInQueue?) && log.exhausted ==> v.ctx == Expired
  {
  }

  /** The visits are a good pass over the primary and its chain, to its end; what was reported is what they add up to,
  and the job carries the last service that was given a run. */
  ghost predicate Walked(c: Deployment, v: View, vs: Visits, t: Totals, service: string, start: Totals) {
    && GoodWalk(vs, t, service, c.Chain(service), c.supported, c.park, start) && Complete(vs, c.Chain(service), c.park)
    && v.failures == t.failures && v.answers == t.answers && v.invocations == t.invocations
    && v.until >= t.until && (t.dead ==> v.ctx != Alive)
    && v.rec.service == ServiceNow(t, service)
  }

  /** Why a pass that delivered nothing ended, and what its verdict announced to the gate. */
  ghost predicate Undelivered(c: Deployment, v: View, log: PassLog, before: nat) {
    && !log.totals.delivered && log.totals.lastErr.Some?
    && (log.untried ==> !log.totals.attempted && c.Candidates(v.rec.service) != [])
    && (!log.totals.attempted && c.Candidates(v.rec.service) != [] && v.ctx == Alive ==> log.untried)
    && (log.exhausted ==> v.ctx == Expired)
    && var f := Found(log.totals.lastErr.value);
       && VerdictPauses(log.totals.pauses, v.pauses, f, c.park,
            StraightBack(log.untried, log.Announced(), before), c.healthy)
       && Kept(log.totals.pauses, v.pauses, f, c.park, v.until, v.now)
  }

  lemma DeliveredAtOnce(c: Deployment, v: View, first: Visit, service: string, start: Totals)
    requires GoodFirst(first, service, c.supported, c.park) && Succeeded(first)
    requires !start.delivered && !start.cooled && start.lastErr == None && start.lastRan == None && !start.attempted
    requires var t := Add(start, first, c.park);
             && v.failures == t.failures && v.answers == t.answers && v.invocations == t.invocations
             && v.until >= t.until && (t.dead ==> v.ctx != Alive) && v.rec.service == service
    ensures Walked(c, v, [first], Add(start, first, c.park), service, start)
  {
    FirstVisit(first, service, c.Chain(service), c.supported, c.park, start);
  }

  lemma DeliveredEnds(c: Deployment, v: View, log: PassLog, service: string, start: Totals, before: nat)
    requires Walked(c, v, log.visits, log.totals, service, start) && log.totals.delivered
    requires v.pauses == log.totals.pauses && v.counter == None && v.row.Some? && AsDone(v.rec)
    requires c.healthy ==> v.row == Some(Row(v.rec, true))
    ensures Ended(c, v, DeliveredRelease, log, service, start, before)
  {
  }

  /** The verdict: nothing reported is taken back, and no context comes back to life. */
  ghost predicate Concludes(tried: View, v: View) {
    && v.failures == tried.failures && v.answers == tried.answers && v.invocations == tried.invocations
    && v.until >= tried.until && v.rec.service == tried.rec.service && (tried.ctx != Alive ==> v.ctx != Alive)
  }

  lemma Concluded(c: Deployment, tried: View, v: View, requeued: bool, log: PassLog, service: string, start: Totals,
      before: nat)
    requires Walked(c, tried, log.visits, log.totals, service, start) && Concludes(tried, v)
    requires Undelivered(c, v, log, before)
    requires Decided(c, v, requeued, log.untried, log.LastWords(), log.Announced(), before)
    ensures Ended(c, v, if requeued then PutBackInQueue else GivenUp, log, service, start, before)
  {
  }

  /** What becomes of a job whose walk ended on a pause. */
  lemma PauseDecides(c: Deployment, v: View, fate: Fate, log: PassLog, service: string, start: Totals, before: nat)
    requires Ended(c, v, fate, log, service, start, before) && !fate.NotStarted?
    requires log.totals.attempted && log.totals.lastErr.Some? && Carries(log.totals.lastErr.value, c.park)
    requires !log.totals.delivered
    ensures v.until >= log.totals.until
    ensures c.healthy ==> (fate.PutBackInQueue? <==> before < MAX_COOLDOWN_REQUEUES)
    ensures c.healthy && before >= MAX_COOLDOWN_REQUEUES ==> fate.GivenUp? && v.rec.errorMessage.msg.GaveUp?
  {
  }

  /** A pause announced by any answer of a pass: it was the last call of the pass and no
  service was reported for it, the gate stays shut for at least its length, and the job is
  back in the queue exactly when its counter was below twenty. */
  lemma CooldownVerdict(c: Deployment, v: View, fate: Fate, log: PassLog, service: string, start: Totals, before: nat,
      i: nat, j: nat)
    requires Ended(c, v, fate, log, service, start, before) && !fate.NotStarted? && !start.cooled && !start.delivered
    requires i < |log.visits| && log.visits[i].Ran? && j < |log.visits[i].replies|
    requires log.visits[i].replies[j].Some? && Carries(log.visits[i].replies[j].value, c.park)
    ensures i == |log.visits| - 1 && j == |log.visits[i].replies| - 1
    ensures Blames(log.visits, c.park) == Blames(log.visits[..i], c.park)
    ensures v.until >= log.visits[i].at + CooldownOf(Found(log.visits[i].replies[j].value), c.park).value
    ensures c.healthy ==> (fate.PutBackInQueue? <==> before < MAX_COOLDOWN_REQUEUES)
    ensures c.healthy && before >= MAX_COOLDOWN_REQUEUES ==> fate.GivenUp? && v.rec.errorMessage.msg.GaveUp?
  {
    HeardPause(log.visits, log.totals, service, c.Chain(service), c.supported, c.park, start, i, j);
    PauseDecides(c, v, fate, log, service, start, before);
  }

  /** What a given-up job says: it counts its requeues once more than what it ended on, and twice
  more if and only if its chain announced a pause, the budget lasted, and its counter was spent. */
  lemma GivenUpTwiceIff(c: Deployment, v: View, log: PassLog, service: string, start: Totals, before: nat)
    requires Ended(c, v, GivenUp, log, service, start, before) && !start.cooled
    ensures log.totals.lastErr.Some? && v.rec.errorMessage.Reason?
    ensures var e := log.totals.lastErr.value;
            var said := GaveUps(v.rec.errorMessage.msg) - GaveUps(e);
            && (said == 2 <==> log.totals.cooled && !log.exhausted && before >= MAX_COOLDOWN_REQUEUES)
            && (c.healthy ==> (said == 0 <==> !Carries(e, c.park)))
            && 0 <= said <= 2 && Found(v.rec.errorMessage.msg) == Found(e)
    // behind those prefixes it says what it ended on, and whether the budget had run out
    ensures var e := log.totals.lastErr.value;
            Behind(v.rec.errorMessage.msg) == if log.exhausted then BudgetExhausted(e) else Behind(e)
  {
    if log.totals.cooled {
      CooledCarries(log.visits, log.totals, service, c.Chain(service), c.supported, c.park, start);
    }
    SaidTwiceIff(log.LastWords(), log.Announced(), c.park, if log.untried then before + 1 else before);
  }

  /** A pass that invoked nothing: no service was reported. Its last error asks for a pause
  exactly when it is a stale one, from an earlier run; and that decides, with the counter,
  whether the job goes back and whether the pause is announced to everybody once more. */
  lemma NothingInvokedVerdict(c: Deployment, v: View, fate: Fate, log: PassLog, service: string, start: Totals,
      before: nat)
    requires Ended(c, v, fate, log, service, start, before) && !fate.NotStarted?
    requires start == Start(start.failures, start.answers, start.pauses, start.until, start.invocations)
    requires v.invocations == start.invocations
    ensures !fate.DeliveredRelease? && v.failures == start.failures && !AnyAttempted(log.visits)
    ensures c.healthy ==>
              (fate.PutBackInQueue? <==>
                || (log.untried && before < MAX_UNATTEMPTED_REQUEUES)
                || (Stale(log.visits, c.park) && before + (if log.untried then 1 else 0) < MAX_COOLDOWN_REQUEUES))
    ensures c.healthy ==>
              (v.pauses != start.pauses <==>
                Stale(log.visits, c.park) && !(log.untried && before < MAX_UNATTEMPTED_REQUEUES))
    ensures v.pauses != start.pauses ==>
              && Stale(log.visits, c.park)
              && var d := CooldownOf(log.visits[0].waited.value, c.park).value;
                 v.pauses == start.pauses + [d] && v.until >= v.now + d
  {
    WalkReports(log.visits, log.totals, service, c.Chain(service), c.supported, c.park, start);
    GoodPassMeaning(log.visits, service, c.Chain(service), c.supported, c.park);
    forall i | 0 <= i < |log.visits| && log.visits[i].Ran?
      ensures |log.visits[i].runs| == |log.visits[i].replies|
    {
      assert GoodVisit(log.visits[i], if i == 0 then MAX_ATTEMPTS else 1, c.park);
    }
    AttemptedIsInvoked(log.visits);
    CooledIsLast(log.visits, log.totals, service, c.Chain(service), c.supported, c.park, start);
    UnattemptedReportsNothing(log.visits, log.totals, service, c.Chain(service), c.supported, c.park, start);
    UntriedCarriesIff(log.visits, service, c.Chain(service), c.supported, c.park);
  }

  /** A pass that invoked nothing while its context was alive, of a job some service could
  serve: the job keeps its service, and is back in the queue, with nothing announced, whenever
  its counter was below five. From five on only a stale pause sends it back, and that pause is
  announced again. */
  lemma UntriedVerdict(c: Deployment, v: View, fate: Fate, log: PassLog, service: string, start: Totals, before: nat)
    requires Ended(c, v, fate, log, service, start, before) && !fate.NotStarted?
    requires start == Start(start.failures, start.answers, start.pauses, start.until, start.invocations)
    requires v.ctx == Alive && v.invocations == start.invocations && c.Candidates(service) != []
    ensures !fate.DeliveredRelease? && v.rec.service == service && v.failures == start.failures
    ensures c.healthy && before < MAX_UNATTEMPTED_REQUEUES ==>
              && fate.PutBackInQueue? && v.row == Some(Row(v.rec, false)) && v.rec.status == Queued && v.rerun
              && v.pauses == start.pauses
    ensures c.healthy && before >= MAX_UNATTEMPTED_REQUEUES ==>
              && (fate.PutBackInQueue? <==> Stale(log.visits, c.park) && before + 1 < MAX_COOLDOWN_REQUEUES)
              && (v.pauses != start.pauses <==> Stale(log.visits, c.park))
  {
    NothingInvokedVerdict(c, v, fate, log, service, start, before);
    WalkReports(log.visits, log.totals, service, c.Chain(service), c.supported, c.park, start);
    UnattemptedReportsNothing(log.visits, log.totals, service, c.Chain(service), c.supported, c.park, start);
  }

  /** Such a pass exists: the only service is refused, and its message still carries a rate limit
  from an earlier run. With five requeues behind it the job goes back all the same, nobody has
  been asked for anything, and the gate is shut for everybody. */
  lemma StalePauseInstance(c: Deployment, s: string, rec: Job)
    returns (v: View, log: PassLog, start: Totals)
    requires c.supported == {s} && c.fallbacks == [] && c.park > 0 && rec.service == s && AsNew(rec)
    ensures Ended(c, v, PutBackInQueue, log, s, start, MAX_UNATTEMPTED_REQUEUES)
    ensures start == Start(start.failures, start.answers, start.pauses, start.until, start.invocations)
    ensures v.ctx == Alive && v.invocations == start.invocations && v.failures == start.failures
    ensures v.row == Some(Row(rec, false)) && v.rerun
    ensures v.pauses == start.pauses + [c.park] && start.until <= v.now < v.until
  {
    var f := NOTHING.(rateLimited := true);
    var first := Refused(s, Some(f));
    start := Start([], [], [], 0, []);
    FirstVisit(first, s, c.Chain(s), c.supported, c.park, start);
    log := PassLog([first], Add(start, first, c.park), true, false);
    assert CooldownOf(f, c.park) == Some(c.park);
    v := View(rec, Some(Row(rec, false)), Some(MAX_UNATTEMPTED_REQUEUES + 2), Alive, true,
      [], [B.Answer(s, false)], [c.park], [], c.park, 0);
  }

  // ---------- A worker's passes ----------

  /** The visits are those of a good pass, or there are none. */
  ghost predicate GoodTurn(c: Deployment, turn: Turn) {
    turn.visits == [] || GoodPass(turn.visits, turn.service, c.Chain(turn.service), c.supported, c.park)
  }

  ghost predicate GoodTurns(c: Deployment, turns: seq<Turn>) {
    forall i | 0 <= i < |turns| :: GoodTurn(c, turns[i])
  }

  /** A pass is added to the log, asked for again or not. */
  lemma AppendTurn(c: Deployment, turns: seq<Turn>, turn: Turn, asked: bool, before: Record, r: Record)
    requires GoodTurns(c, turns) && GoodTurn(c, turn) && r == Adds(DoneBy(turns, before, c.park), turn, c.park)
    ensures GoodTurns(c, turns + [turn.(asked := asked)])
    ensures r == DoneBy(turns + [turn.(asked := asked)], before, c.park)
  {
    assert (turns + [turn.(asked := asked)])[..|turns|] == turns;
  }

  /** Some answer of `s` in this pass was its own fault, heard on a live context. */
  ghost predicate FaultIn(c: Deployment, turn: Turn, s: string) {
    exists v :: v in turn.visits && v.service == s
      && v.Ran? && v.live && v.replies != [] && IsFault(v.replies[|v.replies| - 1], c.park)
  }

  ghost predicate Faulted(c: Deployment, turns: seq<Turn>, s: string) {
    exists turn :: turn in turns && FaultIn(c, turn, s)
  }

  /** A worker reports a service exactly for a fault of that service. */
  lemma {:induction false} ReportedMeansFaulted(c: Deployment, turns: seq<Turn>, s: string)
    requires GoodTurns(c, turns)
    ensures s in AllBlames(turns, c.park) <==> Faulted(c, turns, s)
  {
    if turns != [] {
      var n := |turns| - 1;
      var last := turns[n];
      assert GoodTurn(c, last);
      ReportedMeansFaulted(c, turns[..n], s);
      if last.visits != [] {
        BlamesComeFromFaults(last.visits, last.service, c.Chain(last.service), c.supported, c.park, s);
      }
      assert s in Blames(last.visits, c.park) <==> FaultIn(c, last, s);
      assert forall turn :: turn in turns <==> turn in turns[..n] || turn == last;
    }
  }

  /** Whatever any number of workers did over whole runs: a service that never failed by its
  own fault has a closed circuit at every instant, however many jobs failed for other
  reasons. */
  lemma NoFaultNeverOpens(c: Deployment, breaker: B.Breaker, runs: map<nat, seq<Turn>>, s: string, t: int)
    requires breaker.Valid()
    requires forall w {:trigger breaker.Reported(w)} ::
        breaker.Reported(w) == if w in runs then AllBlames(runs[w], c.park) else []
    requires forall w | w in runs :: GoodTurns(c, runs[w]) && !Faulted(c, runs[w], s)
    ensures !breaker.Open(s, t)
  {
    forall w ensures s !in breaker.Reported(w) {
      if w in runs && s in AllBlames(runs[w], c.park) {
        ReportedMeansFaulted(c, runs[w], s);
      }
    }
    breaker.UnreportedNeverOpens(s, t);
  }

  /** Nor is it ever refused to anybody: every pass that came to it was let in. */
  lemma NoFaultNeverRefused(c: Deployment, breaker: B.Breaker, runs: map<nat, seq<Turn>>, s: string, w: nat,
                            turn: Turn, v: Visit)
    requires breaker.Valid()
    requires forall w {:trigger breaker.Reported(w)} ::
        breaker.Reported(w) == if w in runs then AllBlames(runs[w], c.park) else []
    requires forall w | w in runs :: GoodTurns(c, runs[w]) && !Faulted(c, runs[w], s)
    requires w in runs && breaker.Told(w) == AllAnswers(runs[w])
    requires turn in runs[w] && v in turn.visits && v.service == s
    ensures !v.Refused?
  {
    forall w ensures s !in breaker.Reported(w) {
      if w in runs && s in AllBlames(runs[w], c.park) {
        ReportedMeansFaulted(c, runs[w], s);
      }
    }
    breaker.UnreportedIsNeverRefused(s, w);
    if v.Refused? {
      RefusedIsAnswered(turn.visits, v);
      AnsweredInTurns(runs[w], turn, B.Answer(s, false));
    }
  }

  lemma {:induction false} RefusedIsAnswered(vs: Visits, v: Visit)
    requires v in vs && v.Refused?
    ensures B.Answer(v.service, false) in Answers(vs)
  {
    var n := |vs| - 1;
    if v != vs[n] {
      RefusedIsAnswered(vs[..n], v);
    }
  }

  lemma {:induction false} AnsweredInTurns(turns: seq<Turn>, turn: Turn, a: B.Answer)
    requires turn in turns && a in Answers(turn.visits)
    ensures a in AllAnswers(turns)
  {
    var n := |turns| - 1;
    if turn != turns[n] {
      AnsweredInTurns(turns[..n], turn, a);
    }
  }

  /** Over a worker's whole run a service is reported at most once per pass as the primary,
  and at most once per pass for each place it has among the fallbacks. */
  lemma ReportsPerRun(c: Deployment, turns: seq<Turn>, s: string)
    requires GoodTurns(c, turns)
    ensures Count(AllBlames(turns, c.park), s) <= |turns| * Max(1, Count(c.fallbacks, s))
  {
    forall i | 0 <= i < |turns|
      ensures Count(Blames(turns[i].visits, c.park), s) <= Max(1, Count(c.fallbacks, s))
    {
      assert GoodTurn(c, turns[i]);
      ReportsPerTurn(c, turns[i], s);
    }
    BlamesAddUp(turns, c.park, s, Max(1, Count(c.fallbacks, s)));
  }

  lemma ReportsPerTurn(c: Deployment, turn: Turn, s: string)
    requires GoodTurn(c, turn)
    ensures Count(Blames(turn.visits, c.park), s) <= Max(1, Count(c.fallbacks, s))
  {
    if turn.visits != [] {
      ReportsPerPass(turn.visits, turn.service, c.fallbacks, c.supported, c.park, s);
    }
  }
}
