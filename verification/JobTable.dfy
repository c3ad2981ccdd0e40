/** The jobs table (internal/queue/queue.go): crash recovery with a budget, history pruning
by rank, and the single-row operations they rest on. */
module JobTable {
  import opened UpstreamBreak

  datatype Status = Queued | Downloading | Completed | Failed | Paused

  datatype ErrorText = NoError | Reason(msg: ErrMsg) | InterruptedTooOften

  /** A job as the Go struct holds it. */
  datatype Job = Job(
    id: int,
    nzoId: string,
    status: Status,
    service: string,
    size: int,
    sizeleft: int,
    percentage: int,
    timeAdded: int,
    completedAt: Option<int>,
    errorMessage: ErrorText,
    trackCount: int,
    cliOutput: Option<Findings>,
    startedAt: Option<int>,
    progressAt: Option<int>,
    recoverCount: nat)

  /** A row: a job, and whether it has left the queue for the history. */
  datatype Row = Row(job: Job, isHistory: bool)

  /** The table, keyed by its UNIQUE column nzo_id. */
  type Table = map<string, Row>

  const MAX_RECOVERIES: nat := 3

  ghost predicate WellFormed(t: Table) {
    && (forall k | k in t :: t[k].job.nzoId == k)
    && (forall k, l | k in t && l in t && t[k].job.id == t[l].job.id :: k == l)
  }

  /** Tables are built row by row, from nothing: a job with a new name and a new id can be added. */
  lemma AddedIsWellFormed(t: Table, job: Job)
    requires WellFormed(t) && job.nzoId !in t && forall k | k in t :: t[k].job.id != job.id
    ensures WellFormed(map[]) && WellFormed(t[job.nzoId := Row(job, false)])
  {
  }

  predicate Stuck(r: Row) {
    r.job.status == Downloading && !r.isHistory
  }

  // ---------- Recovery ----------

  function FailedByRecovery(r: Row, now: int): Row {
    Row(r.job.(status := Failed, errorMessage := InterruptedTooOften, completedAt := Some(now)), true)
  }

  function RequeuedByRecovery(r: Row): Row {
    r.(job := r.job.(status := Queued, errorMessage := NoError, completedAt := None,
      sizeleft := r.job.size, percentage := 0, cliOutput := None,
      startedAt := None, progressAt := None, recoverCount := r.job.recoverCount + 1))
  }

  /** What recovery makes of one row. */
  ghost function Recovered(r: Row, now: int): Row {
    if !Stuck(r) then r
    else if r.job.recoverCount < MAX_RECOVERIES then RequeuedByRecovery(r)
    else FailedByRecovery(r, now)
  }

  ghost function RecoveredTable(t: Table, now: int): Table {
    map k | k in t :: Recovered(t[k], now)
  }

  ghost function StuckKeys(t: Table): set<string> {
    set k | k in t && Stuck(t[k])
  }

  /** The stuck rows whose recovery budget is spent. */
  function ExhaustedKeys(t: Table): set<string> {
    set k | k in t && Stuck(t[k]) && t[k].job.recoverCount >= MAX_RECOVERIES
  }

  /** The stuck rows that have some budget left. */
  function InterruptedKeys(t: Table): set<string> {
    set k | k in t && Stuck(t[k]) && t[k].job.recoverCount < MAX_RECOVERIES
  }

  /** The first UPDATE: rows whose budget is spent are failed. */
  function FailExhausted(t: Table, exhausted: set<string>, now: int): Table {
    map k | k in t :: if k in exhausted then FailedByRecovery(t[k], now) else t[k]
  }

  /** The second UPDATE: the other interrupted rows are put back. */
  function RequeueInterrupted(t: Table, interrupted: set<string>): Table {
    map k | k in t :: if k in interrupted then RequeuedByRecovery(t[k]) else t[k]
  }

  /** The two statements touch disjoint rows, together all the stuck ones. */
  lemma TwoStatements(t: Table, now: int)
    ensures InterruptedKeys(FailExhausted(t, ExhaustedKeys(t), now)) == InterruptedKeys(t)
    ensures RequeueInterrupted(FailExhausted(t, ExhaustedKeys(t), now), InterruptedKeys(t)) == RecoveredTable(t, now)
    ensures |ExhaustedKeys(t)| + |InterruptedKeys(t)| == |StuckKeys(t)|
  {
    assert StuckKeys(t) == ExhaustedKeys(t) + InterruptedKeys(t);
    assert ExhaustedKeys(t) !! InterruptedKeys(t);
  }

  lemma RecoveredWellFormed(t: Table, now: int)
    requires WellFormed(t)
    ensures WellFormed(RecoveredTable(t, now))
  {
    var r := RecoveredTable(t, now);
    forall k | k in r ensures r[k].job.nzoId == k && r[k].job.id == t[k].job.id {
    }
  }

  /** Recovery column by column: a row that is not both active and Downloading is left alone; of the
  others one with three recoveries behind it is failed into the history, and any other is queued as
  if it had never run, with one recovery more. What identifies and describes the job stays. */
  lemma RecoveryByColumn(t: Table, now: int, k: string)
    requires k in t
    ensures k in RecoveredTable(t, now)
    ensures var was, r := t[k].job, RecoveredTable(t, now)[k];
            if t[k].isHistory || was.status != Downloading then r == t[k]
            else
              && r.job.id == was.id && r.job.nzoId == was.nzoId && r.job.service == was.service
              && r.job.size == was.size && r.job.timeAdded == was.timeAdded && r.job.trackCount == was.trackCount
              && if was.recoverCount >= 3 then
                   && r.isHistory && r.job.status == Failed && r.job.errorMessage == InterruptedTooOften
                   && r.job.completedAt == Some(now) && r.job.recoverCount == was.recoverCount
                   && r.job.sizeleft == was.sizeleft && r.job.percentage == was.percentage
                   && r.job.cliOutput == was.cliOutput && r.job.startedAt == was.startedAt
                   && r.job.progressAt == was.progressAt
                 else
                   && !r.isHistory && r.job.status == Queued && r.job.errorMessage == NoError
                   && r.job.completedAt == None && r.job.recoverCount == was.recoverCount + 1
                   && r.job.sizeleft == was.size && r.job.percentage == 0 && r.job.cliOutput == None
                   && r.job.startedAt == None && r.job.progressAt == None
  {
  }

  lemma RecoveryIsIdempotent(t: Table, now: int, later: int)
    ensures StuckKeys(RecoveredTable(t, now)) == {}
    ensures RecoveredTable(RecoveredTable(t, now), later) == RecoveredTable(t, now)
  {
    var r := RecoveredTable(t, now);
    forall k | k in r ensures !Stuck(r[k]) && Recovered(r[k], later) == r[k] {
    }
  }

  // ---------- Any number of crashes ----------

  /** What one process lifetime may do to job `k` before it crashes: anything, the deletion of
  its row included, as long as a row that is left has kept its recovery counter and no new row
  takes the id. The other rows are of no interest. */
  ghost predicate LifetimeOf(before: Table, after: Table, k: string) {
    k in after ==> k in before && after[k].job.recoverCount == before[k].job.recoverCount
  }

  /** A run of crashes and restarts, as far as job `k` goes: `crashed[i]` is the table the i-th
  crash leaves, the restart at `times[i]` recovers it, and the next lifetime starts from there. */
  ghost predicate CrashRun(crashed: seq<Table>, times: seq<int>, k: string) {
    && |crashed| == |times|
    && forall i | 0 < i < |crashed| :: LifetimeOf(RecoveredTable(crashed[i - 1], times[i - 1]), crashed[i], k)
  }

  /** How often recovery put job `k` back into the queue. */
  ghost function TimesRequeued(crashed: seq<Table>, k: string): nat {
    if crashed == [] then 0
    else
      var t := crashed[|crashed| - 1];
      TimesRequeued(crashed[..|crashed| - 1], k)
      + (if k in t && Stuck(t[k]) && t[k].job.recoverCount < MAX_RECOVERIES then 1 else 0)
  }

  /** Over any number of crashes a job is put back at most MAX_RECOVERIES times, less what it
  had used up before; and as long as it has a row, the counter counts exactly the requeues. */
  lemma {:induction false} RecoveryBudget(crashed: seq<Table>, times: seq<int>, k: string)
    requires crashed != [] && CrashRun(crashed, times, k) && k in crashed[0]
    ensures TimesRequeued(crashed, k) <= MAX_RECOVERIES
    ensures TimesRequeued(crashed, k) > 0 ==>
              crashed[0][k].job.recoverCount + TimesRequeued(crashed, k) <= MAX_RECOVERIES
    ensures var last := RecoveredTable(crashed[|crashed| - 1], times[|crashed| - 1]);
            k in last ==> last[k].job.recoverCount == crashed[0][k].job.recoverCount + TimesRequeued(crashed, k)
  {
    var n := |crashed| - 1;
    if n == 0 {
      assert TimesRequeued(crashed[..0], k) == 0;
    } else {
      RecoveryBudget(crashed[..n], times[..n], k);
      assert LifetimeOf(RecoveredTable(crashed[n - 1], times[n - 1]), crashed[n], k);
    }
  }

  /** What becomes of a job that the last crash leaves stuck: it is failed into the history, with
  a completion time, exactly when the recoveries it came with and those since make up the budget,
  and it is back in the queue otherwise. */
  lemma SpentBudgetFails(crashed: seq<Table>, times: seq<int>, k: string)
    requires crashed != [] && CrashRun(crashed, times, k) && k in crashed[0]
    requires k in crashed[|crashed| - 1] && Stuck(crashed[|crashed| - 1][k])
    ensures var n := |crashed| - 1;
            var last := RecoveredTable(crashed[n], times[n])[k];
            var spent := crashed[0][k].job.recoverCount + TimesRequeued(crashed[..n], k) >= MAX_RECOVERIES;
            && (spent <==> last.isHistory)
            && (spent <==> last.job.status == Failed)
            && (spent ==> last.job.completedAt == Some(times[n]))
            && (!spent ==> last.job.status == Queued)
  {
    var n := |crashed| - 1;
    if n > 0 {
      RecoveryBudget(crashed[..n], times[..n], k);
      assert LifetimeOf(RecoveredTable(crashed[n - 1], times[n - 1]), crashed[n], k);
    }
  }

  // ---------- Pruning ----------

  /** ORDER BY COALESCE(completed_at, time_added) DESC, id DESC: `a` comes before `b`. */
  predicate Newer(a: Job, b: Job) {
    var ka := if a.completedAt.Some? then a.completedAt.value else a.timeAdded;
    var kb := if b.completedAt.Some? then b.completedAt.value else b.timeAdded;
    ka > kb || (ka == kb && a.id > b.id)
  }

  ghost function HistoryKeys(t: Table): set<string> {
    set k | k in t && t[k].isHistory
  }

  /** `m` comes before every other row of `h`. */
  predicate IsNewest(t: Table, h: set<string>, m: string)
    requires h <= t.Keys
  {
    m in h && forall k | k in h && k != m :: Newer(t[m].job, t[k].job)
  }

  /** Distinct ids make the order total: some row comes before all the others. */
  lemma {:induction false} NewestExists(t: Table, h: set<string>) returns (m: string)
    requires WellFormed(t) && h <= t.Keys && h != {}
    ensures IsNewest(t, h, m)
  {
    var x :| x in h;
    var rest := h - {x};
    assert forall k | k in h :: k == x || k in rest;
    if rest == {} {
      m := x;
    } else {
      m := NewestExists(t, rest);
      if Newer(t[x].job, t[m].job) {
        m := x;
      } else {
        assert t[x].job.id != t[m].job.id;
        assert Newer(t[m].job, t[x].job);
      }
    }
  }

  ghost function NewerThan(t: Table, h: set<string>, k: string): set<string>
    requires h <= t.Keys && k in t
  {
    set x | x in h && Newer(t[x].job, t[k].job)
  }

  /** The LIMIT `keep` of that order over the rows `h`: those with fewer than `keep` newer ones. */
  ghost function NewestKeys(t: Table, h: set<string>, keep: nat): (top: set<string>)
    requires h <= t.Keys
    ensures top <= h
  {
    set k | k in h && |NewerThan(t, h, k)| < keep
  }

  lemma NewerThanRest(t: Table, h: set<string>, m: string, k: string)
    requires h <= t.Keys && IsNewest(t, h, m) && k in h && k != m
    ensures |NewerThan(t, h, k)| == |NewerThan(t, h - {m}, k)| + 1
  {
    assert NewerThan(t, h, k) == NewerThan(t, h - {m}, k) + {m};
  }

  /** Taking rows one at a time, the newest first, takes exactly those. */
  lemma TakeNewest(t: Table, h: set<string>, m: string, keep: nat)
    requires h <= t.Keys && keep > 0 && IsNewest(t, h, m)
    ensures NewestKeys(t, h, keep) == {m} + NewestKeys(t, h - {m}, keep - 1)
  {
    assert NewerThan(t, h, m) == {};
    forall k | k in h && k != m
      ensures |NewerThan(t, h, k)| == |NewerThan(t, h - {m}, k)| + 1
    {
      NewerThanRest(t, h, m, k);
    }
  }

  ghost predicate Before(t: Table, a: set<string>, b: set<string>)
    requires a <= t.Keys && b <= t.Keys
  {
    forall x, y | x in a && y in b :: Newer(t[x].job, t[y].job)
  }

  lemma PopNewest(t: Table, h: set<string>, keep: nat) returns (rest: set<string>)
    requires WellFormed(t) && h <= t.Keys && h != {} && keep > 0
    ensures rest < h && |rest| == |h| - 1
    ensures |NewestKeys(t, h, keep)| == |NewestKeys(t, rest, keep - 1)| + 1
  {
    var m := NewestExists(t, h);
    rest := h - {m};
    TakeNewest(t, h, m, keep);
    assert NewestKeys(t, h, keep) == NewestKeys(t, rest, keep - 1) + {m};
  }

  /** What LIMIT means, size: as many rows as asked for if there are that many. */
  lemma {:induction false} NewestKeysSize(t: Table, h: set<string>, keep: nat)
    requires WellFormed(t) && h <= t.Keys
    ensures |NewestKeys(t, h, keep)| == if keep <= |h| then keep else |h|
    decreases keep
  {
    if keep == 0 || h == {} {
      assert NewestKeys(t, h, keep) == {};
    } else {
      var rest := PopNewest(t, h, keep);
      NewestKeysSize(t, rest, keep - 1);
    }
  }

  /** What LIMIT means, rank: every row it takes comes before every row it leaves. */
  lemma NewestKeysRank(t: Table, h: set<string>, keep: nat)
    requires WellFormed(t) && h <= t.Keys
    ensures Before(t, NewestKeys(t, h, keep), h - NewestKeys(t, h, keep))
  {
    forall x, y | x in NewestKeys(t, h, keep) && y in h - NewestKeys(t, h, keep)
      ensures Newer(t[x].job, t[y].job)
    {
      if !Newer(t[x].job, t[y].job) {
        assert t[x].job.id != t[y].job.id;
        SubsetNoLarger(NewerThan(t, h, y), NewerThan(t, h, x));
      }
    }
  }

  /** Rank and size determine the set: nothing else can be kept. */
  lemma RankDetermines(t: Table, h: set<string>, a: set<string>, b: set<string>)
    requires WellFormed(t) && a <= h && b <= h && h <= t.Keys && |a| == |b|
    requires Before(t, a, h - a) && Before(t, b, h - b)
    ensures a == b
  {
    assert a <= b || b <= a;
    if a < b {
      StrictSubsetSmaller(a, b);
    } else if b < a {
      StrictSubsetSmaller(b, a);
    }
  }

  lemma StrictSubsetSmaller<T>(a: set<T>, b: set<T>)
    requires a < b
    ensures |a| < |b|
  {
    assert b == a + (b - a);
    assert |b - a| > 0;
  }

  ghost function Pruned(t: Table, keep: int): Table
    requires WellFormed(t)
  {
    if keep <= 0 then t
    else map k | k in t && (t[k].isHistory ==> k in NewestKeys(t, HistoryKeys(t), keep)) :: t[k]
  }

  lemma PruningKeepsActive(t: Table, keep: int)
    requires WellFormed(t)
    ensures WellFormed(Pruned(t, keep))
    ensures Pruned(t, keep).Keys <= t.Keys
    ensures forall k | k in Pruned(t, keep) :: Pruned(t, keep)[k] == t[k]
    ensures forall k | k in t && !t[k].isHistory :: k in Pruned(t, keep)
    ensures keep > 0 ==> HistoryKeys(Pruned(t, keep)) == NewestKeys(t, HistoryKeys(t), keep)
    ensures keep <= 0 ==> Pruned(t, keep) == t
  {
  }

  /** Every history row kept is younger than every row deleted: it was completed later, or added
  later where it was never completed, or has the greater id at the same time. */
  lemma KeptIsYounger(t: Table, keep: int, a: string, b: string)
    requires WellFormed(t) && a in t && t[a].isHistory && a in Pruned(t, keep) && b in t && b !in Pruned(t, keep)
    ensures keep > 0 && t[b].isHistory
    ensures var at := if t[a].job.completedAt.Some? then t[a].job.completedAt.value else t[a].job.timeAdded;
            var bt := if t[b].job.completedAt.Some? then t[b].job.completedAt.value else t[b].job.timeAdded;
            at > bt || (at == bt && t[a].job.id > t[b].job.id)
  {
    PruningKeepsActive(t, keep);
    PruningKeepsTheNewest(t, keep);
  }

  /** Pruning is something an ordinary lifetime does. */
  lemma PruningIsALifetime(t: Table, keep: int, k: string)
    requires WellFormed(t)
    ensures LifetimeOf(t, Pruned(t, keep), k)
  {
    PruningKeepsActive(t, keep);
  }

  /** The retained history: the min(keep, size) newest rows. */
  lemma PruningKeepsTheNewest(t: Table, keep: int)
    requires WellFormed(t) && keep > 0
    ensures |HistoryKeys(Pruned(t, keep))| == if keep <= |HistoryKeys(t)| then keep else |HistoryKeys(t)|
    ensures forall a, b | a in HistoryKeys(Pruned(t, keep)) && b in t && t[b].isHistory && b !in Pruned(t, keep) ::
              Newer(t[a].job, t[b].job)
  {
    PruningKeepsActive(t, keep);
    NewestKeysSize(t, HistoryKeys(t), keep);
    NewestKeysRank(t, HistoryKeys(t), keep);
  }

  lemma PruningIsIdempotent(t: Table, keep: int)
    requires WellFormed(t)
    ensures WellFormed(Pruned(t, keep)) && Pruned(Pruned(t, keep), keep) == Pruned(t, keep)
  {
    PruningKeepsActive(t, keep);
    if keep > 0 {
      var p := Pruned(t, keep);
      var h := HistoryKeys(p);
      NewestKeysSize(t, HistoryKeys(t), keep);
      NewestKeysSize(p, h, keep);
      var top := NewestKeys(p, h, keep);
      assert top == h by {
        if top != h {
          StrictSubsetSmaller(top, h);
        }
      }
      assert Pruned(p, keep) == p;
    }
  }

  /** Every row just failed comes before the history there was. */
  ghost predicate FailedComeFirst(t: Table, now: int) {
    forall a, b | a in ExhaustedKeys(t) && b in HistoryKeys(t) :: Newer(FailedByRecovery(t[a], now).job, t[b].job)
  }

  /** Rows that recovery has just failed survive any prune that keeps at least as many rows
  as were failed, provided the rest of the history was completed (or, never completed, added)
  earlier, or at the same time with smaller ids. */
  lemma FailedByRecoverySurvivePruning(t: Table, now: int, keep: int, k: string)
    requires WellFormed(t)
    requires k in t && Stuck(t[k]) && t[k].job.recoverCount >= MAX_RECOVERIES
    requires keep >= |ExhaustedKeys(t)|
    requires forall a, b | a in ExhaustedKeys(t) && b in t && t[b].isHistory ::
               var bt := if t[b].job.completedAt.Some? then t[b].job.completedAt.value else t[b].job.timeAdded;
               now > bt || (now == bt && t[a].job.id > t[b].job.id)
    ensures WellFormed(RecoveredTable(t, now))
    ensures k in Pruned(RecoveredTable(t, now), keep)
    ensures Pruned(RecoveredTable(t, now), keep)[k] == FailedByRecovery(t[k], now)
  {
    assert FailedComeFirst(t, now);
    FailedFirstSurvive(t, now, keep, k);
  }

  lemma FailedFirstSurvive(t: Table, now: int, keep: int, k: string)
    requires WellFormed(t) && k in ExhaustedKeys(t) && keep >= |ExhaustedKeys(t)| && FailedComeFirst(t, now)
    ensures WellFormed(RecoveredTable(t, now))
    ensures k in Pruned(RecoveredTable(t, now), keep)
    ensures Pruned(RecoveredTable(t, now), keep)[k] == FailedByRecovery(t[k], now)
  {
    RecoveredWellFormed(t, now);
    var r := RecoveredTable(t, now);
    var h := HistoryKeys(r);
    assert h == HistoryKeys(t) + ExhaustedKeys(t);
    var top := NewestKeys(r, h, keep);
    NewestKeysSize(r, h, keep);
    NewestKeysRank(r, h, keep);
    if k !in top {
      FewerThanFailed(t, now, top, k);
      SubsetNoLarger(ExhaustedKeys(t), h);
    }
    PruningKeepsActive(r, keep);
  }

  /** A set of newest rows that leaves out one just failed holds only others just failed. */
  lemma FewerThanFailed(t: Table, now: int, top: set<string>, k: string)
    requires k in ExhaustedKeys(t) && FailedComeFirst(t, now)
    requires top <= HistoryKeys(t) + ExhaustedKeys(t) && k !in top
    requires forall a | a in top :: Newer(Recovered(t[a], now).job, Recovered(t[k], now).job)
    ensures |top| < |ExhaustedKeys(t)|
  {
    forall a | a in top ensures a in ExhaustedKeys(t) - {k} {
      if a in HistoryKeys(t) {
        assert Newer(FailedByRecovery(t[k], now).job, t[a].job);
      }
    }
    SubsetNoLarger(top, ExhaustedKeys(t) - {k});
  }

  lemma SubsetNoLarger<T>(a: set<T>, b: set<T>)
    requires a <= b
    ensures |a| <= |b|
  {
    if a != b {
      StrictSubsetSmaller(a, b);
    }
  }

  datatype RetryOutcome = NotFound | MoveFailed | UpdateFailed | Retried

  class SQLiteQueue {
    var rows: Table
    /** Whether every write succeeds; an unhealthy queue may lose any of them. */
    const healthy: bool

    ghost predicate Valid()
      reads this
    {
      WellFormed(rows)
    }

    constructor (rows: Table, healthy: bool)
      requires WellFormed(rows)
      ensures Valid() && this.rows == rows && this.healthy == healthy
    {
      this.rows := rows;
      this.healthy := healthy;
    }

    method WriteSucceeds() returns (ok: bool)
      ensures healthy ==> ok
    {
      ok := *;
      ok := ok || healthy;
    }

    /** Finds active rows only. */
    method Get(nzoId: string) returns (job: Option<Job>)
      ensures job.Some? <==> nzoId in rows && !rows[nzoId].isHistory
      ensures job.Some? ==> job.value == rows[nzoId].job
      ensures Valid() && job.Some? ==> job.value.nzoId == nzoId
    {
      if nzoId in rows && !rows[nzoId].isHistory {
        return Some(rows[nzoId].job);
      }
      return None;
    }

    method GetByNzoID(nzoId: string) returns (job: Option<Job>)
      ensures job.Some? <==> nzoId in rows
      ensures job.Some? ==> job.value == rows[nzoId].job
      ensures Valid() && job.Some? ==> job.value.nzoId == nzoId
    {
      if nzoId in rows {
        return Some(rows[nzoId].job);
      }
      return None;
    }

    /** Writes every column but the keys, the URL, time_added and is_history. */
    method Update(job: Job) returns (ok: bool)
      modifies this
      ensures old(Valid()) ==> Valid()
      ensures rows.Keys == old(rows).Keys
      ensures healthy ==> ok
      ensures ok && job.nzoId in rows ==>
                rows == old(rows)[job.nzoId :=
                  Row(job.(id := old(rows)[job.nzoId].job.id, timeAdded := old(rows)[job.nzoId].job.timeAdded),
                      old(rows)[job.nzoId].isHistory)]
      ensures !ok || job.nzoId !in rows ==> rows == old(rows)
    {
      ok := WriteSucceeds();
      if ok && job.nzoId in rows {
        var r := rows[job.nzoId];
        rows := rows[job.nzoId := Row(job.(id := r.job.id, timeAdded := r.job.timeAdded), r.isHistory)];
      }
    }

    method MoveToHistory(nzoId: string) returns (ok: bool)
      modifies this
      ensures old(Valid()) ==> Valid()
      ensures rows.Keys == old(rows).Keys
      ensures healthy ==> ok
      ensures ok && nzoId in rows ==> rows == old(rows)[nzoId := old(rows)[nzoId].(isHistory := true)]
      ensures !ok || nzoId !in rows ==> rows == old(rows)
    {
      ok := WriteSucceeds();
      if ok && nzoId in rows {
        rows := rows[nzoId := rows[nzoId].(isHistory := true)];
      }
    }

    method MoveToQueue(nzoId: string) returns (ok: bool)
      modifies this
      ensures old(Valid()) ==> Valid()
      ensures rows.Keys == old(rows).Keys
      ensures healthy ==> ok
      ensures ok && nzoId in rows ==>
                rows == old(rows)[nzoId := Row(old(rows)[nzoId].job.(recoverCount := 0), false)]
      ensures !ok || nzoId !in rows ==> rows == old(rows)
    {
      ok := WriteSucceeds();
      if ok && nzoId in rows {
        rows := rows[nzoId := Row(rows[nzoId].job.(recoverCount := 0), false)];
      }
    }

    /** The row half of mode=retry: read the row, move it back, write the old copy over it.
    The copy still carries the old recovery counter, so the reset inside MoveToQueue lasts
    exactly when there was nothing to reset, or when the second write is lost; then the row is
    back in the queue with its old status. */
    method Retry(nzoId: string) returns (outcome: RetryOutcome)
      requires Valid()
      modifies this
      ensures Valid() && rows.Keys == old(rows).Keys
      ensures forall k | k in rows && k != nzoId :: rows[k] == old(rows)[k]
      ensures outcome.NotFound? <==> nzoId !in rows
      ensures healthy && nzoId in rows ==> outcome.Retried?
      ensures outcome.NotFound? || outcome.MoveFailed? ==> rows == old(rows)
      ensures outcome.UpdateFailed? ==>
                rows[nzoId] == Row(old(rows)[nzoId].job.(recoverCount := 0), false)
      ensures outcome.Retried? ==>
                && !rows[nzoId].isHistory && rows[nzoId].job.status == Queued
                && rows[nzoId].job.completedAt == None && rows[nzoId].job.errorMessage == NoError
                && rows[nzoId].job.startedAt == None && rows[nzoId].job.progressAt == None
                && rows[nzoId].job.recoverCount == old(rows)[nzoId].job.recoverCount
      ensures outcome.Retried? || outcome.UpdateFailed? ==>
                (rows[nzoId].job.recoverCount == 0 <==> outcome.UpdateFailed? || old(rows)[nzoId].job.recoverCount == 0)
    {
      var job := GetByNzoID(nzoId);
      if job.None? {
        return NotFound;
      }
      var j := job.value.(status := Queued, errorMessage := NoError, completedAt := None,
        percentage := 0, startedAt := None, progressAt := None);
      var moved := MoveToQueue(nzoId);
      if !moved {
        return MoveFailed;
      }
      var written := Update(j);
      return if written then Retried else UpdateFailed;
    }

    /** Two statements in one transaction: fail the exhausted rows, then requeue the rest. */
    method RecoverStuckJobs(now: int) returns (n: nat)
      requires Valid()
      modifies this
      ensures Valid()
      ensures rows == RecoveredTable(old(rows), now)
      ensures n == |StuckKeys(old(rows))|
      ensures StuckKeys(rows) == {}
      ensures rows.Keys == old(rows).Keys
      ensures forall k | k in rows && !Stuck(old(rows)[k]) :: rows[k] == old(rows)[k]
    {
      TwoStatements(rows, now);
      RecoveredWellFormed(rows, now);
      RecoveryIsIdempotent(rows, now, now);
      var exhausted := ExhaustedKeys(rows);
      rows := FailExhausted(rows, exhausted, now);
      var interrupted := InterruptedKeys(rows);
      rows := RequeueInterrupted(rows, interrupted);
      return |exhausted| + |interrupted|;
    }

    /** DELETE the history rows that are not among the `keep` newest. */
    method PruneHistory(keep: int)
      requires Valid()
      modifies this
      ensures Valid()
      ensures rows == Pruned(old(rows), keep)
    {
      PruningKeepsActive(rows, keep);
      if keep <= 0 {
        return;
      }
      var top := SelectNewest(keep);
      rows := map k | k in rows && !(rows[k].isHistory && k !in top) :: rows[k];
    }

    static method FirstOf(t: Table, h: set<string>) returns (m: string)
      requires WellFormed(t) && h <= t.Keys && h != {}
      ensures IsNewest(t, h, m)
    {
      ghost var some := NewestExists(t, h);
      m :| m in h && IsNewest(t, h, m);
    }

    /** SELECT id ... ORDER BY ... LIMIT keep, taking the first row `keep` times. */
    method SelectNewest(keep: nat) returns (top: set<string>)
      requires Valid()
      ensures top == NewestKeys(rows, HistoryKeys(rows), keep)
    {
      var t := rows;
      var rest := set k | k in t && t[k].isHistory;
      var left := keep;
      top := {};
      ghost var all := NewestKeys(t, rest, keep);
      while left > 0 && rest != {}
        invariant rest <= t.Keys
        invariant top + NewestKeys(t, rest, left) == all
        decreases left
      {
        var m := FirstOf(t, rest);
        TakeNewest(t, rest, m, left);
        top, rest, left := top + {m}, rest - {m}, left - 1;
      }
      assert rest == {} || left == 0 ==> NewestKeys(t, rest, left) == {};
    }
  }
}
