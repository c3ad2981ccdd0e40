/** What one pass over a job may look like from outside: which services it went to, what each
of them answered, and what follows from that. The engine in Handler.dfy is proved to
produce only such passes; the theorems here are about all of them. */
module Pass {
  import opened UpstreamBreak
  import opened Failure
  import B = Breaker
  import D = Drains

  const MAX_ATTEMPTS: nat := 3
  const MAX_UNATTEMPTED_REQUEUES: nat := 5
  const MAX_COOLDOWN_REQUEUES: nat := 20

  /** The answer of one backend invocation: nothing on success, the error otherwise. */
  type Reply = Option<ErrMsg>

  /** What the pass did about one service: it is not in this deployment; its circuit was open;
  its circuit let us in but the context was found dead; or it ran. `lapsed`: the context was
  found dead before the next try. `live`: the context was alive when the answer was weighed, at
  time `at`. `runs`: the backend invocations the replies are to. */
  datatype Visit =
    | Unsupported(service: string)
    | Refused(service: string, waited: Option<Findings>)
    | Skipped(service: string)
    | Ran(service: string, replies: seq<Reply>, lapsed: bool, live: bool, at: int, runs: seq<D.BackendRun>)

  type Visits = seq<Visit>

  /** The services this deployment can serve after `current`, in configured order. */
  ghost function ChainOf(configured: seq<string>, current: string, supported: set<string>): (chain: seq<string>)
    ensures |chain| <= |configured|
    ensures forall s | s in chain :: s in configured && s != current && s in supported
  {
    if configured == [] then []
    else
      var s := configured[|configured| - 1];
      var before := ChainOf(configured[..|configured| - 1], current, supported);
      if s != current && s in supported then before + [s] else before
  }

  ghost function CandidatesOf(configured: seq<string>, service: string, supported: set<string>): seq<string> {
    (if service in supported then [service] else []) + ChainOf(configured, service, supported)
  }

  // ---------- One visit ----------

  predicate RetryWorthy(r: Reply, park: int) {
    r.Some? && ShouldRetry(r.value, park)
  }

  /** What a run reports: nothing on success, its last error, or the cancellation. */
  function ErrorOf(replies: seq<Reply>, lapsed: bool): Option<ErrMsg> {
    if lapsed then Some(Canceled) else if replies == [] then None else replies[|replies| - 1]
  }

  /** Every answer but the last was worth a retry; the run stopped at the limit, at an answer
  not worth one, or at a dead context. */
  ghost predicate GoodRun(replies: seq<Reply>, lapsed: bool, limit: nat, park: int) {
    && |replies| <= limit
    && (forall i | 0 <= i < |replies| - 1 :: RetryWorthy(replies[i], park))
    && (lapsed ==> |replies| < limit && forall i | 0 <= i < |replies| :: RetryWorthy(replies[i], park))
    && (!lapsed ==> replies != [] && (|replies| == limit || !RetryWorthy(replies[|replies| - 1], park)))
  }

  /** Answers that were all worth a retry. */
  ghost predicate AllRetried(replies: seq<Reply>, park: int) {
    forall i | 0 <= i < |replies| :: RetryWorthy(replies[i], park)
  }

  /** A run ends with its first answer not worth a retry, or with its last turn. */
  lemma RunEnds(replies: seq<Reply>, err: Reply, limit: nat, park: int)
    requires AllRetried(replies, park) && |replies| < limit
    ensures |replies| + 1 == limit || !RetryWorthy(err, park) ==> GoodRun(replies + [err], false, limit, park)
    ensures RetryWorthy(err, park) ==> AllRetried(replies + [err], park)
    ensures ErrorOf(replies + [err], false) == err && GoodRun(replies, true, limit, park)
  {
  }

  predicate Attempted(v: Visit) {
    v.Ran? && v.replies != []
  }

  predicate Succeeded(v: Visit) {
    v.Ran? && !v.lapsed && v.replies != [] && v.replies[|v.replies| - 1].None?
  }

  /** The visit ended in an announced pause. */
  predicate Cooled(v: Visit, park: int) {
    Attempted(v) && !v.lapsed && !Succeeded(v) && Carries(v.replies[|v.replies| - 1].value, park)
  }

  /** Nothing is visited after it. */
  predicate Stops(v: Visit, park: int) {
    Succeeded(v) || Cooled(v, park) || v.Skipped?
  }

  /** The context was found dead. */
  predicate Dead(v: Visit) {
    (v.Ran? && !v.live) || v.Skipped?
  }

  /** The visit counts as the service's failure. */
  predicate Blamed(v: Visit, park: int) {
    && v.Ran? && v.live && (v.lapsed || v.replies != []) && !Succeeded(v)
    && Classify(ErrorOf(v.replies, v.lapsed).value, park).0 == Retryable
  }

  /** Each reply is one that its backend run, made for this service, can have had. */
  ghost predicate RunsHeard(service: string, runs: seq<D.BackendRun>, replies: seq<Reply>) {
    && |runs| == |replies|
    && (runs == [] ||
          var n := |runs| - 1;
          && RunsHeard(service, runs[..n], replies[..n])
          && runs[n].service == service && D.Heard(runs[n], replies[n]))
  }

  lemma {:induction false} RunsHeardAt(service: string, runs: seq<D.BackendRun>, replies: seq<Reply>, i: nat)
    requires RunsHeard(service, runs, replies) && i < |runs|
    ensures runs[i].service == service && D.Heard(runs[i], replies[i])
  {
    var n := |runs| - 1;
    if i < n {
      RunsHeardAt(service, runs[..n], replies[..n], i);
    }
  }

  lemma HeardMore(service: string, runs: seq<D.BackendRun>, replies: seq<Reply>, run: D.BackendRun, err: Reply)
    requires RunsHeard(service, runs, replies) && run.service == service && D.Heard(run, err)
    ensures RunsHeard(service, runs + [run], replies + [err])
  {
    assert (runs + [run])[..|runs|] == runs && (replies + [err])[..|runs|] == replies;
  }

  // ---------- A whole pass ----------

  ghost predicate GoodVisit(v: Visit, limit: nat, park: int) {
    v.Ran? ==>
      && GoodRun(v.replies, v.lapsed, limit, park) && (v.lapsed ==> !v.live)
      && RunsHeard(v.service, v.runs, v.replies)
  }

  /** Whether some visit saw the context dead. */
  ghost predicate SawDead(vs: Visits) {
    vs != [] && (SawDead(vs[..|vs| - 1]) || Dead(vs[|vs| - 1]))
  }

  ghost predicate GoodFirst(v: Visit, service: string, supported: set<string>, park: int) {
    v.service == service && GoodVisit(v, MAX_ATTEMPTS, park) && !v.Skipped?
        && (v.Unsupported? <==> service !in supported)
  }

  /** `v` is the next service of the chain, visited only if nothing before it ended the pass. */
  ghost predicate GoodNext(vs: Visits, v: Visit, chain: seq<string>, park: int) {
    && 0 < |vs| <= |chain| && !Stops(vs[|vs| - 1], park) && (SawDead(vs) ==> !v.Ran?)
    && v.service == chain[|vs| - 1] && !v.Unsupported? && GoodVisit(v, 1, park)
  }

  /** A pass, visit by visit. */
  ghost predicate GoodPass(vs: Visits, service: string, chain: seq<string>, supported: set<string>, park: int)
    decreases |vs|
  {
    if |vs| <= 1 then |vs| == 1 && GoodFirst(vs[0], service, supported, park)
    else
      var init := vs[..|vs| - 1];
      GoodPass(init, service, chain, supported, park) && GoodNext(init, vs[|vs| - 1], chain, park)
  }

  /** A pass, all at once: the primary first, then the chain in order, none skipped; nothing
  after an answer that stops the chain, and nothing invoked once the context was seen dead. */
  ghost predicate Orderly(vs: Visits, service: string, chain: seq<string>, supported: set<string>, park: int) {
    && 0 < |vs| <= 1 + |chain|
    && vs[0].service == service && GoodVisit(vs[0], MAX_ATTEMPTS, park) && !vs[0].Skipped?
    && (vs[0].Unsupported? <==> service !in supported)
    && (forall i | 1 <= i < |vs| :: vs[i].service == chain[i - 1] && !vs[i].Unsupported? && GoodVisit(vs[i], 1, park))
    && (forall i | 0 <= i < |vs| - 1 :: !Stops(vs[i], park))
    && (forall i, j | 0 <= i < j < |vs| && Dead(vs[i]) :: !vs[j].Ran?)
  }

  /** The pass is over: a service delivered, upstream asked for a pause, the context died at a
  fallback's door, or the chain is exhausted. */
  ghost predicate Complete(vs: Visits, chain: seq<string>, park: int) {
    vs != [] && (Stops(vs[|vs| - 1], park) || |vs| == 1 + |chain|)
  }

  lemma {:induction false} SawDeadMeaning(vs: Visits)
    ensures SawDead(vs) <==> exists i | 0 <= i < |vs| :: Dead(vs[i])
  {
    if vs != [] {
      var init := vs[..|vs| - 1];
      SawDeadMeaning(init);
      assert forall i | 0 <= i < |init| :: init[i] == vs[i];
    }
  }

  /** Building a pass visit by visit yields exactly the orderly ones. */
  lemma {:induction false} GoodPassMeaning(vs: Visits, service: string, chain: seq<string>, supported: set<string>,
      park: int)
    ensures GoodPass(vs, service, chain, supported, park) <==> Orderly(vs, service, chain, supported, park)
    decreases |vs|
  {
    if |vs| > 1 {
      GoodPassMeaning(vs[..|vs| - 1], service, chain, supported, park);
      OneVisitMore(vs, service, chain, supported, park);
    }
  }

  lemma {:induction false} OneVisitMore(vs: Visits, service: string, chain: seq<string>, supported: set<string>,
      park: int)
    requires |vs| > 1
    ensures Orderly(vs, service, chain, supported, park) <==>
              Orderly(vs[..|vs| - 1], service, chain, supported, park)
                  && GoodNext(vs[..|vs| - 1], vs[|vs| - 1], chain, park)
  {
    var init := vs[..|vs| - 1];
    SawDeadMeaning(init);
    assert forall i | 0 <= i < |init| :: init[i] == vs[i];
    if Orderly(vs, service, chain, supported, park) {
      assert !Stops(vs[|init| - 1], park);
    }
  }

  /** The services whose failure the pass reports to the breaker, in order. */
  ghost function Blames(vs: Visits, park: int): seq<string> {
    if vs == [] then []
    else
      var v := vs[|vs| - 1];
      var before := Blames(vs[..|vs| - 1], park);
      if Blamed(v, park) then before + [v.service] else before
  }

  /** The pause a visit ended in, if it did. */
  ghost function PauseOf(v: Visit, park: int): seq<int> {
    if Cooled(v, park) then [CooldownOf(Found(v.replies[|v.replies| - 1].value), park).value] else []
  }

  /** The pauses the pass reports to the gate as it sees them. */
  ghost function Pauses(vs: Visits, park: int): seq<int> {
    if vs == [] then []
    else
      var v := vs[|vs| - 1];
      var before := Pauses(vs[..|vs| - 1], park);
      if Cooled(v, park) then before + PauseOf(v, park) else before
  }

  /** The services that really ran, in order. */
  ghost function Tried(vs: Visits): seq<string> {
    if vs == [] then []
    else
      var v := vs[|vs| - 1];
      var before := Tried(vs[..|vs| - 1]);
      if Attempted(v) then before + [v.service] else before
  }

  /** What the breaker told the pass, in order: a service is asked for unless this deployment
  does not have it, and refused exactly when the visit says so. */
  ghost function Answers(vs: Visits): seq<B.Answer> {
    if vs == [] then []
    else
      var v := vs[|vs| - 1];
      var before := Answers(vs[..|vs| - 1]);
      if v.Unsupported? then before else before + [B.Answer(v.service, !v.Refused?)]
  }

  function Repeat(x: string, n: nat): (r: seq<string>)
    ensures |r| == n
  {
    if n == 0 then [] else Repeat(x, n - 1) + [x]
  }

  /** Every backend invocation of the pass, in order. */
  ghost function Invoked(vs: Visits): seq<D.BackendRun> {
    if vs == [] then []
    else
      var v := vs[|vs| - 1];
      var before := Invoked(vs[..|vs| - 1]);
      if v.Ran? then before + v.runs else before
  }

  /** The services they were made for. */
  ghost function ServicesOf(runs: seq<D.BackendRun>): seq<string> {
    if runs == [] then [] else ServicesOf(runs[..|runs| - 1]) + [runs[|runs| - 1].service]
  }

  lemma {:induction false} ServicesConcat(a: seq<D.BackendRun>, b: seq<D.BackendRun>)
    ensures ServicesOf(a + b) == ServicesOf(a) + ServicesOf(b)
  {
    if b == [] {
      assert a + b == a;
    } else {
      var n := |b| - 1;
      ServicesConcat(a, b[..n]);
      assert (a + b)[..|a + b| - 1] == a + b[..n];
      Assoc(ServicesOf(a), ServicesOf(b[..n]), [b[n].service]);
    }
  }

  lemma {:induction false} ServicesRepeat(service: string, runs: seq<D.BackendRun>, replies: seq<Reply>)
    requires RunsHeard(service, runs, replies)
    ensures ServicesOf(runs) == Repeat(service, |runs|)
  {
    if runs != [] {
      var n := |runs| - 1;
      ServicesRepeat(service, runs[..n], replies[..n]);
    }
  }

  /** Why a primary did not run. */
  ghost function NotRun(v: Visit): Option<ErrMsg> {
    match v
    case Unsupported(s) => Some(ServiceUnavailable(s))
    case Refused(s, waited) => Some(CircuitOpen(s, waited))
    case _ => None
  }

  /** The error that explains the job's fate: the most recent run's, or why the primary did
  not run. */
  ghost function LastError(vs: Visits): Option<ErrMsg> {
    if vs == [] then None
    else
      var v := vs[|vs| - 1];
      if v.Ran? then ErrorOf(v.replies, v.lapsed)
      else if |vs| > 1 then LastError(vs[..|vs| - 1])
      else NotRun(v)
  }

  ghost predicate AnyAttempted(vs: Visits) {
    vs != [] && (AnyAttempted(vs[..|vs| - 1]) || Attempted(vs[|vs| - 1]))
  }

  ghost predicate AnyCooled(vs: Visits, park: int) {
    vs != [] && (AnyCooled(vs[..|vs| - 1], park) || Cooled(vs[|vs| - 1], park))
  }

  /** Everything the engine keeps about the visits so far. `failures`, `answers`, `pauses` and
  `invocations` go on from what they were before the pass, and so does `until`, the time the
  gate has been promised to stay shut. */
  datatype Totals = Totals(
    attempted: bool, cooled: bool, dead: bool, delivered: bool, services: seq<string>,
    failures: seq<string>, answers: seq<B.Answer>, pauses: seq<int>, until: int, lastErr: Option<ErrMsg>,
    invocations: seq<D.BackendRun>, lastRan: Option<string>)

  ghost function Start(failures: seq<string>, answers: seq<B.Answer>, pauses: seq<int>, until: int,
                       invocations: seq<D.BackendRun>): Totals
  {
    Totals(false, false, false, false, [], failures, answers, pauses, until, None, invocations, None)
  }

  ghost function Add(t: Totals, v: Visit, park: int): Totals {
    Totals(
      t.attempted || Attempted(v),
      t.cooled || Cooled(v, park),
      t.dead || Dead(v),
      t.delivered || Succeeded(v),
      if Attempted(v) then t.services + [v.service] else t.services,
      if Blamed(v, park) then t.failures + [v.service] else t.failures,
      if v.Unsupported? then t.answers else t.answers + [B.Answer(v.service, !v.Refused?)],
      if Cooled(v, park) then t.pauses + PauseOf(v, park) else t.pauses,
      if Cooled(v, park) then Max(t.until, v.at + PauseOf(v, park)[0]) else t.until,
      if v.Ran? then ErrorOf(v.replies, v.lapsed)
      else if t.lastErr.Some? then t.lastErr
      else NotRun(v),
      if v.Ran? then t.invocations + v.runs else t.invocations,
      if v.Ran? then Some(v.service) else t.lastRan)
  }

  /** The service the job carries: the last one that was given a run, else the one it came with. */
  ghost function ServiceNow(t: Totals, service: string): string {
    if t.lastRan.Some? then t.lastRan.value else service
  }

  /** A delivery adds its calls and nothing to hold against anybody. */
  lemma DeliveryAdds(t: Totals, v: Visit, park: int)
    requires v.Ran? && v.live && Succeeded(v)
    ensures !Cooled(v, park) && !Blamed(v, park)
    ensures var u := Add(t, v, park);
            && u.failures == t.failures && u.pauses == t.pauses && u.until == t.until && u.dead == t.dead
            && u.invocations == t.invocations + v.runs
  {
  }

  lemma CanceledAsksForNothing(park: int)
    ensures !Carries(Canceled, park)
  {
  }

  /** What a failed run comes to is what its last error says. */
  lemma FailedRun(v: Visit, err: ErrMsg, park: int)
    requires v.Ran? && ErrorOf(v.replies, v.lapsed) == Some(err)
    ensures Cooled(v, park) <==> v.replies != [] && Carries(err, park)
    ensures Cooled(v, park) ==> PauseOf(v, park) == [CooldownOf(Found(err), park).value]
    ensures Blamed(v, park) <==> v.live && Classify(err, park).0 == Retryable
  {
    if v.lapsed {
      CanceledAsksForNothing(park);
    }
  }

  ghost function TotalsOf(vs: Visits, start: Totals, park: int): Totals {
    if vs == [] then start else Add(TotalsOf(vs[..|vs| - 1], start, park), vs[|vs| - 1], park)
  }

  /** Every visit of the pass got an answer or found the context dead. */
  ghost predicate Answered(v: Visit) {
    v.Ran? ==> v.lapsed || v.replies != []
  }

  /** The totals are what the visits add up to: how the pass stands ... */
  lemma {:induction false} TotalsMeaning(vs: Visits, start: Totals, park: int)
    requires forall i | 0 <= i < |vs| :: Answered(vs[i]) && (i < |vs| - 1 ==> !Succeeded(vs[i]))
    requires vs != [] ==> !vs[0].Skipped?
    requires start == Start(start.failures, start.answers, start.pauses, start.until, start.invocations)
    ensures var t := TotalsOf(vs, start, park);
            && t.attempted == AnyAttempted(vs) && t.cooled == AnyCooled(vs, park) && t.dead == SawDead(vs)
            && t.delivered == (vs != [] && Succeeded(vs[|vs| - 1]))
            && t.services == Tried(vs) && t.lastErr == LastError(vs)
  {
    if vs != [] {
      var init := vs[..|vs| - 1];
      assert forall i | 0 <= i < |init| :: init[i] == vs[i];
      TotalsMeaning(init, start, park);
      if init != [] {
        LastErrorSome(init);
      }
    }
  }

  lemma Assoc<T>(a: seq<T>, b: seq<T>, c: seq<T>)
    ensures a + b + c == a + (b + c)
  {
  }

  /** ... and what it has reported. */
  lemma {:induction false} ReportsMeaning(vs: Visits, start: Totals, park: int)
    ensures var t := TotalsOf(vs, start, park);
            && t.failures == start.failures + Blames(vs, park) && t.answers == start.answers + Answers(vs)
            && t.pauses == start.pauses + Pauses(vs, park) && t.invocations == start.invocations + Invoked(vs)
  {
    if vs != [] {
      var init := vs[..|vs| - 1];
      var v := vs[|vs| - 1];
      ReportsMeaning(init, start, park);
      Assoc(start.failures, Blames(init, park), [v.service]);
      Assoc(start.answers, Answers(init), [B.Answer(v.service, !v.Refused?)]);
      Assoc(start.pauses, Pauses(init, park), PauseOf(v, park));
      if v.Ran? {
        Assoc(start.invocations, Invoked(init), v.runs);
      }
    }
  }

  lemma {:induction false} LastErrorSome(vs: Visits)
    requires vs != [] && !vs[0].Skipped? && forall i | 0 <= i < |vs| :: Answered(vs[i]) && !Succeeded(vs[i])
    ensures LastError(vs).Some?
  {
    if |vs| > 1 {
      LastErrorSome(vs[..|vs| - 1]);
    }
  }

  /** Every announced pause is covered by the promised time. */
  lemma {:induction false} TotalsUntil(vs: Visits, start: Totals, park: int, i: nat)
    requires i < |vs|
    ensures TotalsOf(vs, start, park).until >= start.until
    ensures Cooled(vs[i], park) ==> TotalsOf(vs, start, park).until >= vs[i].at + PauseOf(vs[i], park)[0]
  {
    var init := vs[..|vs| - 1];
    if i < |init| {
      TotalsUntil(init, start, park, i);
    } else {
      UntilGrows(init, start, park);
    }
  }

  lemma {:induction false} UntilGrows(vs: Visits, start: Totals, park: int)
    ensures TotalsOf(vs, start, park).until >= start.until
  {
    if vs != [] {
      UntilGrows(vs[..|vs| - 1], start, park);
    }
  }

  /** A good pass so far and its totals. */
  ghost predicate GoodWalk(vs: Visits, t: Totals, service: string, chain: seq<string>, supported: set<string>,
      park: int, start: Totals) {
    GoodPass(vs, service, chain, supported, park) && t == TotalsOf(vs, start, park)
  }

  lemma FirstVisit(v: Visit, service: string, chain: seq<string>, supported: set<string>, park: int, start: Totals)
    requires GoodFirst(v, service, supported, park)
    ensures GoodWalk([v], Add(start, v, park), service, chain, supported, park, start)
  {
    assert [v][..0] == [];
  }

  /** One more visit. */
  lemma Advance(vs: Visits, t: Totals, v: Visit, service: string, chain: seq<string>, supported: set<string>,
      park: int, start: Totals)
    requires GoodWalk(vs, t, service, chain, supported, park, start) && |vs| <= |chain| && !t.delivered && !t.cooled
    requires !vs[|vs| - 1].Skipped?
    requires v.service == chain[|vs| - 1] && !v.Unsupported? && GoodVisit(v, 1, park)
    requires t.dead ==> !v.Ran?
    ensures GoodWalk(vs + [v], Add(t, v, park), service, chain, supported, park, start)
  {
    assert (vs + [v])[..|vs|] == vs;
    DeadTotals(vs, start, park);
    assert !Stops(vs[|vs| - 1], park);
  }

  lemma {:induction false} DeadTotals(vs: Visits, start: Totals, park: int)
    ensures SawDead(vs) ==> TotalsOf(vs, start, park).dead
  {
    if vs != [] {
      DeadTotals(vs[..|vs| - 1], start, park);
    }
  }

  /** What the engine keeps about a good pass is what the visits say. */
  lemma WalkReports(vs: Visits, t: Totals, service: string, chain: seq<string>, supported: set<string>, park: int,
      start: Totals)
    requires GoodWalk(vs, t, service, chain, supported, park, start)
    requires start == Start(start.failures, start.answers, start.pauses, start.until, start.invocations)
    ensures t.failures == start.failures + Blames(vs, park) && t.answers == start.answers + Answers(vs)
    ensures t.pauses == start.pauses + Pauses(vs, park) && t.invocations == start.invocations + Invoked(vs)
    ensures t.services == Tried(vs) && t.lastErr == LastError(vs)
    ensures t.attempted == AnyAttempted(vs) && t.cooled == AnyCooled(vs, park)
    ensures t.delivered == Succeeded(vs[|vs| - 1])
  {
    GoodPassMeaning(vs, service, chain, supported, park);
    forall i | 0 <= i < |vs|
      ensures Answered(vs[i]) && (i < |vs| - 1 ==> !Succeeded(vs[i]))
    {
      assert GoodVisit(vs[i], if i == 0 then MAX_ATTEMPTS else 1, park);
      assert i < |vs| - 1 ==> !Stops(vs[i], park);
    }
    TotalsMeaning(vs, start, park);
    ReportsMeaning(vs, start, park);
  }

  /** `idx` picks positions below `n`, in order. */
  ghost predicate Picks(idx: seq<nat>, n: nat) {
    idx == [] || (idx[|idx| - 1] < n && Picks(idx[..|idx| - 1], idx[|idx| - 1]))
  }

  lemma {:induction false} PicksMeaning(idx: seq<nat>, n: nat)
    requires Picks(idx, n)
    ensures forall i | 0 <= i < |idx| :: idx[i] < n
    ensures forall i, j | 0 <= i < j < |idx| :: idx[i] < idx[j]
  {
    if idx != [] {
      PicksMeaning(idx[..|idx| - 1], idx[|idx| - 1]);
    }
  }

  /** What stands at the picked positions. */
  ghost function Picked(s: seq<string>, idx: seq<nat>): (r: seq<string>)
    requires Picks(idx, |s|)
    ensures |r| == |idx|
  {
    if idx == [] then [] else
      var last := idx[|idx| - 1];
      Picked(s[..last], idx[..|idx| - 1]) + [s[last]]
  }

  lemma {:induction false} PickedAt(s: seq<string>, idx: seq<nat>, i: nat)
    requires Picks(idx, |s|) && i < |idx|
    ensures idx[i] < |s| && Picked(s, idx)[i] == s[idx[i]]
  {
    if i < |idx| - 1 {
      PickedAt(s[..idx[|idx| - 1]], idx[..|idx| - 1], i);
    }
  }

  /** Picking below `n` looks at the first `n` only. */
  lemma PickBelow(s: seq<string>, n: nat, idx: seq<nat>)
    requires n <= |s| && Picks(idx, n)
    ensures Picks(idx, |s|) && Picked(s, idx) == Picked(s[..n], idx)
  {
    if idx != [] {
      assert s[..n][..idx[|idx| - 1]] == s[..idx[|idx| - 1]];
    }
  }

  lemma PickOneMore(s: seq<string>, n: nat, idx: seq<nat>)
    requires n < |s| && Picks(idx, n)
    ensures Picks(idx + [n], |s|) && Picked(s, idx + [n]) == Picked(s[..n], idx) + [s[n]]
  {
    assert (idx + [n])[..|idx|] == idx;
  }

  /** The chain stands in configured order. */
  lemma {:induction false} ChainPositions(configured: seq<string>, current: string, supported: set<string>)
    returns (idx: seq<nat>)
    ensures Picks(idx, |configured|) && ChainOf(configured, current, supported) == Picked(configured, idx)
  {
    idx := [];
    if configured != [] {
      var n := |configured| - 1;
      idx := ChainPositions(configured[..n], current, supported);
      if configured[n] != current && configured[n] in supported {
        PickOneMore(configured, n, idx);
        idx := idx + [n];
      } else {
        PickBelow(configured, n, idx);
      }
    }
  }

  // ---------- What every good pass satisfies ----------

  /** A pause announced anywhere is the last thing a pass hears: it ends its visit, no later
  service is touched, and it is not held against the service. */
  lemma {:induction false} CooldownEndsThePass(vs: Visits, service: string, chain: seq<string>,
      supported: set<string>, park: int, i: nat, j: nat)
    requires GoodPass(vs, service, chain, supported, park)
    requires i < |vs| && vs[i].Ran? && j < |vs[i].replies|
    requires vs[i].replies[j].Some? && Carries(vs[i].replies[j].value, park)
    ensures i == |vs| - 1 && j == |vs[i].replies| - 1 && !vs[i].lapsed
    ensures LastError(vs) == vs[i].replies[j] && Cooled(vs[i], park) && AnyCooled(vs, park)
    ensures !Blamed(vs[i], park) && Blames(vs, park) == Blames(vs[..i], park)
  {
    GoodPassMeaning(vs, service, chain, supported, park);
    var v := vs[i];
    assert GoodVisit(v, if i == 0 then MAX_ATTEMPTS else 1, park);
    assert !RetryWorthy(v.replies[j], park);
    assert j == |v.replies| - 1;
    assert Cooled(v, park) && Stops(v, park);
  }

  /** At most one pause is reported, by the last visit. */
  lemma {:induction false} PausesAreOne(vs: Visits, service: string, chain: seq<string>, supported: set<string>,
      park: int)
    requires GoodPass(vs, service, chain, supported, park)
    ensures Pauses(vs, park) == PauseOf(vs[|vs| - 1], park)
    ensures AnyCooled(vs, park) <==> Cooled(vs[|vs| - 1], park)
    decreases |vs|
  {
    var init := vs[..|vs| - 1];
    if |vs| > 1 {
      PausesAreOne(init, service, chain, supported, park);
    } else {
      assert init == [];
    }
  }

  /** The primary so many times, then the picked places of the chain, in order. */
  ghost predicate Shaped(services: seq<string>, service: string, chain: seq<string>, k: nat, idx: seq<nat>) {
    Picks(idx, |chain|) && services == Repeat(service, k) + Picked(chain, idx)
  }

  /** The backends invoked: the primary at most three times, then each chosen fallback once,
  in configured order. */
  lemma {:induction false} InvocationShape(vs: Visits, service: string, chain: seq<string>, supported: set<string>,
      park: int)
    returns (k: nat, idx: seq<nat>)
    requires GoodPass(vs, service, chain, supported, park)
    ensures k <= MAX_ATTEMPTS && (k > 0 ==> service in supported)
    ensures |vs| <= 1 + |chain| && Picks(idx, |vs| - 1)
    ensures ServicesOf(Invoked(vs)) == Repeat(service, k) + Picked(chain[..|vs| - 1], idx)
    ensures |ServicesOf(Invoked(vs))| <= MAX_ATTEMPTS + |chain|
  {
    k, idx := InvokedSoFar(vs, service, chain, supported, park);
    PickBound(idx, |vs| - 1);
  }

  lemma {:induction false} InvokedSoFar(vs: Visits, service: string, chain: seq<string>, supported: set<string>,
      park: int)
    returns (k: nat, idx: seq<nat>)
    requires GoodPass(vs, service, chain, supported, park)
    ensures k <= MAX_ATTEMPTS && (k > 0 ==> service in supported)
    ensures |vs| <= 1 + |chain| && Shaped(ServicesOf(Invoked(vs)), service, chain[..|vs| - 1], k, idx)
    decreases |vs|
  {
    var n := |vs| - 1;
    if n == 0 {
      k, idx := if vs[0].Ran? then |vs[0].replies| else 0, [];
      InvokedFirst(vs, service, supported, park);
    } else {
      InvokedNext(vs, service, chain, supported, park);
      k, idx := InvokedSoFar(vs[..n], service, chain, supported, park);
      idx := ShapeGrows(ServicesOf(Invoked(vs[..n])), Repeat(service, k), chain, n, idx, Attempted(vs[n]));
    }
  }

  lemma InvokedFirst(vs: Visits, service: string, supported: set<string>, park: int)
    requires |vs| == 1 && GoodFirst(vs[0], service, supported, park)
    ensures var k := if vs[0].Ran? then |vs[0].replies| else 0;
            && k <= MAX_ATTEMPTS && (k > 0 ==> service in supported)
            && ServicesOf(Invoked(vs)) == Repeat(service, k) + []
  {
    assert vs[..0] == [];
    if vs[0].Ran? {
      ServicesRepeat(service, vs[0].runs, vs[0].replies);
      assert Invoked(vs) == vs[0].runs;
    }
  }

  /** A visit after the first invokes its place in the chain, or nothing. */
  lemma InvokedNext(vs: Visits, service: string, chain: seq<string>, supported: set<string>, park: int)
    requires |vs| > 1 && GoodPass(vs, service, chain, supported, park)
    ensures var n := |vs| - 1;
            var before := ServicesOf(Invoked(vs[..n]));
            && n <= |chain| && GoodPass(vs[..n], service, chain, supported, park)
            && ServicesOf(Invoked(vs)) == if Attempted(vs[n]) then before + [chain[n - 1]] else before
  {
    var n := |vs| - 1;
    assert GoodNext(vs[..n], vs[n], chain, park);
    if vs[n].Ran? {
      ServicesConcat(Invoked(vs[..n]), vs[n].runs);
      ServicesRepeat(vs[n].service, vs[n].runs, vs[n].replies);
      InvokedOnce(vs[n], park);
    }
  }

  /** One place of the chain more, invoked or not. */
  lemma ShapeGrows(before: seq<string>, first: seq<string>, chain: seq<string>, n: nat, idx: seq<nat>, more: bool)
    returns (idx': seq<nat>)
    requires 0 < n <= |chain| && Picks(idx, n - 1) && before == first + Picked(chain[..n - 1], idx)
    ensures Picks(idx', n)
    ensures (if more then before + [chain[n - 1]] else before) == first + Picked(chain[..n], idx')
  {
    ShapeOneMore(chain, n, idx);
    idx' := if more then idx + [n - 1] else idx;
    Assoc(first, Picked(chain[..n - 1], idx), [chain[n - 1]]);
  }

  /** Picks below n - 1, with and without n - 1 itself. */
  lemma ShapeOneMore(chain: seq<string>, n: nat, idx: seq<nat>)
    requires 0 < n <= |chain| && Picks(idx, n - 1)
    ensures Picks(idx, n) && Picked(chain[..n], idx) == Picked(chain[..n - 1], idx)
    ensures Picks(idx + [n - 1], n) && Picked(chain[..n], idx + [n - 1]) == Picked(chain[..n - 1], idx) + [chain[n - 1]]
  {
    assert chain[..n][..n - 1] == chain[..n - 1];
    PickBelow(chain[..n], n - 1, idx);
    PickOneMore(chain[..n], n - 1, idx);
  }

  /** A fallback is invoked at most once. */
  lemma InvokedOnce(v: Visit, park: int)
    requires v.Ran? && GoodVisit(v, 1, park)
    ensures Repeat(v.service, |v.replies|) == if Attempted(v) then [v.service] else []
  {
    if Attempted(v) {
      assert Repeat(v.service, 0) == [];
    }
  }

  lemma {:induction false} PickBound(idx: seq<nat>, n: nat)
    requires Picks(idx, n)
    ensures |idx| <= n
  {
    if idx != [] {
      PickBound(idx[..|idx| - 1], idx[|idx| - 1]);
    }
  }

  /** The same service is asked again only on an error worth a retry. */
  lemma {:induction false} RepeatsAreRetries(vs: Visits, service: string, chain: seq<string>, supported: set<string>,
      park: int, i: nat, j: nat)
    requires GoodPass(vs, service, chain, supported, park)
    requires i < |vs| && vs[i].Ran? && j + 1 < |vs[i].replies|
    ensures i == 0 && RetryWorthy(vs[0].replies[j], park)
    ensures Classify(vs[0].replies[j].value, park).0 == Retryable && !Found(vs[0].replies[j].value).noRetry
  {
    GoodPassMeaning(vs, service, chain, supported, park);
    if i == 0 {
      assert GoodVisit(vs[0], MAX_ATTEMPTS, park);
    }
  }

  /** And the primary is given up before its third try only for a success, an answer not worth another
  try, or a dead context. */
  lemma RetriesGoOn(vs: Visits, service: string, chain: seq<string>, supported: set<string>, park: int)
    requires GoodPass(vs, service, chain, supported, park)
    requires vs[0].Ran? && !vs[0].lapsed && |vs[0].replies| < 3
    ensures vs[0].replies != []
    ensures var r := vs[0].replies[|vs[0].replies| - 1];
            r.None? || CooldownOf(Found(r.value), park).Some? || Found(r.value).permanent || Found(r.value).noRetry
  {
    GoodPassMeaning(vs, service, chain, supported, park);
  }

  /** A visit that found the context dead before its next try had one: of three for the primary, its
  only one for a fallback. */
  lemma LapsedHadATryLeft(vs: Visits, service: string, chain: seq<string>, supported: set<string>, park: int, i: nat)
    requires GoodPass(vs, service, chain, supported, park)
    requires i < |vs| && vs[i].Ran? && vs[i].lapsed
    ensures if i == 0 then |vs[0].replies| < 3 else vs[i].replies == []
  {
    GoodPassMeaning(vs, service, chain, supported, park);
  }

  /** Nothing runs once the budget is gone or the job cancelled. */
  lemma DeadContextRunsNothing(vs: Visits, service: string, chain: seq<string>, supported: set<string>, park: int,
      i: nat)
    requires GoodPass(vs, service, chain, supported, park)
    requires i < |vs| && vs[i].Ran? && !vs[i].live
    ensures Invoked(vs) == Invoked(vs[..i + 1]) && Blames(vs, park) == Blames(vs[..i], park)
    ensures LastError(vs) == ErrorOf(vs[i].replies, vs[i].lapsed)
  {
    GoodPassMeaning(vs, service, chain, supported, park);
    assert vs[..i + 1][..i] == vs[..i];
    UnrunTail(vs, i, park);
  }

  lemma {:induction false} UnrunTail(vs: Visits, i: nat, park: int)
    requires i < |vs|
    requires forall j | i < j < |vs| :: !vs[j].Ran?
    ensures Invoked(vs) == Invoked(vs[..i + 1]) && Blames(vs, park) == Blames(vs[..i + 1], park)
    ensures LastError(vs) == LastError(vs[..i + 1])
  {
    if i == |vs| - 1 {
      assert vs[..i + 1] == vs;
    } else {
      var p := vs[..|vs| - 1];
      UnrunTail(p, i, park);
      assert p[..i + 1] == vs[..i + 1];
    }
  }

  function Count(s: seq<string>, x: string): nat {
    if s == [] then 0 else Count(s[..|s| - 1], x) + (if s[|s| - 1] == x then 1 else 0)
  }

  lemma CountAppend(s: seq<string>, y: string, x: string)
    ensures Count(s + [y], x) == Count(s, x) + (if y == x then 1 else 0)
  {
    assert (s + [y])[..|s|] == s;
  }

  lemma {:induction false} CountConcat(s: seq<string>, t: seq<string>, x: string)
    ensures Count(s + t, x) == Count(s, x) + Count(t, x)
  {
    if t == [] {
      assert s + t == s;
    } else {
      CountConcat(s, t[..|t| - 1], x);
      assert (s + t)[..|s + t| - 1] == s + t[..|t| - 1];
    }
  }

  /** A service is blamed at most once for being the primary, however many retries it had,
  and at most once for each place it has in the fallback chain. */
  lemma {:induction false} BlameBound(vs: Visits, service: string, chain: seq<string>, supported: set<string>,
      park: int, s: string)
    requires GoodPass(vs, service, chain, supported, park)
    ensures Count(Blames(vs, park), s) <= (if s == service then 1 else 0) + Count(chain[..|vs| - 1], s)
    decreases |vs|
  {
    var n := |vs| - 1;
    var last := if Blamed(vs[n], park) then [vs[n].service] else [];
    CountConcat(Blames(vs[..n], park), last, s);
    CountAppend([], vs[n].service, s);
    if n == 0 {
      assert vs[..0] == [];
    } else {
      BlameBound(vs[..n], service, chain, supported, park, s);
      assert chain[..n] == chain[..n - 1] + [chain[n - 1]];
      CountAppend(chain[..n - 1], chain[n - 1], s);
    }
  }

  /** Every place of a configured service that this deployment can serve, other than the current
  one, is in the chain, and nothing else is. */
  lemma {:induction false} ChainCount(configured: seq<string>, current: string, supported: set<string>, s: string)
    ensures Count(ChainOf(configured, current, supported), s) ==
            if s != current && s in supported then Count(configured, s) else 0
  {
    if configured != [] {
      var init := configured[..|configured| - 1];
      ChainCount(init, current, supported, s);
      CountAppend(ChainOf(init, current, supported), configured[|configured| - 1], s);
      assert ChainOf(init, current, supported) + [] == ChainOf(init, current, supported);
    }
  }

  lemma {:induction false} CountPrefix(s: seq<string>, n: nat, x: string)
    requires n <= |s|
    ensures Count(s[..n], x) <= Count(s, x)
  {
    if n < |s| {
      CountPrefix(s[..|s| - 1], n, x);
      assert s[..|s| - 1][..n] == s[..n];
    } else {
      assert s[..n] == s;
    }
  }

  /** So one pass reports its primary at most once, and any other service at most as often as
  it is configured as a fallback. */
  lemma ReportsPerPass(vs: Visits, service: string, configured: seq<string>, supported: set<string>, park: int,
      s: string)
    requires GoodPass(vs, service, ChainOf(configured, service, supported), supported, park)
    ensures Count(Blames(vs, park), s) <= if s == service then 1 else Count(configured, s)
  {
    var chain := ChainOf(configured, service, supported);
    BlameBound(vs, service, chain, supported, park, s);
    CountPrefix(chain, |vs| - 1, s);
    ChainCount(configured, service, supported, s);
  }

  /** An answer that is the service's own fault: an error that asks for no pause and is no property
  of the release. */
  ghost predicate IsFault(r: Reply, park: int) {
    r.Some? && CooldownOf(Found(r.value), park).None? && !Found(r.value).permanent
  }

  /** A service is reported exactly for an answer of its own that was its fault, heard on a live
  context: never for a property of the release, a pause, or a dead context. */
  lemma {:induction false} BlamesComeFromFaults(vs: Visits, service: string, chain: seq<string>,
      supported: set<string>, park: int, s: string)
    requires GoodPass(vs, service, chain, supported, park)
    ensures s in Blames(vs, park) <==>
            exists v ::
              v in vs && v.service == s && v.Ran? && v.live && v.replies != []
              && IsFault(v.replies[|v.replies| - 1], park)
    decreases |vs|
  {
    var n := |vs| - 1;
    GoodPassMeaning(vs, service, chain, supported, park);
    assert GoodVisit(vs[n], if n == 0 then MAX_ATTEMPTS else 1, park);
    BlamedIff(vs[n], if n == 0 then MAX_ATTEMPTS else 1, park);
    if n > 0 {
      BlamesComeFromFaults(vs[..n], service, chain, supported, park, s);
    } else {
      assert vs[..0] == [];
    }
    assert forall v :: v in vs <==> v in vs[..n] || v == vs[n];
  }

  lemma BlamedIff(v: Visit, limit: nat, park: int)
    requires GoodVisit(v, limit, park)
    ensures Blamed(v, park) <==> v.Ran? && v.live && v.replies != [] && IsFault(v.replies[|v.replies| - 1], park)
  {
  }

  /** A pass goes through its whole chain unless a service delivered, an answer asked for a pause, or
  the context was found dead at a fallback's door; and after any of these it goes no further. */
  lemma EndsOnlyFor(vs: Visits, service: string, chain: seq<string>, supported: set<string>, park: int, i: nat)
    requires GoodPass(vs, service, chain, supported, park) && i < |vs|
    ensures var v := vs[i];
            var ends := v.Skipped? || (v.Ran? && !v.lapsed && v.replies != []
                          && var r := v.replies[|v.replies| - 1];
                             r.None? || CooldownOf(Found(r.value), park).Some?);
            && (ends ==> i == |vs| - 1)
            && (Complete(vs, chain, park) && i == |vs| - 1 && !ends ==> |vs| == 1 + |chain|)
  {
    GoodPassMeaning(vs, service, chain, supported, park);
  }

  /** The last service that was given a run decides: its error explains the job, and the job carries
  its name. Without one the reason is why the primary did not run, and the job keeps its service. */
  lemma {:induction false} LastRunDecides(vs: Visits, start: Totals, park: int, i: nat)
    requires vs != [] && i <= |vs| && forall j | i <= j < |vs| :: !vs[j].Ran?
    requires i > 0 ==> vs[i - 1].Ran?
    ensures LastError(vs) ==
            if i == 0 then
              match vs[0]
              case Unsupported(s) => Some(ServiceUnavailable(s))
              case Refused(s, waited) => Some(CircuitOpen(s, waited))
              case _ => None
            else if vs[i - 1].lapsed then Some(Canceled)
            else if vs[i - 1].replies == [] then None
            else vs[i - 1].replies[|vs[i - 1].replies| - 1]
    ensures TotalsOf(vs, start, park).lastRan == if i == 0 then start.lastRan else Some(vs[i - 1].service)
    ensures start.lastRan == None ==>
              ServiceNow(TotalsOf(vs, start, park), vs[0].service) == vs[if i == 0 then 0 else i - 1].service
  {
    var n := |vs| - 1;
    if i <= n {
      if n == 0 {
        assert vs[..0] == [] && TotalsOf(vs[..0], start, park) == start;
      } else {
        LastRunDecides(vs[..n], start, park, i);
      }
    }
  }

  /** The candidates of a job: its own service first, if this deployment has it, and then each other
  configured service that it has, as often as it is configured. */
  lemma CandidatesMean(configured: seq<string>, service: string, supported: set<string>, s: string)
    ensures s in CandidatesOf(configured, service, supported) <==>
            s in supported && (s == service || s in configured)
    ensures service in supported ==> CandidatesOf(configured, service, supported) != []
                                     && CandidatesOf(configured, service, supported)[0] == service
    ensures Count(CandidatesOf(configured, service, supported), s) ==
            if s !in supported then 0 else if s == service then 1 else Count(configured, s)
  {
    var own := if service in supported then [service] else [];
    CountConcat(own, ChainOf(configured, service, supported), s);
    CountAppend([], service, s);
    ChainCount(configured, service, supported, s);
    CountMember(ChainOf(configured, service, supported), s);
    CountMember(configured, s);
  }

  lemma {:induction false} CountMember(s: seq<string>, x: string)
    ensures x in s <==> Count(s, x) > 0
  {
    if s != [] {
      CountMember(s[..|s| - 1], x);
    }
  }

  /** A pass that delivered has its files: the last invocation it made, for the service it delivered
  from, sent a complete event and left audio files on disk. */
  lemma DeliveryHasItsFiles(vs: Visits, service: string, chain: seq<string>, supported: set<string>, park: int)
    requires GoodPass(vs, service, chain, supported, park) && Succeeded(vs[|vs| - 1])
    ensures var runs := Invoked(vs);
            && runs != [] && runs[|runs| - 1].service == vs[|vs| - 1].service
            && D.HasComplete(runs[|runs| - 1].events)
            && runs[|runs| - 1].onDisk.Some? && runs[|runs| - 1].onDisk.value > 0
  {
    GoodPassMeaning(vs, service, chain, supported, park);
    var v := vs[|vs| - 1];
    assert GoodVisit(v, if |vs| == 1 then MAX_ATTEMPTS else 1, park);
    var run := v.runs[|v.runs| - 1];
    RunsHeardAt(v.service, v.runs, v.replies, |v.runs| - 1);
    var tracks :| D.HeardWith(run, None, tracks);
    D.DeliveryHasFiles(run, tracks);
  }

  /** And an invocation that completed with files and without an error ends the pass, delivered,
  unless the album was short. */
  lemma FilesEndThePass(vs: Visits, service: string, chain: seq<string>, supported: set<string>, park: int,
                        i: nat, j: nat)
    requires GoodPass(vs, service, chain, supported, park) && i < |vs| && vs[i].Ran? && j < |vs[i].runs|
    requires D.HasComplete(vs[i].runs[j].events) && !D.HasError(vs[i].runs[j].errs)
    requires vs[i].runs[j].onDisk.Some? && vs[i].runs[j].onDisk.value > 0
    ensures j < |vs[i].replies|
    ensures vs[i].replies[j].None? || vs[i].replies[j].value.PartialAlbum?
    ensures vs[i].replies[j].None? ==> i == |vs| - 1 && j == |vs[i].replies| - 1 && Succeeded(vs[i])
  {
    GoodPassMeaning(vs, service, chain, supported, park);
    var v := vs[i];
    assert GoodVisit(v, if i == 0 then MAX_ATTEMPTS else 1, park);
    RunsHeardAt(v.service, v.runs, v.replies, j);
    var tracks :| D.HeardWith(v.runs[j], v.replies[j], tracks);
    D.FilesAreDelivered(v.runs[j], v.replies[j], tracks);
    if v.replies[j].None? {
      assert !RetryWorthy(v.replies[j], park);
      assert Succeeded(v) && Stops(v, park);
    }
  }

  /** Nothing attempted is nothing invoked. */
  lemma {:induction false} AttemptedIsInvoked(vs: Visits)
    requires forall i | 0 <= i < |vs| && vs[i].Ran? :: |vs[i].runs| == |vs[i].replies|
    ensures AnyAttempted(vs) <==> Invoked(vs) != []
  {
    if vs != [] {
      AttemptedIsInvoked(vs[..|vs| - 1]);
    }
  }

  // ---------- What becomes of the job ----------

  /** Whether the pass puts the job back: once for never having been tried, or for a pause its
  last error carries, each within its own bound on the one shared counter. */
  ghost predicate PutBack(untried: bool, carries: bool, counter: nat) {
    || (untried && counter < MAX_UNATTEMPTED_REQUEUES)
    || (carries && counter + (if untried then 1 else 0) < MAX_COOLDOWN_REQUEUES)
  }

  /** Whether the pass puts the job back by itself, with no look at what its last error says: for
  never having been tried, or for a pause its chain announced while the budget lasted. */
  ghost predicate StraightBack(untried: bool, announced: bool, counter: nat) {
    (untried && counter < MAX_UNATTEMPTED_REQUEUES) || (announced && counter < MAX_COOLDOWN_REQUEUES)
  }

  /** The primary was refused, and its message carries an earlier run's output that asks for a
  pause. */
  ghost predicate Stale(vs: Visits, park: int) {
    && vs != [] && vs[0].Refused? && vs[0].waited.Some? && CooldownOf(vs[0].waited.value, park).Some?
    && forall i | 0 <= i < |vs| :: !vs[i].Ran?
  }

  /** A pass that reached no backend ends on an error that asks for a pause exactly when it is
  that stale one. */
  lemma {:induction false} UntriedCarriesIff(vs: Visits, service: string, chain: seq<string>, supported: set<string>,
      park: int)
    requires GoodPass(vs, service, chain, supported, park) && !AnyAttempted(vs)
    ensures LastError(vs).Some?
    ensures Carries(LastError(vs).value, park) <==> Stale(vs, park)
    ensures Stale(vs, park) ==> Found(LastError(vs).value) == vs[0].waited.value
    decreases |vs|
  {
    var n := |vs| - 1;
    var init := vs[..n];
    if n > 0 {
      UntriedCarriesIff(init, service, chain, supported, park);
      assert forall i | 0 <= i < n :: init[i] == vs[i];
    }
    assert !Attempted(vs[n]);
  }

  /** A pass that heard of a pause ends on it. */
  lemma CooledCarries(vs: Visits, t: Totals, service: string, chain: seq<string>, supported: set<string>, park: int,
      start: Totals)
    requires GoodWalk(vs, t, service, chain, supported, park, start) && !start.cooled
    requires t.cooled
    ensures t.attempted && t.lastErr.Some? && Carries(t.lastErr.value, park)
    ensures !start.delivered ==> !t.delivered
  {
    CooledIsLast(vs, t, service, chain, supported, park, start);
  }

  lemma {:induction false} CooledIsLast(vs: Visits, t: Totals, service: string, chain: seq<string>,
      supported: set<string>, park: int, start: Totals)
    requires GoodWalk(vs, t, service, chain, supported, park, start) && !start.cooled
    ensures t.cooled <==> Cooled(vs[|vs| - 1], park)
    ensures start.delivered || (t.delivered <==> Succeeded(vs[|vs| - 1]))
    decreases |vs|
  {
    var init := vs[..|vs| - 1];
    if |vs| > 1 {
      CooledIsLast(init, TotalsOf(init, start, park), service, chain, supported, park, start);
      assert !Stops(init[|init| - 1], park);
    } else {
      assert init == [] && TotalsOf(init, start, park) == start;
    }
  }

  /** A pause heard in a pass: it is the last thing heard, the walk ends on it, and the gate has been
  promised to stay shut that long. */
  lemma HeardPause(vs: Visits, t: Totals, service: string, chain: seq<string>, supported: set<string>, park: int,
      start: Totals, i: nat, j: nat)
    requires GoodWalk(vs, t, service, chain, supported, park, start) && !start.cooled && !start.delivered
    requires i < |vs| && vs[i].Ran? && j < |vs[i].replies|
    requires vs[i].replies[j].Some? && Carries(vs[i].replies[j].value, park)
    ensures i == |vs| - 1 && j == |vs[i].replies| - 1
    ensures Blames(vs, park) == Blames(vs[..i], park)
    ensures t.until >= vs[i].at + CooldownOf(Found(vs[i].replies[j].value), park).value
    ensures t.cooled && t.attempted && t.lastErr.Some? && Carries(t.lastErr.value, park) && !t.delivered
  {
    CooldownEndsThePass(vs, service, chain, supported, park, i, j);
    TotalsUntil(vs, start, park, i);
    CooledIsLast(vs, t, service, chain, supported, park, start);
    CooledCarries(vs, t, service, chain, supported, park, start);
  }

  /** A pass that reached no backend has learned nothing and reported nothing. */
  lemma {:induction false} UnattemptedReportsNothing(vs: Visits, t: Totals, service: string, chain: seq<string>,
      supported: set<string>, park: int, start: Totals)
    requires GoodWalk(vs, t, service, chain, supported, park, start) && !t.attempted
    ensures t.failures == start.failures && t.pauses == start.pauses && t.invocations == start.invocations
    ensures !t.dead ==> t.lastRan == start.lastRan
    decreases |vs|
  {
    var init := vs[..|vs| - 1];
    var v := vs[|vs| - 1];
    assert !Attempted(v);
    if |vs| > 1 {
      UnattemptedReportsNothing(init, TotalsOf(init, start, park), service, chain, supported, park, start);
    } else {
      assert init == [] && TotalsOf(init, start, park) == start;
    }
  }
}
