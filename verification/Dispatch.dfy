/** The dispatch protocol (internal/api/sabnzbd/handler.go:218-318) and the download slots
(handler.go:510-526), as a state machine whose steps are the atomic actions of any number
of callers and workers in any interleaving. */
module Dispatch {

  import opened UpstreamBreak

  type RunId = nat
  type CallerId = nat

  /** Where a worker is. */
  datatype Pc =
    | AtGet                          // about to reload the job
    | GetFailed                      // the reload found nothing; about to retire and exit
    | Parking                        // waiting out a break or open circuits
    | Acquiring                      // blocked on the semaphore
    | Rechecking                     // holds a slot, looks at the circuits again
    | Running                        // holds a slot, downloads
    | RequeueAsking(target: RunId)   // holds a slot, dispatches its own job: LoadOrStore found `target`
    | Finishing                      // holds a slot, about to give it back
    | AtTakeRerun                    // the pass is over
    | Retiring                       // no re-run was pending; about to enter retireJob
    | Exited

  /** A jobRun and the one worker started with it. */
  datatype Run = Run(id: string, rerun: bool, pc: Pc)

  /** `inFlight` is the registration map; `asking` holds the callers between a LoadOrStore
  that found a run and the askAgain that follows it. */
  datatype State = State(
    inFlight: map<string, RunId>,
    runs: map<RunId, Run>,
    asking: map<CallerId, RunId>,
    tokens: nat,
    capacity: nat)

  datatype Action =
    | Dispatch(caller: CallerId, id: string, newRun: RunId)
    | Ask(caller: CallerId)
    | Get(run: RunId, found: bool)
    | ParkOver(run: RunId)
    | Cancelled(run: RunId)
    | Acquire(run: RunId)
    | Recheck(run: RunId, admitted: bool)
    | RequeueDispatch(run: RunId, newRun: RunId)
    | RequeueAsk(run: RunId)
    | PassOver(run: RunId)
    | Release(run: RunId)
    | TakeRerun(run: RunId)
    | Retire(run: RunId)
    | RetireAfterFailedGet(run: RunId)

  function Init(capacity: nat): State {
    State(map[], map[], map[], 0, capacity)
  }

  predicate At(s: State, r: RunId, pc: Pc) {
    r in s.runs && s.runs[r].pc == pc
  }

  function Goto(s: State, r: RunId, pc: Pc): State
    requires r in s.runs
  {
    s.(runs := s.runs[r := s.runs[r].(pc := pc)])
  }

  function AskAgain(s: State, r: RunId): State
    requires r in s.runs
  {
    s.(runs := s.runs[r := s.runs[r].(rerun := true)])
  }

  /** The worker whose step an action is; callers' actions are nobody's. */
  predicate StepOf(a: Action, r: RunId) {
    !a.Dispatch? && !a.Ask? && a.run == r
  }

  predicate Enabled(s: State, a: Action) {
    match a
    case Dispatch(c, _, newRun) => c !in s.asking && newRun !in s.runs
    case Ask(c) => c in s.asking && s.asking[c] in s.runs
    case Get(r, _) => At(s, r, AtGet)
    case ParkOver(r) => At(s, r, Parking)
    case Cancelled(r) => At(s, r, Parking) || At(s, r, Acquiring)
    case Acquire(r) => At(s, r, Acquiring) && s.tokens < s.capacity
    case Recheck(r, admitted) => At(s, r, Rechecking) && (admitted || s.tokens > 0)
    case RequeueDispatch(r, newRun) => At(s, r, Running) && newRun !in s.runs
    case RequeueAsk(r) => r in s.runs && s.runs[r].pc.RequeueAsking? && s.runs[r].pc.target in s.runs
    case PassOver(r) => At(s, r, Running)
    case Release(r) => At(s, r, Finishing) && s.tokens > 0
    case TakeRerun(r) => At(s, r, AtTakeRerun)
    case Retire(r) => At(s, r, Retiring)
    case RetireAfterFailedGet(r) => At(s, r, GetFailed)
  }

  /** retireJob: with a re-run pending it only consumes the flag and answers false; otherwise
  it removes the registration if it is its own and answers true. */
  function RetireJob(s: State, r: RunId): (State, bool)
    requires r in s.runs
  {
    var run := s.runs[r];
    if run.rerun then (s.(runs := s.runs[r := run.(rerun := false)]), false)
    else if run.id in s.inFlight && s.inFlight[run.id] == r then (s.(inFlight := s.inFlight - {run.id}), true)
    else (s, true)
  }

  function Apply(s: State, a: Action): State
    requires Enabled(s, a)
  {
    match a
    case Dispatch(c, id, newRun) =>
      if id in s.inFlight then s.(asking := s.asking[c := s.inFlight[id]])
      else s.(inFlight := s.inFlight[id := newRun], runs := s.runs[newRun := Run(id, false, AtGet)])
    case Ask(c) => AskAgain(s, s.asking[c]).(asking := s.asking - {c})
    case Get(r, found) => Goto(s, r, if found then Parking else GetFailed)
    case ParkOver(r) => Goto(s, r, Acquiring)
    case Cancelled(r) => Goto(s, r, AtTakeRerun)
    case Acquire(r) => Goto(s, r, Rechecking).(tokens := s.tokens + 1)
    case Recheck(r, admitted) =>
      if admitted then Goto(s, r, Running) else Goto(s, r, Parking).(tokens := s.tokens - 1)
    case RequeueDispatch(r, newRun) =>
      var id := s.runs[r].id;
      if id in s.inFlight then Goto(s, r, RequeueAsking(s.inFlight[id]))
      else Goto(s.(inFlight := s.inFlight[id := newRun], runs := s.runs[newRun := Run(id, false, AtGet)]), r, Finishing)
    case RequeueAsk(r) => Goto(AskAgain(s, s.runs[r].pc.target), r, Finishing)
    case PassOver(r) => Goto(s, r, Finishing)
    case Release(r) => Goto(s, r, AtTakeRerun).(tokens := s.tokens - 1)
    case TakeRerun(r) =>
      var run := s.runs[r];
      s.(runs := s.runs[r := run.(rerun := false, pc := if run.rerun then AtGet else Retiring)])
    case Retire(r) =>
      var (s', mayExit) := RetireJob(s, r);
      Goto(s', r, if mayExit then Exited else AtGet)
    case RetireAfterFailedGet(r) =>
      var (s', mayExit) := RetireJob(s, r);
      Goto(s', r, Exited)
  }

  // ---------- Executions ----------

  predicate Legal(s: State, acts: seq<Action>)
    decreases |acts|
  {
    acts == [] || (Enabled(s, acts[0]) && Legal(Apply(s, acts[0]), acts[1..]))
  }

  function Exec(s: State, acts: seq<Action>): State
    requires Legal(s, acts)
    decreases |acts|
  {
    if acts == [] then s else Exec(Apply(s, acts[0]), acts[1..])
  }

  // ---------- Registration ----------

  predicate Live(s: State, r: RunId) {
    r in s.runs && !s.runs[r].pc.Exited?
  }

  predicate Holds(pc: Pc) {
    pc.Rechecking? || pc.Running? || pc.RequeueAsking? || pc.Finishing?
  }

  predicate Slotless(pc: Pc) {
    pc in {AtGet, GetFailed, Parking, Acquiring, AtTakeRerun, Retiring, Exited}
  }

  function Holders(s: State): set<RunId> {
    set r | r in s.runs && Holds(s.runs[r].pc)
  }

  /** A worker that has not exited is the registered one for its job, and while it dispatches
  its own job the run it found is its own. */
  ghost predicate Registered(s: State) {
    && (forall r | Live(s, r) :: s.runs[r].id in s.inFlight && s.inFlight[s.runs[r].id] == r)
    && (forall id | id in s.inFlight :: s.inFlight[id] in s.runs && s.runs[s.inFlight[id]].id == id)
    && (forall c | c in s.asking :: s.asking[c] in s.runs)
    && (forall r | r in s.runs && s.runs[r].pc.RequeueAsking? :: s.runs[r].pc.target == r)
  }

  /** The semaphore holds one token per worker between acquire and release. */
  ghost predicate SlotsAccounted(s: State) {
    s.tokens == |Holders(s)| && s.tokens <= s.capacity
  }

  ghost predicate Inv(s: State) {
    Registered(s) && SlotsAccounted(s)
  }

  lemma GotoKeepsRegistration(s: State, r: RunId, pc: Pc)
    requires Registered(s) && Live(s, r)
    requires pc.RequeueAsking? ==> pc.target == r
    ensures Registered(Goto(s, r, pc))
  {
  }

  lemma FlagKeepsRegistration(s: State, r: RunId, flag: bool)
    requires Registered(s) && r in s.runs
    ensures Registered(s.(runs := s.runs[r := s.runs[r].(rerun := flag)]))
  {
  }

  lemma FlagAndMoveKeepsRegistration(s: State, r: RunId, flag: bool, pc: Pc)
    requires Registered(s) && Live(s, r) && !pc.RequeueAsking?
    ensures Registered(s.(runs := s.runs[r := s.runs[r].(rerun := flag, pc := pc)]))
    ensures Registered(Goto(s.(runs := s.runs[r := s.runs[r].(rerun := flag)]), r, pc))
  {
    FlagKeepsRegistration(s, r, flag);
    var t := s.(runs := s.runs[r := s.runs[r].(rerun := flag)]);
    GotoKeepsRegistration(t, r, pc);
    assert Goto(t, r, pc) == s.(runs := s.runs[r := s.runs[r].(rerun := flag, pc := pc)]);
  }

  /** A run whose worker has exited may lose its registration. */
  lemma DeregisterKeepsRegistration(s: State, r: RunId)
    requires Registered(s) && Live(s, r)
    ensures Registered(Goto(s.(inFlight := s.inFlight - {s.runs[r].id}), r, Exited))
  {
  }

  /** LoadOrStore on a free key starts the only worker of that job. */
  lemma StoreKeepsRegistration(s: State, id: string, newRun: RunId)
    requires Registered(s) && id !in s.inFlight && newRun !in s.runs
    ensures Registered(s.(inFlight := s.inFlight[id := newRun], runs := s.runs[newRun := Run(id, false, AtGet)]))
  {
  }

  lemma StepKeepsRegistration(s: State, a: Action)
    requires Registered(s) && Enabled(s, a)
    ensures Registered(Apply(s, a))
  {
    match a
    case Dispatch(c, id, newRun) =>
      if id !in s.inFlight { StoreKeepsRegistration(s, id, newRun); }
    case Ask(c) => FlagKeepsRegistration(s, s.asking[c], true);
    case RequeueDispatch(r, newRun) =>
      assert Live(s, r);
      GotoKeepsRegistration(s, r, RequeueAsking(r));
    case RequeueAsk(r) => FlagAndMoveKeepsRegistration(s, r, true, Finishing);
    case TakeRerun(r) => FlagAndMoveKeepsRegistration(s, r, false, if s.runs[r].rerun then AtGet else Retiring);
    case Retire(r) => RetireKeepsRegistration(s, r, AtGet);
    case RetireAfterFailedGet(r) => RetireKeepsRegistration(s, r, Exited);
    case _ => MoveKeepsRegistration(s, a);
  }

  /** Steps that only move one worker and possibly a token. */
  predicate OnlyMoves(a: Action) {
    a.Get? || a.ParkOver? || a.Cancelled? || a.Acquire? || a.Recheck? || a.PassOver? || a.Release?
  }

  lemma MoveKeepsRegistration(s: State, a: Action)
    requires Registered(s) && Enabled(s, a) && OnlyMoves(a)
    ensures Registered(Apply(s, a))
  {
    var t := Apply(s, a);
    assert t.runs[a.run] == s.runs[a.run].(pc := t.runs[a.run].pc);
    GotoKeepsRegistration(s, a.run, t.runs[a.run].pc);
    assert Goto(s, a.run, t.runs[a.run].pc).runs == t.runs;
  }

  /** retireJob followed by an exit when it answers true and by `otherwise` when it does not. */
  lemma RetireKeepsRegistration(s: State, r: RunId, otherwise: Pc)
    requires Registered(s) && Live(s, r) && !otherwise.RequeueAsking?
    ensures var (t, mayExit) := RetireJob(s, r); Registered(Goto(t, r, if mayExit then Exited else otherwise))
  {
    if s.runs[r].rerun {
      FlagKeepsRegistration(s, r, false);
      GotoKeepsRegistration(s.(runs := s.runs[r := s.runs[r].(rerun := false)]), r, otherwise);
    } else {
      DeregisterKeepsRegistration(s, r);
    }
  }

  /** How a worker's move changes who holds a slot; flags and registrations do not matter. */
  lemma HoldersAfter(s: State, t: State, r: RunId)
    requires r in t.runs && s.runs.Keys + {r} == t.runs.Keys
    requires forall q | q in s.runs && q != r :: t.runs[q].pc == s.runs[q].pc
    ensures Holders(t) == if Holds(t.runs[r].pc) then Holders(s) + {r} else Holders(s) - {r}
  {
  }

  /** Slots are taken by Acquire alone and given back by Release and a failed recheck alone. */
  lemma WorkerStepMovesOneSlot(s: State, a: Action)
    requires Enabled(s, a) && !a.Dispatch? && !a.Ask?
    requires a.RequeueDispatch? ==> s.runs[a.run].id in s.inFlight
    requires a.RequeueAsk? ==> s.runs[a.run].pc.target == a.run
    ensures var t := Apply(s, a);
            && s.runs.Keys == t.runs.Keys && t.capacity == s.capacity
            && (forall q | q in s.runs && q != a.run :: t.runs[q].pc == s.runs[q].pc)
            && (!Holds(s.runs[a.run].pc) && Holds(t.runs[a.run].pc) <==> a.Acquire?)
            && (Holds(s.runs[a.run].pc) && !Holds(t.runs[a.run].pc) <==> a.Release? || (a.Recheck? && !a.admitted))
            && t.tokens == s.tokens
                 + (if a.Acquire? then 1 else 0) - (if a.Release? || (a.Recheck? && !a.admitted) then 1 else 0)
  {
  }

  lemma CallerStepMovesNoSlot(s: State, a: Action)
    requires Enabled(s, a) && (a.Dispatch? || a.Ask?)
    ensures var t := Apply(s, a); Holders(t) == Holders(s) && t.tokens == s.tokens && t.capacity == s.capacity
  {
    if a.Ask? {
      HoldersAfter(s, Apply(s, a), s.asking[a.caller]);
    } else if a.id !in s.inFlight {
      HoldersAfter(s, Apply(s, a), a.newRun);
    }
  }

  /** Holders and tokens move together. */
  lemma SlotsAfter(s: State, t: State, r: RunId, taken: bool, given: bool)
    requires SlotsAccounted(s) && t.capacity == s.capacity && r in s.runs && s.runs.Keys == t.runs.Keys
    requires forall q | q in s.runs && q != r :: t.runs[q].pc == s.runs[q].pc
    requires !Holds(s.runs[r].pc) && Holds(t.runs[r].pc) <==> taken
    requires Holds(s.runs[r].pc) && !Holds(t.runs[r].pc) <==> given
    requires t.tokens == s.tokens + (if taken then 1 else 0) - (if given then 1 else 0)
    requires taken ==> s.tokens < s.capacity
    ensures SlotsAccounted(t)
  {
    HoldersAfter(s, t, r);
    assert Holds(s.runs[r].pc) <==> r in Holders(s);
    if taken {
      assert Holders(t) == Holders(s) + {r} && r !in Holders(s);
    } else if given {
      assert Holders(t) == Holders(s) - {r} && r in Holders(s);
    } else {
      assert Holders(t) == Holders(s);
    }
  }

  lemma StepKeepsSlots(s: State, a: Action)
    requires Inv(s) && Enabled(s, a)
    ensures SlotsAccounted(Apply(s, a))
  {
    if a.Dispatch? || a.Ask? {
      CallerStepMovesNoSlot(s, a);
    } else {
      assert a.RequeueDispatch? ==> Live(s, a.run);
      WorkerStepMovesOneSlot(s, a);
      SlotsAfter(s, Apply(s, a), a.run, a.Acquire?, a.Release? || (a.Recheck? && !a.admitted));
    }
  }

  lemma StepKeepsInv(s: State, a: Action)
    requires Inv(s) && Enabled(s, a)
    ensures Inv(Apply(s, a))
  {
    StepKeepsRegistration(s, a);
    StepKeepsSlots(s, a);
  }

  /** In every reachable state, for any number of callers and workers: a live worker is the
  registered run of its job, tokens count the workers that hold a slot, and never exceed the
  capacity. */
  lemma {:induction false} ReachableInv(s: State, acts: seq<Action>)
    requires Inv(s) && Legal(s, acts)
    ensures Inv(Exec(s, acts))
    decreases |acts|
  {
    if acts != [] {
      StepKeepsInv(s, acts[0]);
      ReachableInv(Apply(s, acts[0]), acts[1..]);
    }
  }

  /** At most one worker per job is alive. */
  lemma OneWorkerPerJob(capacity: nat, acts: seq<Action>, q: RunId, r: RunId)
    requires Legal(Init(capacity), acts)
    requires var s := Exec(Init(capacity), acts); Live(s, q) && Live(s, r) && s.runs[q].id == s.runs[r].id
    ensures q == r
  {
    assert Holders(Init(capacity)) == {};
    ReachableInv(Init(capacity), acts);
  }

  /** No slot is leaked and none is held while parked: when no worker is between acquire and
  release, every slot is free. */
  lemma IdleMeansAllSlotsFree(capacity: nat, acts: seq<Action>, s: State)
    requires Legal(Init(capacity), acts) && s == Exec(Init(capacity), acts)
    requires forall r | r in s.runs :: Slotless(s.runs[r].pc)
    ensures s.tokens == 0
  {
    assert Holders(Init(capacity)) == {};
    ReachableInv(Init(capacity), acts);
    forall r | r in s.runs ensures !Holds(s.runs[r].pc) {
      assert Slotless(s.runs[r].pc);
    }
    assert Holders(s) == {};
  }

  /** No worker is ever stuck: one of its own steps is enabled, save that a worker on the
  semaphore of a full pool has only cancellation until some other worker releases. */
  lemma WorkersAreNeverStuck(s: State, r: RunId) returns (a: Action)
    requires Inv(s) && Live(s, r)
    ensures StepOf(a, r) && Enabled(s, a)
    ensures s.runs[r].pc != Acquiring || s.tokens < s.capacity ==> !a.Cancelled?
  {
    if Holds(s.runs[r].pc) {
      assert r in Holders(s);
      assert s.tokens > 0;
    }
    match s.runs[r].pc
    case AtGet => a := Get(r, true);
    case GetFailed => a := RetireAfterFailedGet(r);
    case Parking => a := ParkOver(r);
    case Acquiring => a := if s.tokens < s.capacity then Acquire(r) else Cancelled(r);
    case Rechecking => a := Recheck(r, true);
    case Running => a := PassOver(r);
    case RequeueAsking(t) => a := RequeueAsk(r);
    case Finishing => a := Release(r);
    case AtTakeRerun => a := TakeRerun(r);
    case Retiring => a := Retire(r);
  }

  /** Nothing is decided in advance: where a worker's step has an outcome, each of them is possible,
  a wait can be cancelled, and callers can dispatch any job and ask at any time. */
  lemma EveryOutcomeIsPossible(s: State, r: RunId, newRun: RunId, c: CallerId, id: string, b: bool)
    requires Inv(s) && r in s.runs && newRun !in s.runs
    ensures At(s, r, AtGet) ==> Enabled(s, Get(r, b))
    ensures At(s, r, Parking) || At(s, r, Acquiring) ==> Enabled(s, Cancelled(r))
    ensures At(s, r, Rechecking) ==> Enabled(s, Recheck(r, b))
    ensures At(s, r, Running) ==> Enabled(s, PassOver(r)) && Enabled(s, RequeueDispatch(r, newRun))
    ensures c !in s.asking ==> Enabled(s, Dispatch(c, id, newRun))
    ensures c in s.asking ==> Enabled(s, Ask(c))
  {
    if At(s, r, Rechecking) {
      assert r in Holders(s);
      assert s.tokens > 0;
    }
  }

  // ---------- Every effective ask is served, and no other ----------

  /** An ask of run `r` can still reach its worker: the worker is alive and has not already
  decided to exit on a failed reload. */
  predicate Reachable(s: State, r: RunId) {
    Live(s, r) && !At(s, r, GetFailed)
  }

  /** The worker owes a reload: it is on its way to one, or the flag will send it there. */
  predicate Owed(s: State, r: RunId) {
    Reachable(s, r) && (s.runs[r].rerun || At(s, r, AtGet))
  }

  predicate Reloads(acts: seq<Action>, r: RunId) {
    exists a :: a in acts && a.Get? && a.run == r
  }

  /** Whoever else steps, a run is left as it is but for the flag, which can only rise. */
  lemma OthersStep(s: State, a: Action, r: RunId)
    requires Registered(s) && Enabled(s, a) && r in s.runs && !StepOf(a, r)
    ensures r in Apply(s, a).runs
    ensures Apply(s, a).runs[r] == s.runs[r] || Apply(s, a).runs[r] == s.runs[r].(rerun := true)
  {
  }

  /** One step: the debt stays until the reload itself. */
  lemma DebtStays(s: State, a: Action, r: RunId)
    requires Registered(s) && Enabled(s, a) && Owed(s, r)
    ensures Owed(Apply(s, a), r) || (a.Get? && a.run == r)
  {
    if !StepOf(a, r) {
      OthersStep(s, a, r);
    }
  }

  /** How many steps of its own a worker is from its reload, if no look at the circuits fails. */
  function Left(pc: Pc): nat {
    match pc
    case AtGet => 1
    case Retiring => 2
    case AtTakeRerun => 2
    case Finishing => 3
    case RequeueAsking(_) => 4
    case Running => 5
    case Rechecking => 6
    case Acquiring => 7
    case Parking => 8
    case GetFailed => 0
    case Exited => 0
  }

  predicate FailedRecheck(a: Action, r: RunId) {
    a.Recheck? && a.run == r && !a.admitted
  }

  function OwnSteps(acts: seq<Action>, r: RunId): nat {
    if acts == [] then 0 else (if StepOf(acts[0], r) then 1 else 0) + OwnSteps(acts[1..], r)
  }

  function FailedRechecks(acts: seq<Action>, r: RunId): nat {
    if acts == [] then 0 else (if FailedRecheck(acts[0], r) then 1 else 0) + FailedRechecks(acts[1..], r)
  }

  /** The worker has made so many steps of its own that it must have reloaded: at most eight,
  and three more for every look that sent it back to the park. */
  predicate LongEnough(s: State, acts: seq<Action>, r: RunId) {
    r in s.runs && OwnSteps(acts, r) >= Left(s.runs[r].pc) + 3 * FailedRechecks(acts, r)
  }

  /** One step: an own step brings a worker with a debt one nearer to its reload, or back to the
  park; nobody else's step moves it. */
  lemma DebtComesNearer(s: State, a: Action, r: RunId)
    requires Registered(s) && Enabled(s, a) && Owed(s, r) && !(a.Get? && a.run == r)
    ensures r in Apply(s, a).runs
    ensures Left(Apply(s, a).runs[r].pc) + (if StepOf(a, r) then 1 else 0)
            <= Left(s.runs[r].pc) + (if FailedRecheck(a, r) then 3 else 0)
  {
    if !StepOf(a, r) {
      OthersStep(s, a, r);
    }
  }

  /** A debt is paid: any continuation in which the worker itself goes on long enough holds its
  reload. */
  lemma {:induction false} DebtIsPaid(s: State, acts: seq<Action>, r: RunId)
    requires Inv(s) && Legal(s, acts) && Owed(s, r) && LongEnough(s, acts, r)
    ensures Reloads(acts, r)
    decreases |acts|
  {
    var a := acts[0];
    assert a in acts;
    if !(a.Get? && a.run == r) {
      StepKeepsInv(s, a);
      DebtStays(s, a, r);
      DebtComesNearer(s, a, r);
      DebtIsPaid(Apply(s, a), acts[1..], r);
      var get :| get in acts[1..] && get.Get? && get.run == r;
      assert get in acts;
    }
  }

  /** Whatever happens after a debt arose: as long as the worker has not reloaded its job it
  is alive, registered, and still owes the reload; and it reloads within a bounded number of its
  own steps. */
  lemma {:induction false} DebtIsPaidBeforeExit(s: State, acts: seq<Action>, r: RunId)
    requires Inv(s) && Legal(s, acts) && Owed(s, r)
    ensures Reloads(acts, r) || Owed(Exec(s, acts), r)
    ensures LongEnough(s, acts, r) ==> Reloads(acts, r)
    decreases |acts|
  {
    if LongEnough(s, acts, r) {
      DebtIsPaid(s, acts, r);
    } else if acts != [] {
      StepKeepsInv(s, acts[0]);
      DebtStays(s, acts[0], r);
      if acts[0].Get? && acts[0].run == r {
        assert acts[0] in acts;
      } else {
        DebtIsPaidBeforeExit(Apply(s, acts[0]), acts[1..], r);
        if Reloads(acts[1..], r) {
          var a :| a in acts[1..] && a.Get? && a.run == r;
          assert a in acts;
        }
      }
    }
  }

  /** Once its pass is over, a worker with a debt needs one step to be back at the reload. */
  lemma DebtIsPaidNext(s: State, a: Action, r: RunId)
    requires Inv(s) && Owed(s, r) && StepOf(a, r) && Enabled(s, a)
    requires At(s, r, AtTakeRerun) || At(s, r, Retiring)
    ensures At(Apply(s, a), r, AtGet)
  {
  }

  lemma UnreachableStays(s: State, a: Action, r: RunId)
    requires Registered(s) && Enabled(s, a) && r in s.runs && !Reachable(s, r)
    ensures r in Apply(s, a).runs && !Reachable(Apply(s, a), r) && !(a.Get? && a.run == r)
  {
    if !StepOf(a, r) {
      OthersStep(s, a, r);
    }
  }

  /** A run that an ask can no longer reach never reloads again. */
  lemma {:induction false} UnreachableNeverReloads(s: State, acts: seq<Action>, r: RunId)
    requires Inv(s) && Legal(s, acts) && r in s.runs && !Reachable(s, r)
    ensures !Reloads(acts, r)
    ensures r in Exec(s, acts).runs && !Reachable(Exec(s, acts), r)
    decreases |acts|
  {
    if acts != [] {
      StepKeepsInv(s, acts[0]);
      UnreachableStays(s, acts[0], r);
      UnreachableNeverReloads(Apply(s, acts[0]), acts[1..], r);
      forall a | a in acts ensures !(a.Get? && a.run == r) {
        assert a == acts[0] || a in acts[1..];
      }
    }
  }

  /** An ask, by an outside caller or by the worker's own requeue, is served exactly when it
  lands on a run whose worker is alive and past no failed reload: then the worker reloads the job
  within a bounded number of its own steps. Otherwise the ask is lost: that worker never reloads
  again. */
  lemma AskIsServedIffReachable(s: State, ask: Action, acts: seq<Action>)
    requires Inv(s) && Enabled(s, ask) && (ask.Ask? || ask.RequeueAsk?)
    requires Legal(Apply(s, ask), acts)
    ensures var r := if ask.Ask? then s.asking[ask.caller] else s.runs[ask.run].pc.target;
            if Reachable(s, r) then
              && (Reloads(acts, r) || Owed(Exec(Apply(s, ask), acts), r))
              && (LongEnough(Apply(s, ask), acts, r) ==> Reloads(acts, r))
            else !Reloads(acts, r)
  {
    var r := if ask.Ask? then s.asking[ask.caller] else s.runs[ask.run].pc.target;
    StepKeepsInv(s, ask);
    if Reachable(s, r) {
      DebtIsPaidBeforeExit(Apply(s, ask), acts, r);
    } else {
      UnreachableNeverReloads(Apply(s, ask), acts, r);
    }
  }

  /** A pass that ends in a requeue is never stranded: its dispatch finds its own run, and
  from the ask on the worker stays alive and owes the reload until it makes it, within a bounded
  number of its own steps. */
  lemma RequeueIsNeverStranded(s: State, r: RunId, newRun: RunId, between: seq<Action>, after: seq<Action>)
    requires Inv(s) && Enabled(s, RequeueDispatch(r, newRun))
    requires var s1 := Apply(s, RequeueDispatch(r, newRun));
             && Legal(s1, between) && (forall a | a in between :: !StepOf(a, r))
             && Enabled(Exec(s1, between), RequeueAsk(r))
             && Legal(Apply(Exec(s1, between), RequeueAsk(r)), after)
    ensures var s1 := Apply(s, RequeueDispatch(r, newRun));
            var s2 := Apply(Exec(s1, between), RequeueAsk(r));
            && At(s1, r, RequeueAsking(r))
            && (Reloads(after, r) || Owed(Exec(s2, after), r))
            && (LongEnough(s2, after, r) ==> Reloads(after, r))
  {
    var s1 := Apply(s, RequeueDispatch(r, newRun));
    StepKeepsInv(s, RequeueDispatch(r, newRun));
    ReachableInv(s1, between);
    var s2 := Exec(s1, between);
    AskIsServedIffReachable(s2, RequeueAsk(r), after);
  }

  // ---------- And no reload is made without one ----------

  /** The action prompts a reload by run `r`: an ask lands on it, or its worker is started. */
  predicate Prompts(s: State, a: Action, r: RunId)
    requires Enabled(s, a)
  {
    match a
    case Dispatch(_, id, newRun) => id !in s.inFlight && newRun == r
    case Ask(c) => s.asking[c] == r
    case RequeueAsk(w) => s.runs[w].pc.target == r
    case _ => false
  }

  /** The reloads a run still has to make: the one it is about to make, and one for the flag. */
  function Credit(s: State, r: RunId): nat {
    if r in s.runs then (if s.runs[r].pc.AtGet? then 1 else 0) + (if s.runs[r].rerun then 1 else 0) else 0
  }

  predicate Reloading(a: Action, r: RunId) {
    a.Get? && a.run == r
  }

  function Gets(acts: seq<Action>, r: RunId): nat {
    if acts == [] then 0 else (if Reloading(acts[0], r) then 1 else 0) + Gets(acts[1..], r)
  }

  function Prompted(s: State, acts: seq<Action>, r: RunId): nat
    requires Legal(s, acts)
    decreases |acts|
  {
    if acts == [] then 0
    else (if Prompts(s, acts[0], r) then 1 else 0) + Prompted(Apply(s, acts[0]), acts[1..], r)
  }

  /** One step: a reload uses up a credit, only a prompt makes one, and nobody else's does. */
  lemma CreditIsSpent(s: State, a: Action, r: RunId)
    requires Registered(s) && Enabled(s, a)
    ensures (if Reloading(a, r) then 1 else 0) + Credit(Apply(s, a), r)
         <= Credit(s, r) + (if Prompts(s, a, r) then 1 else 0)
  {
    if r in s.runs && !StepOf(a, r) {
      OtherCredit(s, a, r);
    }
  }

  lemma OtherCredit(s: State, a: Action, r: RunId)
    requires Registered(s) && Enabled(s, a) && r in s.runs && !StepOf(a, r)
    ensures r in Apply(s, a).runs
    ensures Apply(s, a).runs[r] == if Prompts(s, a, r) then s.runs[r].(rerun := true) else s.runs[r]
  {
    if a.RequeueAsk? {
      assert Live(s, a.run);
    }
  }

  /** A run reloads its job no more often than it was asked to, its start included: the flag is
  consumed by the reload it leads to. */
  lemma {:induction false} NoReloadUnasked(s: State, acts: seq<Action>, r: RunId)
    requires Inv(s) && Legal(s, acts)
    ensures Gets(acts, r) + Credit(Exec(s, acts), r) <= Credit(s, r) + Prompted(s, acts, r)
    decreases |acts|
  {
    if acts != [] {
      CreditIsSpent(s, acts[0], r);
      StepKeepsInv(s, acts[0]);
      NoReloadUnasked(Apply(s, acts[0]), acts[1..], r);
    }
  }

  /** What the last reload of run `r` found, if it has made one. */
  function LastGet(acts: seq<Action>, r: RunId): Option<bool> {
    if acts == [] then None
    else
      var a := acts[|acts| - 1];
      if Reloading(a, r) then Some(a.found) else LastGet(acts[..|acts| - 1], r)
  }

  /** Where a worker is agrees with what its last reload found: it waits, runs, finishes and
  retires only for a job it has just found, and gives up only on one it has not. */
  ghost predicate KnowsItsJob(s: State, acts: seq<Action>, r: RunId) {
    r in s.runs ==>
      match s.runs[r].pc
      case AtGet => true
      case GetFailed => LastGet(acts, r) == Some(false)
      case Exited => LastGet(acts, r).Some?
      case _ => LastGet(acts, r) == Some(true)
  }

  lemma StepKeepsKnowing(s: State, acts: seq<Action>, a: Action, r: RunId)
    requires Registered(s) && Enabled(s, a) && KnowsItsJob(s, acts, r)
    ensures KnowsItsJob(Apply(s, a), acts + [a], r)
  {
    assert (acts + [a])[..|acts|] == acts;
    if r in s.runs && !StepOf(a, r) {
      OtherCredit(s, a, r);
    }
  }

  /** In every run: no pass is made, and no slot held, for a job that the worker has not found in
  the queue when it last looked. */
  lemma {:induction false} PassesAreForFoundJobs(capacity: nat, acts: seq<Action>, r: RunId)
    requires Legal(Init(capacity), acts)
    ensures KnowsItsJob(Exec(Init(capacity), acts), acts, r)
    decreases |acts|
  {
    if acts != [] {
      var n := |acts| - 1;
      LegalPrefix(Init(capacity), acts, n);
      PassesAreForFoundJobs(capacity, acts[..n], r);
      assert Holders(Init(capacity)) == {};
      ReachableInv(Init(capacity), acts[..n]);
      StepKeepsKnowing(Exec(Init(capacity), acts[..n]), acts[..n], acts[n], r);
      assert acts == acts[..n] + [acts[n]];
    }
  }

  /** A run, cut before its last step. */
  lemma {:induction false} LegalPrefix(s: State, acts: seq<Action>, n: nat)
    requires Legal(s, acts) && |acts| == n + 1
    ensures Legal(s, acts[..n]) && Enabled(Exec(s, acts[..n]), acts[n])
    ensures Exec(s, acts) == Apply(Exec(s, acts[..n]), acts[n])
    decreases n
  {
    if n > 0 {
      LegalPrefix(Apply(s, acts[0]), acts[1..], n - 1);
      assert acts[..n][1..] == acts[1..][..n - 1];
    } else {
      assert acts[1..] == [] && acts[..0] == [];
    }
  }

  /** A dispatch starts a worker for its job, or finds its run and is about to ask it; it moves
  nobody else. */
  lemma DispatchReachesItsJob(s: State, c: CallerId, id: string, newRun: RunId)
    requires Inv(s) && Enabled(s, Dispatch(c, id, newRun))
    ensures var t := Apply(s, Dispatch(c, id, newRun));
            && id in t.inFlight && t.inFlight[id] in t.runs && t.runs[t.inFlight[id]].id == id
            && (id !in s.inFlight ==> t.inFlight[id] == newRun && Owed(t, newRun) && t.asking == s.asking)
            && (id in s.inFlight ==>
                  && t.inFlight[id] == s.inFlight[id] && t.runs == s.runs
                  && Enabled(t, Ask(c)) && t.asking[c] == t.inFlight[id])
            && (forall r | r in s.runs :: r in t.runs && t.runs[r] == s.runs[r])
  {
  }

  /** So every dispatch leads to a reload of its job unless it finds a run that an ask can no
  longer reach: by the worker it starts, or by the one it asks. */
  lemma DispatchIsServed(s: State, c: CallerId, id: string, newRun: RunId, between: seq<Action>, after: seq<Action>)
    requires Inv(s) && Enabled(s, Dispatch(c, id, newRun))
    requires var t := Apply(s, Dispatch(c, id, newRun));
             if id !in s.inFlight then between == [] && Legal(t, after)
             else
               && Legal(t, between) && Enabled(Exec(t, between), Ask(c)) && Exec(t, between).asking[c] == s.inFlight[id]
               && Reachable(Exec(t, between), s.inFlight[id]) && Legal(Apply(Exec(t, between), Ask(c)), after)
    ensures var t := Apply(s, Dispatch(c, id, newRun));
            var r := t.inFlight[id];
            var u := if id !in s.inFlight then t else Apply(Exec(t, between), Ask(c));
            LongEnough(u, after, r) ==> Reloads(after, r)
  {
    var t := Apply(s, Dispatch(c, id, newRun));
    StepKeepsInv(s, Dispatch(c, id, newRun));
    DispatchReachesItsJob(s, c, id, newRun);
    if id !in s.inFlight {
      DebtIsPaidBeforeExit(t, after, newRun);
    } else {
      ReachableInv(t, between);
      AskIsServedIffReachable(Exec(t, between), Ask(c), after);
    }
  }

  // ---------- The two windows in which an ask is lost ----------

  /** A registration whose worker is gone. */
  predicate Orphan(s: State, id: string) {
    id in s.inFlight && !Live(s, s.inFlight[id])
  }

  /** An orphan appears in exactly one way: a failed reload whose retirement finds a re-run
  pending, keeps the registration, and exits all the same. */
  lemma OrphanAppearsIff(s: State, a: Action, id: string)
    requires Inv(s) && Enabled(s, a) && !Orphan(s, id)
    ensures Orphan(Apply(s, a), id) <==>
            a.RetireAfterFailedGet? && s.runs[a.run].id == id && s.runs[a.run].rerun
  {
    if id in s.inFlight {
      var r := s.inFlight[id];
      if !StepOf(a, r) {
        OthersStep(s, a, r);
        RegistrationStays(s, a, id);
      }
    }
  }

  /** A registration goes only when its own worker retires. */
  lemma RegistrationStays(s: State, a: Action, id: string)
    requires Registered(s) && Enabled(s, a) && id in s.inFlight && !StepOf(a, s.inFlight[id])
    ensures id in Apply(s, a).inFlight && Apply(s, a).inFlight[id] == s.inFlight[id]
  {
    if a.Retire? || a.RetireAfterFailedGet? {
      assert s.runs[a.run].id != id;
    } else if a.RequeueDispatch? {
      assert Live(s, a.run);
    }
  }

  lemma OrphanStays(s: State, a: Action, id: string)
    requires Registered(s) && Enabled(s, a) && Orphan(s, id)
    ensures Orphan(Apply(s, a), id) && Apply(s, a).inFlight[id] == s.inFlight[id]
  {
    assert !StepOf(a, s.inFlight[id]);
    OthersStep(s, a, s.inFlight[id]);
    RegistrationStays(s, a, id);
  }

  /** An orphan is for ever: no worker for that job ever starts again, and every later
  dispatch only asks the dead run. */
  lemma {:induction false} OrphanIsForever(s: State, acts: seq<Action>, id: string)
    requires Inv(s) && Legal(s, acts) && Orphan(s, id)
    ensures var t := Exec(s, acts);
            && Orphan(t, id) && t.inFlight[id] == s.inFlight[id]
            && (forall r | r in t.runs && t.runs[r].id == id :: !Live(t, r))
    decreases |acts|
  {
    if acts != [] {
      StepKeepsInv(s, acts[0]);
      OrphanStays(s, acts[0], id);
      OrphanIsForever(Apply(s, acts[0]), acts[1..], id);
    }
  }

  /** One action in front of a run. */
  lemma Prepend(s: State, a: Action, t: State, acts: seq<Action>)
    requires Enabled(s, a) && Apply(s, a) == t && Legal(t, acts)
    ensures Legal(s, [a] + acts) && Exec(s, [a] + acts) == Exec(t, acts)
  {
    assert ([a] + acts)[1..] == acts;
  }

  /** One job, its one worker, no slot taken. */
  function Lone(id: string, rerun: bool, pc: Pc, asking: map<CallerId, RunId>): State {
    State(map[id := 0], map[0 := Run(id, rerun, pc)], asking, 0, 1)
  }

  lemma LoneStarts(id: string)
    ensures Apply(Init(1), Dispatch(0, id, 0)) == Lone(id, false, AtGet, map[])
  {
  }

  /** A move of the worker that leaves flag and token alone. */
  lemma LoneMoves(id: string, pc: Pc, a: Action, next: Pc, asking: map<CallerId, RunId>)
    requires (pc == Parking && a == Cancelled(0) && next == AtTakeRerun)
        || (pc == AtTakeRerun && a == TakeRerun(0) && next == Retiring)
    ensures Enabled(Lone(id, false, pc, asking), a)
        && Apply(Lone(id, false, pc, asking), a) == Lone(id, false, next, asking)
  {
  }

  lemma LoneReloads(id: string, found: bool)
    ensures Apply(Lone(id, false, AtGet, map[]), Get(0, found))
         == Lone(id, false, if found then Parking else GetFailed, map[])
  {
  }

  lemma LoneExitsAnyway(id: string)
    ensures Apply(Lone(id, true, GetFailed, map[]), RetireAfterFailedGet(0)) == Lone(id, false, Exited, map[])
  {
  }

  /** A second caller finds it. */
  lemma LoneIsFound(id: string, pc: Pc)
    ensures Apply(Lone(id, false, pc, map[]), Dispatch(1, id, 1)) == Lone(id, false, pc, map[1 := 0])
  {
  }

  lemma LoneIsAsked(id: string, pc: Pc)
    ensures Enabled(Lone(id, false, pc, map[1 := 0]), Ask(1))
    ensures Apply(Lone(id, false, pc, map[1 := 0]), Ask(1)) == Lone(id, true, pc, map[])
  {
    assert map[1 := 0] - {1} == map[];
  }

  /** The first window: an ask between a failed reload and its retirement. Five steps leave the
  job with a registration and no worker. */
  lemma AskDuringFailedReload(id: string) returns (acts: seq<Action>)
    ensures Legal(Init(1), acts) && Orphan(Exec(Init(1), acts), id)
    ensures acts == [Dispatch(0, id, 0), Get(0, false), Dispatch(1, id, 1), Ask(1), RetireAfterFailedGet(0)]
  {
    LoneStarts(id);
    LoneReloads(id, false);
    LoneIsFound(id, GetFailed);
    LoneIsAsked(id, GetFailed);
    LoneExitsAnyway(id);
    acts := [];
    Prepend(Lone(id, true, GetFailed, map[]), RetireAfterFailedGet(0), Lone(id, false, Exited, map[]), acts);
    acts := [RetireAfterFailedGet(0)] + acts;
    Prepend(Lone(id, false, GetFailed, map[1 := 0]), Ask(1), Lone(id, true, GetFailed, map[]), acts);
    acts := [Ask(1)] + acts;
    Prepend(Lone(id, false, GetFailed, map[]), Dispatch(1, id, 1), Lone(id, false, GetFailed, map[1 := 0]), acts);
    acts := [Dispatch(1, id, 1)] + acts;
    Prepend(Lone(id, false, AtGet, map[]), Get(0, false), Lone(id, false, GetFailed, map[]), acts);
    acts := [Get(0, false)] + acts;
    Prepend(Init(1), Dispatch(0, id, 0), Lone(id, false, AtGet, map[]), acts);
    acts := [Dispatch(0, id, 0)] + acts;
  }

  /** A run from the start to the second window: the worker of a cancelled wait is about to
  retire, and a caller that has found it has not yet asked. */
  lemma RetirementWindowIsReached(id: string) returns (acts: seq<Action>)
    ensures Legal(Init(1), acts) && Exec(Init(1), acts) == Lone(id, false, Retiring, map[1 := 0])
    ensures acts == [Dispatch(0, id, 0), Get(0, true), Cancelled(0), Dispatch(1, id, 1), TakeRerun(0)]
  {
    LoneStarts(id);
    LoneReloads(id, true);
    LoneIsFound(id, AtTakeRerun);
    LoneMoves(id, Parking, Cancelled(0), AtTakeRerun, map[]);
    LoneMoves(id, AtTakeRerun, TakeRerun(0), Retiring, map[1 := 0]);
    acts := [];
    Prepend(Lone(id, false, AtTakeRerun, map[1 := 0]), TakeRerun(0), Lone(id, false, Retiring, map[1 := 0]), acts);
    acts := [TakeRerun(0)] + acts;
    Prepend(Lone(id, false, AtTakeRerun, map[]), Dispatch(1, id, 1), Lone(id, false, AtTakeRerun, map[1 := 0]), acts);
    acts := [Dispatch(1, id, 1)] + acts;
    Prepend(Lone(id, false, Parking, map[]), Cancelled(0), Lone(id, false, AtTakeRerun, map[]), acts);
    acts := [Cancelled(0)] + acts;
    Prepend(Lone(id, false, AtGet, map[]), Get(0, true), Lone(id, false, Parking, map[]), acts);
    acts := [Get(0, true)] + acts;
    Prepend(Init(1), Dispatch(0, id, 0), Lone(id, false, AtGet, map[]), acts);
    acts := [Dispatch(0, id, 0)] + acts;
  }

  /** The second window: an ask that lands after the retirement. It sets a flag nobody reads,
  and the job is left with neither a worker nor a registration. */
  lemma AskAfterRetirement(s: State, c: CallerId, r: RunId)
    requires Inv(s) && At(s, r, Retiring) && !s.runs[r].rerun
    requires c in s.asking && s.asking[c] == r
    ensures var acts := [Retire(r), Ask(c)];
            && Legal(s, acts)
            && var t := Exec(s, acts);
               && s.runs[r].id !in t.inFlight && r in t.runs && !Live(t, r) && t.runs[r].rerun
               && (forall q | q in t.runs && t.runs[q].id == s.runs[r].id :: !Live(t, q))
  {
    var s1 := Apply(s, Retire(r));
    StepKeepsInv(s, Retire(r));
    StepKeepsInv(s1, Ask(c));
    assert Exec(s1, [Ask(c)]) == Apply(s1, Ask(c));
    assert [Retire(r), Ask(c)][1..] == [Ask(c)];
  }
}
