/** Workers, slots and the break gate together, under one clock: what the gate can promise to a
worker that has left it and is still waiting for its circuits or its slot
(internal/api/sabnzbd/handler.go:500-526, internal/api/sabnzbd/upstream_break.go:18-31). */
module SlotWait {
  import opened Dispatch
  import opened UpstreamBreak

  /** `left` has the length of the gate's log when a worker last left the gate; it is forgotten
  when the worker parks again. */
  datatype Timed = Timed(s: State, now: int, log: seq<Announcement>, left: map<RunId, nat>)

  /** A step of the protocol, a worker leaving the gate, an answer that announces a pause, or
  time passing. */
  datatype Move = Step(a: Action) | LeaveGate(run: RunId) | Announce(run: RunId, d: int) | Wait(t: nat)

  function Begin(capacity: nat): Timed {
    Timed(Init(capacity), 0, [], map[])
  }

  ghost predicate CanMove(t: Timed, m: Move) {
    match m
    case Step(a) => Enabled(t.s, a) && (a.ParkOver? ==> a.run in t.left)
    case LeaveGate(r) => At(t.s, r, Parking) && t.now >= WindowEnd(t.log, 0)
    case Announce(r, d) => At(t.s, r, Running) && d > 0
    case Wait(_) => true
  }

  predicate ParksAgain(a: Action) {
    a.Get? || (a.Recheck? && !a.admitted)
  }

  ghost function Do(t: Timed, m: Move): Timed
    requires CanMove(t, m)
  {
    match m
    case Step(a) => t.(s := Apply(t.s, a), left := if ParksAgain(a) then t.left - {a.run} else t.left)
    case LeaveGate(r) => t.(left := t.left[r := |t.log|])
    case Announce(r, d) => t.(log := t.log + [Announcement(t.now, d, r)])
    case Wait(d) => t.(now := t.now + d)
  }

  /** Each park passes the gate anew: a worker that has just reloaded its job, or been sent back by
  its second look, has to leave the gate again before it can go for a slot. */
  lemma EachParkPassesTheGate(t: Timed, r: RunId, again: Action)
    requires (again == Get(r, true) || again == Recheck(r, false)) && CanMove(t, Step(again))
    ensures At(Do(t, Step(again)).s, r, Parking) && r !in Do(t, Step(again)).left
    ensures !CanMove(Do(t, Step(again)), Step(ParkOver(r)))
  {
  }

  /** A run, and where it leads. */
  ghost predicate Possible(capacity: nat, ms: seq<Move>)
    decreases |ms|, 0
  {
    ms == [] || (Possible(capacity, ms[..|ms| - 1]) && CanMove(After(capacity, ms[..|ms| - 1]), ms[|ms| - 1]))
  }

  ghost function After(capacity: nat, ms: seq<Move>): Timed
    requires Possible(capacity, ms)
    decreases |ms|, 1
  {
    if ms == [] then Begin(capacity) else Do(After(capacity, ms[..|ms| - 1]), ms[|ms| - 1])
  }

  // ---------- What holds in every run ----------

  predicate PastGate(pc: Pc) {
    pc.Acquiring? || pc.Rechecking? || pc.Running?
  }

  /** Whoever is past the gate has left it, and found everything announced before over. */
  ghost predicate Kept(t: Timed) {
    && Inv(t.s) && 0 <= t.now
    && (forall r | r in t.left :: t.left[r] <= |t.log| && WindowEnd(t.log[..t.left[r]], 0) <= t.now)
    && (forall r | r in t.s.runs && PastGate(t.s.runs[r].pc) :: r in t.left)
  }

  /** Only ParkOver takes a worker past the gate, and whoever parks again is not past it. */
  lemma PastGateBefore(s: State, a: Action, r: RunId)
    requires Registered(s) && Enabled(s, a) && r in Apply(s, a).runs && PastGate(Apply(s, a).runs[r].pc)
    ensures r in s.runs
    ensures !StepOf(a, r) || a.ParkOver? || (PastGate(s.runs[r].pc) && !ParksAgain(a))
    ensures !StepOf(a, r) ==> PastGate(s.runs[r].pc)
  {
    if r in s.runs && !StepOf(a, r) {
      OthersStep(s, a, r);
    }
  }

  lemma StepKeeps(t: Timed, a: Action)
    requires Kept(t) && CanMove(t, Step(a))
    ensures Kept(Do(t, Step(a)))
  {
    StepKeepsInv(t.s, a);
    var u := Do(t, Step(a));
    forall r | r in u.s.runs && PastGate(u.s.runs[r].pc)
      ensures r in u.left
    {
      PastGateBefore(t.s, a, r);
    }
  }

  lemma MoveKeeps(t: Timed, m: Move)
    requires Kept(t) && CanMove(t, m)
    ensures Kept(Do(t, m))
  {
    match m
    case Step(a) => StepKeeps(t, a);
    case LeaveGate(r) =>
      assert t.log[..|t.log|] == t.log;
    case Announce(r, d) =>
      var u := Do(t, m);
      forall q | q in u.left ensures u.log[..u.left[q]] == t.log[..t.left[q]] {
      }
    case Wait(d) =>
  }

  lemma {:induction false} ReachableIsKept(capacity: nat, ms: seq<Move>)
    requires Possible(capacity, ms)
    ensures Kept(After(capacity, ms))
    decreases |ms|
  {
    if ms == [] {
      assert Holders(Init(capacity)) == {};
    } else {
      ReachableIsKept(capacity, ms[..|ms| - 1]);
      MoveKeeps(After(capacity, ms[..|ms| - 1]), ms[|ms| - 1]);
    }
  }

  /** In every run of any number of workers: one that waits for a slot, or runs, does so inside
  a break window if and only if somebody has announced a pause since it left the gate, and that
  pause is not over. */
  lemma InsideTheWindowIff(capacity: nat, ms: seq<Move>, r: RunId)
    requires Possible(capacity, ms)
    requires var t := After(capacity, ms); r in t.s.runs && PastGate(t.s.runs[r].pc)
    ensures var t := After(capacity, ms);
            && r in t.left
            && (t.now < WindowEnd(t.log, 0) <==>
                 exists i | t.left[r] <= i < |t.log| :: t.log[i].at + t.log[i].d > t.now)
  {
    ReachableIsKept(capacity, ms);
    var t := After(capacity, ms);
    OpenAgainIff(t.log, 0, t.left[r], t.now, t.now);
  }

  // ---------- And it happens ----------

  lemma Next(ms: seq<Move>, m: Move, t: Timed)
    requires Possible(1, ms) && CanMove(After(1, ms), m) && Do(After(1, ms), m) == t
    ensures Possible(1, ms + [m]) && After(1, ms + [m]) == t
  {
    assert (ms + [m])[..|ms|] == ms;
  }

  /** Two jobs, one slot. */
  function Two(first: Pc, second: Pc, tokens: nat): State {
    State(map["a" := 0, "b" := 1], map[0 := Run("a", false, first), 1 := Run("b", false, second)], map[], tokens, 1)
  }

  /** Where a move of one worker leads it. */
  function Target(a: Action): Pc
    requires OnlyMoves(a)
  {
    match a
    case Get(_, found) => if found then Parking else GetFailed
    case ParkOver(_) => Acquiring
    case Acquire(_) => Rechecking
    case Recheck(_, admitted) => if admitted then Running else Parking
    case PassOver(_) => Finishing
    case _ => AtTakeRerun
  }

  function TokensAfter(tokens: nat, a: Action): int {
    if a.Acquire? then tokens + 1 else if a.Release? || (a.Recheck? && !a.admitted) then tokens - 1 else tokens
  }

  lemma FirstMoves(first: Pc, second: Pc, tokens: nat, a: Action)
    requires OnlyMoves(a) && a.run == 0 && Enabled(Two(first, second, tokens), a)
    ensures TokensAfter(tokens, a) >= 0
    ensures Apply(Two(first, second, tokens), a) == Two(Target(a), second, TokensAfter(tokens, a))
  {
    var runs := Two(first, second, tokens).runs;
    assert runs[0 := Run("a", false, Target(a))] == Two(Target(a), second, 0).runs;
  }

  lemma SecondMoves(first: Pc, second: Pc, tokens: nat, a: Action)
    requires OnlyMoves(a) && a.run == 1 && Enabled(Two(first, second, tokens), a)
    ensures TokensAfter(tokens, a) >= 0
    ensures Apply(Two(first, second, tokens), a) == Two(first, Target(a), TokensAfter(tokens, a))
  {
    var runs := Two(first, second, tokens).runs;
    assert runs[1 := Run("b", false, Target(a))] == Two(first, Target(a), 0).runs;
  }

  /** One step of the first or the second worker at the end of a run; nobody parks again. */
  lemma Moves(ms: seq<Move>, a: Action, first: Pc, second: Pc, tokens: nat, now: int, log: seq<Announcement>,
              left: map<RunId, nat>)
    returns (longer: seq<Move>)
    requires Possible(1, ms) && After(1, ms) == Timed(Two(first, second, tokens), now, log, left)
    requires OnlyMoves(a) && a.run < 2 && Enabled(Two(first, second, tokens), a)
    requires (a.ParkOver? ==> a.run in left) && (ParksAgain(a) ==> a.run !in left)
    ensures TokensAfter(tokens, a) >= 0 && longer == ms + [Step(a)] && Possible(1, longer)
    ensures After(1, longer) ==
            Timed(if a.run == 0 then Two(Target(a), second, TokensAfter(tokens, a))
                  else Two(first, Target(a), TokensAfter(tokens, a)), now, log, left)
  {
    if a.run == 0 {
      FirstMoves(first, second, tokens, a);
    } else {
      SecondMoves(first, second, tokens, a);
    }
    assert a.run !in left ==> left - {a.run} == left;
    longer := ms + [Step(a)];
    Next(ms, Step(a), After(1, ms).(s := Apply(Two(first, second, tokens), a)));
  }

  lemma BothStart() returns (ms: seq<Move>)
    ensures Possible(1, ms) && After(1, ms) == Timed(Two(AtGet, AtGet, 0), 0, [], map[])
  {
    var one := State(map["a" := 0], map[0 := Run("a", false, AtGet)], map[], 0, 1);
    assert Apply(Init(1), Dispatch(0, "a", 0)) == one;
    assert Apply(one, Dispatch(1, "b", 1)) == Two(AtGet, AtGet, 0);
    ms := [];
    Next(ms, Step(Dispatch(0, "a", 0)), Timed(one, 0, [], map[]));
    ms := ms + [Step(Dispatch(0, "a", 0))];
    Next(ms, Step(Dispatch(1, "b", 1)), Timed(Two(AtGet, AtGet, 0), 0, [], map[]));
    ms := ms + [Step(Dispatch(1, "b", 1))];
  }

  lemma BothPark() returns (ms: seq<Move>)
    ensures Possible(1, ms) && After(1, ms) == Timed(Two(Parking, Parking, 0), 0, [], map[0 := 0, 1 := 0])
  {
    ms := BothStart();
    ms := Moves(ms, Get(0, true), AtGet, AtGet, 0, 0, [], map[]);
    ms := Moves(ms, Get(1, true), Parking, AtGet, 0, 0, [], map[]);
    Next(ms, LeaveGate(0), Timed(Two(Parking, Parking, 0), 0, [], map[0 := 0]));
    ms := ms + [LeaveGate(0)];
    Next(ms, LeaveGate(1), Timed(Two(Parking, Parking, 0), 0, [], map[0 := 0, 1 := 0]));
    ms := ms + [LeaveGate(1)];
  }

  lemma FirstTakesTheSlot() returns (ms: seq<Move>)
    ensures Possible(1, ms) && After(1, ms) == Timed(Two(Running, Acquiring, 1), 0, [], map[0 := 0, 1 := 0])
  {
    var left: map<RunId, nat> := map[0 := 0, 1 := 0];
    ms := BothPark();
    ms := Moves(ms, ParkOver(0), Parking, Parking, 0, 0, [], left);
    ms := Moves(ms, ParkOver(1), Acquiring, Parking, 0, 0, [], left);
    ms := Moves(ms, Acquire(0), Acquiring, Acquiring, 0, 0, [], left);
    ms := Moves(ms, Recheck(0, true), Rechecking, Acquiring, 1, 0, [], left);
  }

  lemma FirstAnnouncesAPause() returns (ms: seq<Move>)
    ensures Possible(1, ms)
    ensures After(1, ms) == Timed(Two(Running, Acquiring, 1), 1, [Announcement(1, 60, 0)], map[0 := 0, 1 := 0])
  {
    ms := FirstTakesTheSlot();
    Next(ms, Wait(1), After(1, ms).(now := 1));
    ms := ms + [Wait(1)];
    Next(ms, Announce(0, 60), After(1, ms).(log := [Announcement(1, 60, 0)]));
    ms := ms + [Announce(0, 60)];
  }

  /** Two workers, one slot: the second has left the open gate and is blocked on the slot while
  the first is asked for a pause of 60. The first gives its slot back, the second takes it, finds
  its circuit closed, and runs 60 before the break is over. */
  lemma BlockedWorkerRunsInsideTheBreak() returns (ms: seq<Move>)
    ensures Possible(1, ms)
    ensures var t := After(1, ms); At(t.s, 1, Running) && t.now == 1 && WindowEnd(t.log, 0) == 61
  {
    var left: map<RunId, nat> := map[0 := 0, 1 := 0];
    var log := [Announcement(1, 60, 0)];
    ms := FirstAnnouncesAPause();
    ms := Moves(ms, PassOver(0), Running, Acquiring, 1, 1, log, left);
    ms := Moves(ms, Release(0), Finishing, Acquiring, 1, 1, log, left);
    ms := Moves(ms, Acquire(1), AtTakeRerun, Acquiring, 0, 1, log, left);
    ms := Moves(ms, Recheck(1, true), AtTakeRerun, Rechecking, 1, 1, log, left);
    assert log[..0] == [];
  }
}
