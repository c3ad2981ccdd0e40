/** The published circuit park (internal/api/sabnzbd/handler.go:1046-1081): one field for all
workers, which each of them overwrites when it parks and clears when its own park is over. */
module ParkBoard {
  import opened UpstreamBreak

  /** A park as it is shown to the outside: the services it waits on, and until when. */
  datatype CircuitPark = CircuitPark(services: seq<string>, until: int)

  /** A worker shows its park, again in every turn of it, or is done with it. */
  datatype Step = Begin(who: nat, park: CircuitPark) | End(who: nat)

  // ---------- What a run of steps says ----------

  /** The workers that are parked. */
  ghost function Parked(steps: seq<Step>): set<nat> {
    if steps == [] then {}
    else match steps[|steps| - 1]
      case Begin(who, _) => Parked(steps[..|steps| - 1]) + {who}
      case End(who) => Parked(steps[..|steps| - 1]) - {who}
  }

  /** What is on the board. */
  ghost function Shown(steps: seq<Step>): Option<CircuitPark> {
    if steps == [] then None
    else match steps[|steps| - 1]
      case Begin(_, park) => Some(park)
      case End(_) => None
  }

  /** The parks one worker has shown, in order. */
  ghost function ShownBy(steps: seq<Step>, who: nat): seq<CircuitPark> {
    if steps == [] then []
    else
      var before := ShownBy(steps[..|steps| - 1], who);
      match steps[|steps| - 1]
      case Begin(w, park) => if w == who then before + [park] else before
      case End(_) => before
  }

  /** A step that can come after `steps`: only a worker that is parked is done with a park. */
  ghost predicate Follows(steps: seq<Step>, s: Step) {
    s.End? ==> s.who in Parked(steps)
  }

  /** A run of any number of workers. */
  ghost predicate Possible(steps: seq<Step>) {
    steps == [] || (Possible(steps[..|steps| - 1]) && Follows(steps[..|steps| - 1], steps[|steps| - 1]))
  }

  /** One step more. */
  lemma StepMore(steps: seq<Step>, s: Step)
    ensures Possible(steps + [s]) <==> Possible(steps) && Follows(steps, s)
    ensures Parked(steps + [s]) == if s.Begin? then Parked(steps) + {s.who} else Parked(steps) - {s.who}
    ensures Shown(steps + [s]) == if s.Begin? then Some(s.park) else None
    ensures forall w :: ShownBy(steps + [s], w) ==
              if s.Begin? && s.who == w then ShownBy(steps, w) + [s.park] else ShownBy(steps, w)
  {
    assert (steps + [s])[..|steps|] == steps;
  }

  // ---------- When the board tells the truth ----------

  /** Somebody is parked and nothing is shown. */
  ghost predicate Hides(steps: seq<Step>) {
    Shown(steps) == None && Parked(steps) != {}
  }

  /** The step that hides a park: a worker is done while some other one is parked. */
  ghost predicate Hiding(steps: seq<Step>, s: Step) {
    s.End? && Parked(steps) - {s.who} != {}
  }

  /** What is shown is the park of a worker that is still parked; so with nobody parked nothing
  is shown. */
  lemma ShownIsParked(steps: seq<Step>)
    requires Possible(steps) && Shown(steps).Some?
    ensures exists w :: w in Parked(steps) && ShownBy(steps, w) != []
                        && ShownBy(steps, w)[|ShownBy(steps, w)| - 1] == Shown(steps).value
  {
    var w := steps[|steps| - 1].who;
    assert w in Parked(steps);
  }

  /** The converse fails exactly so: in every run, somebody is parked and nothing is shown if and
  only if the last step was a worker done with its park while another one was parked. */
  lemma HidesIff(steps: seq<Step>)
    requires Possible(steps)
    ensures Hides(steps) <==> steps != [] && Hiding(steps[..|steps| - 1], steps[|steps| - 1])
  {
    if steps == [] {
      assert Parked(steps) == {};
    } else if steps[|steps| - 1].Begin? {
      assert Shown(steps).Some?;
    }
  }

  /** Two workers are enough. */
  lemma OneEndHidesTheOther(first: CircuitPark, second: CircuitPark)
    ensures var steps := [Begin(0, first), Begin(1, second), End(0)];
            Possible(steps) && Hides(steps) && Parked(steps) == {1}
  {
    StepMore([], Begin(0, first));
    StepMore([Begin(0, first)], Begin(1, second));
    StepMore([Begin(0, first), Begin(1, second)], End(0));
    assert [] + [Begin(0, first)] == [Begin(0, first)];
    assert [Begin(0, first)] + [Begin(1, second)] == [Begin(0, first), Begin(1, second)];
    assert [Begin(0, first), Begin(1, second)] + [End(0)] == [Begin(0, first), Begin(1, second), End(0)];
  }

  /** The board itself: parkUntil and parkServices. */
  class Board {
    var shown: Option<CircuitPark>
    /** Every step any worker ever made, oldest first. */
    ghost var steps: seq<Step>

    /** What is shown is what the steps mean. Callers need not see it: it is behind a trigger. */
    ghost predicate Valid()
      reads this
    {
      forall b: Board {:trigger b.Sound()} | b == this :: b.Sound()
    }

    ghost predicate Sound()
      reads this
    {
      Possible(steps) && shown == Shown(steps)
    }

    constructor ()
      ensures Valid() && steps == []
    {
      shown, steps := None, [];
    }

    method Show(park: CircuitPark, ghost who: nat)
      requires Valid()
      modifies this
      ensures Valid() && shown == Some(park) && steps == old(steps) + [Begin(who, park)]
      ensures !Hides(steps)
    {
      assert Sound();
      StepMore(steps, Begin(who, park));
      shown := Some(park);
      steps := steps + [Begin(who, park)];
    }

    /** Clears the board, whoever else is parked. */
    method Clear(ghost who: nat)
      requires Valid() && who in Parked(steps)
      modifies this
      ensures Valid() && shown == None && steps == old(steps) + [End(who)]
      ensures Hides(steps) <==> old(Parked(steps)) - {who} != {}
    {
      assert Sound();
      StepMore(steps, End(who));
      shown := None;
      steps := steps + [End(who)];
    }

    /** How much longer the park is expected to last, and on what: the truth about what was shown
    last, and 0 with nobody parked. With somebody parked it is 0 if and only if the last step hid
    that, or the time shown is over. */
    method State(now: int) returns (remaining: int, services: seq<string>)
      requires Valid()
      ensures remaining >= 0
      ensures remaining > 0 ==> shown == Some(CircuitPark(services, now + remaining))
      ensures remaining == 0 <==> shown == None || shown.value.until <= now
      ensures remaining == 0 ==> services == []
      ensures Parked(steps) == {} ==> remaining == 0
      ensures Parked(steps) != {} ==>
                (remaining == 0 <==>
                  || Hiding(steps[..|steps| - 1], steps[|steps| - 1])
                  || (steps[|steps| - 1].Begin? && steps[|steps| - 1].park.until <= now))
    {
      assert Sound();
      HidesIff(steps);
      if shown.Some? {
        ShownIsParked(steps);
      }
      if shown.Some? && shown.value.until > now {
        return shown.value.until - now, shown.value.services;
      }
      return 0, [];
    }
  }
}
