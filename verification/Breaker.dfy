/** The per-service circuit breaker (internal/breaker/breaker.go).

The breaker keeps two numbers per service. The ghost history records every call ever
made, by whom and when, and `Valid` says what the two numbers mean about that history. */
module Breaker {

  datatype Op = Allow | RecordFailure | RecordSuccess | Reset

  /** One call: when, on which service, which operation, and by which pass. */
  datatype Call = Call(at: int, key: string, op: Op, who: nat)

  type History = seq<Call>

  /** What an Allow was told: whether the service's circuit let the caller in. */
  datatype Answer = Answer(service: string, allowed: bool)

  datatype Entry = Entry(consecutiveFailures: nat, openedAt: int)

  datatype State = State(open: bool, consecutiveFailures: nat, openedAt: int, retryAt: int)

  // ---------- What a history says, without the breaker's own fields ----------

  ghost predicate Chronological(h: History) {
    forall i, j | 0 <= i <= j < |h| :: h[i].at <= h[j].at
  }

  /** The times of the failures of `key` in `h`, oldest first. */
  ghost function FailureTimes(h: History, key: string): (ts: seq<int>)
    ensures |ts| <= |h|
  {
    if h == [] then []
    else
      var c := h[|h| - 1];
      var before := FailureTimes(h[..|h| - 1], key);
      if c.key == key && c.op.RecordFailure? then before + [c.at] else before
  }

  /** A streak is open at `t` when it has reached the threshold and its threshold-th
  failure is younger than one cooldown. */
  ghost predicate OpenStreak(streak: seq<int>, threshold: nat, cooldown: int, t: int)
    requires threshold >= 1
  {
    |streak| >= threshold && t - streak[threshold - 1] < cooldown
  }

  /** The failures of `key` since the last call that cleared it: a success, a reset, or an
  Allow that found the streak full and its cooldown over. */
  ghost function Streak(h: History, key: string, threshold: nat, cooldown: int): (ts: seq<int>)
    requires threshold >= 1
  {
    if h == [] then []
    else
      var c := h[|h| - 1];
      var before := Streak(h[..|h| - 1], key, threshold, cooldown);
      if c.key != key then before
      else match c.op
        case RecordFailure => before + [c.at]
        case RecordSuccess => []
        case Reset => []
        case Allow => if |before| >= threshold && !OpenStreak(before, threshold, cooldown, c.at) then [] else before
  }

  /** Every one of these services is open from one time to another. */
  ghost predicate OpenThrough(h: History, services: seq<string>, threshold: nat, cooldown: int, from: int, until: int)
    requires threshold >= 1
  {
    forall s, t | s in services && from <= t < until ::
      OpenStreak(Streak(h, s, threshold, cooldown), threshold, cooldown, t)
  }

  /** Call `i` wipes the record of `key`. */
  ghost predicate Clears(h: History, i: nat, key: string, threshold: nat, cooldown: int)
    requires threshold >= 1 && i < |h|
  {
    && h[i].key == key
    && match h[i].op
       case RecordFailure => false
       case RecordSuccess => true
       case Reset => true
       case Allow =>
         var before := Streak(h[..i], key, threshold, cooldown);
         |before| >= threshold && !OpenStreak(before, threshold, cooldown, h[i].at)
  }

  /** Failures of any service recorded by pass `who`, in order. */
  ghost function FailuresBy(h: History, who: nat): seq<string> {
    if h == [] then []
    else
      var c := h[|h| - 1];
      var before := FailuresBy(h[..|h| - 1], who);
      if c.who == who && c.op.RecordFailure? then before + [c.key] else before
  }

  /** An Allow, made after `h`, that finds the circuit closed. */
  ghost predicate Admits(h: History, c: Call, threshold: nat, cooldown: int)
    requires threshold >= 1
  {
    c.op.Allow? && !OpenStreak(Streak(h, c.key, threshold, cooldown), threshold, cooldown, c.at)
  }

  /** What the Allow calls of pass `who` were told, in order. */
  ghost function AnswersTo(h: History, who: nat, threshold: nat, cooldown: int): seq<Answer>
    requires threshold >= 1
  {
    if h == [] then []
    else
      var c := h[|h| - 1];
      var init := h[..|h| - 1];
      var before := AnswersTo(init, who, threshold, cooldown);
      if c.who == who && c.op.Allow? then before + [Answer(c.key, Admits(init, c, threshold, cooldown))] else before
  }

  lemma DeedsAppend(h: History, c: Call, who: nat, threshold: nat, cooldown: int)
    requires threshold >= 1
    ensures FailuresBy(h + [c], who) ==
            (if c.who == who && c.op.RecordFailure? then FailuresBy(h, who) + [c.key] else FailuresBy(h, who))
    ensures AnswersTo(h + [c], who, threshold, cooldown) ==
            var before := AnswersTo(h, who, threshold, cooldown);
            if c.who == who && c.op.Allow? then before + [Answer(c.key, Admits(h, c, threshold, cooldown))] else before
  {
    assert (h + [c])[..|h|] == h;
  }

  lemma StreakAppend(h: History, c: Call, key: string, threshold: nat, cooldown: int)
    requires threshold >= 1
    ensures c.key != key ==> Streak(h + [c], key, threshold, cooldown) == Streak(h, key, threshold, cooldown)
    ensures c.key == key ==>
              Streak(h + [c], key, threshold, cooldown) ==
              match c.op
              case RecordFailure => Streak(h, key, threshold, cooldown) + [c.at]
              case RecordSuccess => []
              case Reset => []
              case Allow =>
                var before := Streak(h, key, threshold, cooldown);
                if |before| >= threshold && !OpenStreak(before, threshold, cooldown, c.at) then [] else before
  {
    assert (h + [c])[..|h|] == h;
  }

  lemma ClearsPrefix(h: History, n: nat, i: nat, key: string, threshold: nat, cooldown: int)
    requires threshold >= 1 && i < n <= |h|
    ensures Clears(h[..n], i, key, threshold, cooldown) <==> Clears(h, i, key, threshold, cooldown)
  {
    assert h[..n][..i] == h[..i];
  }

  /** The streak, read off the history with no recursion on clearing: it is exactly the
  failures recorded after the last clearing call. */
  lemma {:induction false} StreakIsFailuresSinceLastClear(h: History, key: string, threshold: nat, cooldown: int)
    returns (from: nat)
    requires threshold >= 1
    // `from` is where the current record starts: right after the last clearing call
    ensures from <= |h| && (from > 0 ==> Clears(h, from - 1, key, threshold, cooldown))
    ensures forall i | from <= i < |h| :: !Clears(h, i, key, threshold, cooldown)
    ensures Streak(h, key, threshold, cooldown) == FailureTimes(h[from..], key)
  {
    from := 0;
    if h != [] {
      var n := |h| - 1;
      if Clears(h, n, key, threshold, cooldown) {
        from := |h|;
      } else {
        from := StreakIsFailuresSinceLastClear(h[..n], key, threshold, cooldown);
        assert h[from..][..n - from] == h[..n][from..];
        forall i | 0 <= i < n {
          ClearsPrefix(h, n, i, key, threshold, cooldown);
        }
      }
    }
  }

  /** Failures beyond the threshold never move the end of the open window: it is fixed by the
  threshold-th failure. */
  lemma {:induction false} ExtraFailuresNeverExtend(h: History, more: History, key: string, threshold: nat,
      cooldown: int, t: int)
    requires threshold >= 1
    requires |Streak(h, key, threshold, cooldown)| >= threshold
    requires forall c | c in more :: c.key == key ==> c.op.RecordFailure?
    ensures |Streak(h + more, key, threshold, cooldown)| >= threshold
    ensures Streak(h + more, key, threshold, cooldown)[threshold - 1]
         == Streak(h, key, threshold, cooldown)[threshold - 1]
    ensures OpenStreak(Streak(h + more, key, threshold, cooldown), threshold, cooldown, t) <==>
            OpenStreak(Streak(h, key, threshold, cooldown), threshold, cooldown, t)
  {
    if more == [] {
      assert h + more == h;
    } else {
      var n := |more| - 1;
      ExtraFailuresNeverExtend(h, more[..n], key, threshold, cooldown, t);
      assert h + more == (h + more[..n]) + [more[n]];
      StreakAppend(h + more[..n], more[n], key, threshold, cooldown);
    }
  }

  /** `trial` is the Allow that finds the streak of `key` full and its cooldown over. */
  ghost predicate IsTrial(h: History, trial: Call, key: string, threshold: nat, cooldown: int)
    requires threshold >= 1
  {
    && trial.key == key && trial.op.Allow?
    && |Streak(h, key, threshold, cooldown)| >= threshold
    && !OpenStreak(Streak(h, key, threshold, cooldown), threshold, cooldown, trial.at)
  }

  /** After the trial, re-opening takes `threshold` new failures: any history that goes on from
  it with fewer failures than that is closed. */
  lemma {:induction false} ReopeningTakesAFullThreshold(h: History, trial: Call, more: History, key: string,
                                                        threshold: nat, cooldown: int, t: int)
    requires threshold >= 1 && IsTrial(h, trial, key, threshold, cooldown)
    requires |FailureTimes(more, key)| < threshold
    ensures !OpenStreak(Streak(h + [trial] + more, key, threshold, cooldown), threshold, cooldown, t)
    ensures |Streak(h + [trial] + more, key, threshold, cooldown)| <= |FailureTimes(more, key)|
  {
    StreakAppend(h, trial, key, threshold, cooldown);
    StreakGrowsByFailuresOnly(h + [trial], more, key, threshold, cooldown);
  }

  /** And a full threshold does it: while nothing but failures is recorded after the trial, the
  circuit is open exactly from the threshold-th of them on, for one cooldown. */
  lemma {:induction false} ReopensExactlyAtTheThreshold(h: History, trial: Call, more: History, key: string,
                                                        threshold: nat, cooldown: int, t: int)
    requires threshold >= 1 && IsTrial(h, trial, key, threshold, cooldown)
    requires forall c | c in more :: c.key == key ==> c.op.RecordFailure?
    ensures OpenStreak(Streak(h + [trial] + more, key, threshold, cooldown), threshold, cooldown, t) <==>
              var failures := FailureTimes(more, key);
              |failures| >= threshold && t - failures[threshold - 1] < cooldown
  {
    StreakAppend(h, trial, key, threshold, cooldown);
    FailuresPileUp(h + [trial], more, key, threshold, cooldown);
  }

  /** One failure after the trial re-opens the circuit if and only if the threshold is one. */
  lemma OneFailureReopensIff(h: History, trial: Call, f: Call, key: string, threshold: nat, cooldown: int, t: int)
    requires threshold >= 1 && IsTrial(h, trial, key, threshold, cooldown)
    requires f.key == key && f.op.RecordFailure?
    ensures OpenStreak(Streak(h + [trial] + [f], key, threshold, cooldown), threshold, cooldown, t) <==>
              threshold == 1 && t - f.at < cooldown
  {
    StreakAppend(h, trial, key, threshold, cooldown);
    StreakAppend(h + [trial], f, key, threshold, cooldown);
  }

  /** The failing input: two failures open a circuit with threshold 2, the trial comes at the
  end of its cooldown, and one more failure at once leaves it closed for good. */
  lemma OneFailureDoesNotReopen(key: string, who: nat, t: int)
    ensures var h := [Call(0, key, RecordFailure, who), Call(0, key, RecordFailure, who)];
            var trial := Call(10, key, Op.Allow, who);
            && OpenStreak(Streak(h, key, 2, 10), 2, 10, 9) && IsTrial(h, trial, key, 2, 10)
            && !OpenStreak(Streak(h + [trial] + [Call(10, key, RecordFailure, who)], key, 2, 10), 2, 10, t)
  {
    var f := Call(0, key, RecordFailure, who);
    StreakAppend([], f, key, 2, 10);
    StreakAppend([f], f, key, 2, 10);
    assert [] + [f] == [f] && [f] + [f] == [f, f];
    OneFailureReopensIff([f, f], Call(10, key, Op.Allow, who), Call(10, key, RecordFailure, who), key, 2, 10, t);
  }

  /** A failure, and a trial and a failure at the end of each cooldown after it, the last at `last`. */
  ghost function Rounds(key: string, cooldown: nat, last: nat, who: nat): History
    requires cooldown > 0
  {
    if last < cooldown then [Call(last, key, RecordFailure, who)]
    else
      Rounds(key, cooldown, last - cooldown, who)
      + [Call(last, key, Op.Allow, who)] + [Call(last, key, RecordFailure, who)]
  }

  /** With threshold 1 these calls keep a circuit open through. */
  lemma {:induction false} RoundsKeepOpen(key: string, cooldown: nat, last: nat, who: nat)
    requires cooldown > 0
    ensures Streak(Rounds(key, cooldown, last, who), key, 1, cooldown) == [last]
  {
    if last < cooldown {
      StreakAppend([], Call(last, key, RecordFailure, who), key, 1, cooldown);
      assert [] + [Call(last, key, RecordFailure, who)] == Rounds(key, cooldown, last, who);
    } else {
      var h := Rounds(key, cooldown, last - cooldown, who);
      var trial := Call(last, key, Op.Allow, who);
      RoundsKeepOpen(key, cooldown, last - cooldown, who);
      StreakAppend(h, trial, key, 1, cooldown);
      StreakAppend(h + [trial], Call(last, key, RecordFailure, who), key, 1, cooldown);
    }
  }

  lemma {:induction false} RoundsAreOver(key: string, cooldown: nat, last: nat, who: nat)
    requires cooldown > 0
    ensures forall c | c in Rounds(key, cooldown, last, who) :: c.at <= last
  {
    if last >= cooldown {
      RoundsAreOver(key, cooldown, last - cooldown, who);
    }
  }

  lemma Assoc(a: seq<int>, b: seq<int>, c: seq<int>)
    ensures a + b + c == a + (b + c)
  {
  }

  lemma {:induction false} FailuresPileUp(h: History, more: History, key: string, threshold: nat, cooldown: int)
    requires threshold >= 1
    requires forall c | c in more :: c.key == key ==> c.op.RecordFailure?
    ensures Streak(h + more, key, threshold, cooldown) == Streak(h, key, threshold, cooldown) + FailureTimes(more, key)
  {
    if more == [] {
      assert h + more == h;
    } else {
      var n := |more| - 1;
      FailuresPileUp(h, more[..n], key, threshold, cooldown);
      assert h + more == (h + more[..n]) + [more[n]];
      StreakAppend(h + more[..n], more[n], key, threshold, cooldown);
      assert more[n] in more;
      Assoc(Streak(h, key, threshold, cooldown), FailureTimes(more[..n], key), [more[n].at]);
    }
  }

  lemma {:induction false} StreakGrowsByFailuresOnly(h: History, more: History, key: string, threshold: nat,
      cooldown: int)
    requires threshold >= 1
    ensures |Streak(h + more, key, threshold, cooldown)| <=
            |Streak(h, key, threshold, cooldown)| + |FailureTimes(more, key)|
  {
    if more == [] {
      assert h + more == h;
    } else {
      var n := |more| - 1;
      StreakGrowsByFailuresOnly(h, more[..n], key, threshold, cooldown);
      assert h + more == (h + more[..n]) + [more[n]];
      StreakAppend(h + more[..n], more[n], key, threshold, cooldown);
    }
  }

  /** With no recorded failure of a service its circuit is closed at every instant. */
  lemma NoFailureNeverOpens(h: History, key: string, threshold: nat, cooldown: int, t: int)
    requires threshold >= 1
    requires |FailureTimes(h, key)| < threshold
    ensures !OpenStreak(Streak(h, key, threshold, cooldown), threshold, cooldown, t)
  {
    assert [] + h == h;
    StreakGrowsByFailuresOnly([], h, key, threshold, cooldown);
  }

  /** A failure in the history was reported by somebody. */
  lemma {:induction false} EveryFailureHasAReporter(h: History, key: string)
    ensures FailureTimes(h, key) != [] ==> exists who :: key in FailuresBy(h, who)
  {
    if h != [] {
      var n := |h| - 1;
      EveryFailureHasAReporter(h[..n], key);
      if FailureTimes(h[..n], key) != [] {
        var who :| key in FailuresBy(h[..n], who);
        assert key in FailuresBy(h, who);
      } else if FailureTimes(h, key) != [] {
        assert key in FailuresBy(h, h[n].who);
      }
    }
  }

  /** Call `i` is an Allow of pass `who` for `key`, made while the streak was open. */
  ghost predicate RefusedAt(h: History, i: nat, who: nat, key: string, threshold: nat, cooldown: int)
    requires threshold >= 1 && i < |h|
  {
    && h[i].who == who && h[i].op.Allow? && h[i].key == key
    && OpenStreak(Streak(h[..i], key, threshold, cooldown), threshold, cooldown, h[i].at)
  }

  /** The refusals in the history are those given while the streak of the service was open. */
  lemma {:induction false} RefusalsAreOpen(h: History, who: nat, key: string, threshold: nat, cooldown: int)
    requires threshold >= 1
    ensures Answer(key, false) in AnswersTo(h, who, threshold, cooldown) <==>
            exists i | 0 <= i < |h| :: RefusedAt(h, i, who, key, threshold, cooldown)
  {
    if h != [] {
      var n := |h| - 1;
      RefusalsAreOpen(h[..n], who, key, threshold, cooldown);
      forall i | 0 <= i < n
        ensures RefusedAt(h[..n], i, who, key, threshold, cooldown) <==> RefusedAt(h, i, who, key, threshold, cooldown)
      {
        assert h[..n][..i] == h[..i];
      }
      assert Answer(key, false) in AnswersTo(h, who, threshold, cooldown) <==>
        Answer(key, false) in AnswersTo(h[..n], who, threshold, cooldown)
        || RefusedAt(h, n, who, key, threshold, cooldown);
    }
  }

  /** So a service with fewer failures than the threshold is never refused to anybody. */
  lemma UnfailedIsNeverRefused(h: History, who: nat, key: string, threshold: nat, cooldown: int)
    requires threshold >= 1 && |FailureTimes(h, key)| < threshold
    ensures Answer(key, false) !in AnswersTo(h, who, threshold, cooldown)
  {
    RefusalsAreOpen(h, who, key, threshold, cooldown);
    forall i | 0 <= i < |h|
      ensures !RefusedAt(h, i, who, key, threshold, cooldown)
    {
      FailuresInPrefix(h, i, key);
      NoFailureNeverOpens(h[..i], key, threshold, cooldown, h[i].at);
    }
  }

  lemma {:induction false} FailuresInPrefix(h: History, n: nat, key: string)
    requires n <= |h|
    ensures |FailureTimes(h[..n], key)| <= |FailureTimes(h, key)|
  {
    if n < |h| {
      FailuresInPrefix(h[..|h| - 1], n, key);
      assert h[..|h| - 1][..n] == h[..n];
    } else {
      assert h[..n] == h;
    }
  }

  // ---------- The breaker itself ----------

  /** A service without an entry stands as one that never failed. */
  ghost function EntryOf(entries: map<string, Entry>, key: string): Entry {
    if key in entries then entries[key] else Entry(0, 0)
  }

  /** The two numbers of an entry are the length of the streak and, once the streak is full,
  the time of its threshold-th failure. */
  ghost predicate EntryMeans(e: Entry, streak: seq<int>, threshold: nat, clock: int)
    requires threshold >= 1
  {
    && e.consecutiveFailures == |streak|
    && (|streak| >= threshold ==> e.openedAt == streak[threshold - 1] <= clock)
  }

  /** One failure more, counted and, at the threshold, dated. */
  lemma FailureCounted(e: Entry, streak: seq<int>, threshold: nat, clock: int, now: int)
    requires threshold >= 1 && EntryMeans(e, streak, threshold, clock) && clock <= now
    ensures var n := e.consecutiveFailures + 1;
            EntryMeans(Entry(n, if n == threshold then now else e.openedAt), streak + [now], threshold, now)
  {
  }

  /** The entries mean what the history says, service by service. */
  ghost predicate AllMean(entries: map<string, Entry>, h: History, threshold: nat, cooldown: int, clock: int)
    requires threshold >= 1
  {
    forall key {:trigger Streak(h, key, threshold, cooldown)} ::
      EntryMeans(EntryOf(entries, key), Streak(h, key, threshold, cooldown), threshold, clock)
  }

  /** Only the entry of `key` may differ. */
  ghost predicate OnlyEntry(before: map<string, Entry>, after: map<string, Entry>, key: string) {
    forall k | k != key :: EntryOf(after, k) == EntryOf(before, k)
  }

  /** A call keeps what the entries mean if it updates the called one rightly and no other. */
  lemma CallKeepsMeaning(before: map<string, Entry>, after: map<string, Entry>, h: History, c: Call, threshold: nat,
                         cooldown: int, clock: int)
    requires threshold >= 1 && AllMean(before, h, threshold, cooldown, clock) && clock <= c.at
    requires OnlyEntry(before, after, c.key)
    requires EntryMeans(EntryOf(after, c.key), Streak(h + [c], c.key, threshold, cooldown), threshold, c.at)
    ensures AllMean(after, h + [c], threshold, cooldown, c.at)
    ensures forall key | key != c.key ::
              Streak(h + [c], key, threshold, cooldown) == Streak(h, key, threshold, cooldown)
  {
    forall key
      ensures EntryMeans(EntryOf(after, key), Streak(h + [c], key, threshold, cooldown), threshold, c.at)
      ensures key != c.key ==> Streak(h + [c], key, threshold, cooldown) == Streak(h, key, threshold, cooldown)
    {
      StreakAppend(h, c, key, threshold, cooldown);
      assert EntryMeans(EntryOf(before, key), Streak(h, key, threshold, cooldown), threshold, clock);
    }
  }

  /** What one pass had to do with the breaker: the failures it reported, the answers it got. */
  datatype Deeds = Deeds(failures: seq<string>, answers: seq<Answer>)

  /** The deeds of every pass. */
  type Ledger = map<nat, Deeds>

  ghost function DeedsOf(ledger: Ledger, who: nat): Deeds {
    if who in ledger then ledger[who] else Deeds([], [])
  }

  ghost function LedgerAfter(ledger: Ledger, c: Call, admits: bool): Ledger {
    var d := DeedsOf(ledger, c.who);
    if c.op.RecordFailure? then ledger[c.who := d.(failures := d.failures + [c.key])]
    else if c.op.Allow? then ledger[c.who := d.(answers := d.answers + [Answer(c.key, admits)])]
    else ledger
  }

  /** The ledger is the history sorted by caller. */
  ghost predicate Sorted(ledger: Ledger, h: History, threshold: nat, cooldown: int)
    requires threshold >= 1
  {
    && (forall w {:trigger FailuresBy(h, w)} :: FailuresBy(h, w) == DeedsOf(ledger, w).failures)
    && (forall w {:trigger AnswersTo(h, w, threshold, cooldown)} ::
          AnswersTo(h, w, threshold, cooldown) == DeedsOf(ledger, w).answers)
  }

  lemma LedgerAppend(ledger: Ledger, h: History, c: Call, threshold: nat, cooldown: int)
    requires threshold >= 1 && Sorted(ledger, h, threshold, cooldown)
    ensures Sorted(LedgerAfter(ledger, c, Admits(h, c, threshold, cooldown)), h + [c], threshold, cooldown)
  {
    forall w: nat
      ensures FailuresBy(h + [c], w) == DeedsOf(LedgerAfter(ledger, c, Admits(h, c, threshold, cooldown)), w).failures
      ensures AnswersTo(h + [c], w, threshold, cooldown) ==
              DeedsOf(LedgerAfter(ledger, c, Admits(h, c, threshold, cooldown)), w).answers
    {
      DeedsAppend(h, c, w, threshold, cooldown);
    }
  }

  class Breaker {
    const threshold: nat
    const cooldown: int
    var entries: map<string, Entry>
    /** Every call ever made, oldest first. */
    ghost var history: History
    /** No earlier than any call made so far. */
    ghost var clock: int
    /** The history sorted by caller: what `FailuresBy` and `AnswersTo` read off it. */
    ghost var ledger: Ledger

    /** The failures reported by pass `who`, in order. */
    ghost function Reported(who: nat): seq<string>
      reads this
    {
      DeedsOf(ledger, who).failures
    }

    /** What the Allow calls of pass `who` were told, in order. */
    ghost function Told(who: nat): seq<Answer>
      reads this
    {
      DeedsOf(ledger, who).answers
    }

    /** What the fields mean about the history. Callers need not see it: it is behind a trigger,
    and unfolds only where `Sound` is named. */
    ghost predicate Valid()
      reads this
    {
      threshold >= 1 && forall b: Breaker {:trigger b.Sound()} | b == this :: b.Sound()
    }

    ghost predicate Sound()
      reads this
    {
      && threshold >= 1
      && Sorted(ledger, history, threshold, cooldown)
      && Chronological(history)
      && (forall i | 0 <= i < |history| :: history[i].at <= clock)
      && AllMean(entries, history, threshold, cooldown, clock)
    }

    /** Whether the history forbids an attempt on `key` at time `t`. */
    ghost predicate Open(key: string, t: int)
      requires threshold >= 1
      reads this
    {
      OpenStreak(Streak(history, key, threshold, cooldown), threshold, cooldown, t)
    }

    /** One cooldown after the last call everything is closed. */
    lemma ClosedAfterCooldown(key: string, t: int)
      requires Valid() && t >= clock + cooldown
      ensures !Open(key, t)
    {
      assert Sound();
      assert EntryMeans(EntryOf(entries, key), Streak(history, key, threshold, cooldown), threshold, clock);
    }

    /** A service nobody has reported is closed at every instant. */
    lemma UnreportedNeverOpens(key: string, t: int)
      requires Valid() && forall who :: key !in Reported(who)
      ensures !Open(key, t)
    {
      assert Sound();
      EveryFailureHasAReporter(history, key);
      forall who ensures key !in FailuresBy(history, who) {
        assert key !in Reported(who);
      }
      NoFailureNeverOpens(history, key, threshold, cooldown, t);
    }

    /** Nor is it refused to anybody. */
    lemma UnreportedIsNeverRefused(key: string, who: nat)
      requires Valid() && forall w :: key !in Reported(w)
      ensures Answer(key, false) !in Told(who)
    {
      assert Sound();
      EveryFailureHasAReporter(history, key);
      forall w ensures key !in FailuresBy(history, w) {
        assert key !in Reported(w);
      }
      UnfailedIsNeverRefused(history, who, key, threshold, cooldown);
      assert AnswersTo(history, who, threshold, cooldown) == Told(who);
    }

    constructor (threshold: nat, cooldown: int, ghost now: int)
      requires threshold >= 1
      ensures Valid() && this.threshold == threshold && this.cooldown == cooldown
      ensures history == [] && clock == now
    {
      this.threshold := threshold;
      this.cooldown := cooldown;
      entries := map[];
      history := [];
      clock := now;
      ledger := map[];
    }

    /** The last step of a call, which has brought the entry of its service up to date: appends
    it to the history. */
    ghost method Log(c: Call, before: map<string, Entry>)
      requires threshold >= 1 && Sorted(ledger, history, threshold, cooldown) && Chronological(history)
      requires forall i | 0 <= i < |history| :: history[i].at <= clock
      requires clock <= c.at && AllMean(before, history, threshold, cooldown, clock)
      requires OnlyEntry(before, entries, c.key)
      requires EntryMeans(EntryOf(entries, c.key), Streak(history + [c], c.key, threshold, cooldown), threshold, c.at)
      modifies this`history, this`clock, this`ledger
      ensures Valid() && history == old(history) + [c] && clock == c.at
      ensures forall key | key != c.key ::
          Streak(history, key, threshold, cooldown) == Streak(old(history), key, threshold, cooldown)
      ensures ledger == LedgerAfter(old(ledger), c, Admits(old(history), c, threshold, cooldown))
    {
      CallKeepsMeaning(before, entries, history, c, threshold, cooldown, clock);
      LedgerAppend(ledger, history, c, threshold, cooldown);
      ledger := LedgerAfter(ledger, c, Admits(history, c, threshold, cooldown));
      history := history + [c];
      clock := c.at;
    }

    method Allow(key: string, now: int, ghost who: nat) returns (ok: bool)
      requires Valid() && clock <= now
      modifies this
      ensures Valid() && clock == now
      ensures history == old(history) + [Call(now, key, Op.Allow, who)]
      ensures ledger == LedgerAfter(old(ledger), Call(now, key, Op.Allow, who), ok)
      // refused exactly when the history says the circuit is open
      ensures ok <==> !old(Open(key, now))
      ensures ok <==> !Open(key, now)
      ensures forall k | k != key ::
          Streak(history, k, threshold, cooldown) == old(Streak(history, k, threshold, cooldown))
    {
      assert Sound();
      ghost var c, before := Call(now, key, Op.Allow, who), entries;
      StreakAppend(history, c, key, threshold, cooldown);
      assert EntryMeans(EntryOf(entries, key), Streak(history, key, threshold, cooldown), threshold, clock);
      if key !in entries || entries[key].consecutiveFailures < threshold {
        ok := true;
      } else {
        var e := entries[key];
        ok := now - e.openedAt >= cooldown;
        if ok {
          entries := entries[key := e.(consecutiveFailures := 0)];
        }
      }
      Log(c, before);
    }

    method RetryAfter(key: string, now: int) returns (d: int)
      requires Valid()
      ensures d >= 0
      ensures d == 0 <==> !Open(key, now)
      // the wait is exact: closed from now + d on, open before
      ensures d > 0 ==> forall t | now <= t :: Open(key, t) <==> t < now + d
    {
      assert Sound();
      assert EntryMeans(EntryOf(entries, key), Streak(history, key, threshold, cooldown), threshold, clock);
      if key !in entries || entries[key].consecutiveFailures < threshold {
        return 0;
      }
      var remaining := cooldown - (now - entries[key].openedAt);
      if remaining <= 0 {
        return 0;
      }
      return remaining;
    }

    method RecordFailure(key: string, now: int, ghost who: nat)
      requires Valid() && clock <= now
      modifies this
      ensures Valid() && clock == now
      ensures history == old(history) + [Call(now, key, Op.RecordFailure, who)]
      ensures ledger == LedgerAfter(old(ledger), Call(now, key, Op.RecordFailure, who), false)
    {
      assert Sound();
      ghost var c, before := Call(now, key, Op.RecordFailure, who), entries;
      StreakAppend(history, c, key, threshold, cooldown);
      FailureCounted(EntryOf(entries, key), Streak(history, key, threshold, cooldown), threshold, clock, now);
      var e := if key in entries then entries[key] else Entry(0, 0);
      e := e.(consecutiveFailures := e.consecutiveFailures + 1);
      if e.consecutiveFailures == threshold {
        e := e.(openedAt := now);
      }
      entries := entries[key := e];
      Log(c, before);
    }

    method Reset(key: string, now: int, ghost who: nat)
      requires Valid() && clock <= now
      modifies this
      ensures Valid() && clock == now
      ensures history == old(history) + [Call(now, key, Op.Reset, who)]
      ensures ledger == old(ledger)
      ensures forall t :: !Open(key, t)
      ensures forall k | k != key ::
          Streak(history, k, threshold, cooldown) == old(Streak(history, k, threshold, cooldown))
    {
      assert Sound();
      ghost var c, before := Call(now, key, Op.Reset, who), entries;
      StreakAppend(history, c, key, threshold, cooldown);
      assert EntryMeans(EntryOf(entries, key), Streak(history, key, threshold, cooldown), threshold, clock);
      if key in entries {
        entries := entries[key := Entry(0, 0)];
      }
      Log(c, before);
    }

    method RecordSuccess(key: string, now: int, ghost who: nat)
      requires Valid() && clock <= now
      modifies this
      ensures Valid() && clock == now
      ensures history == old(history) + [Call(now, key, Op.RecordSuccess, who)]
      ensures ledger == old(ledger)
      ensures forall t :: !Open(key, t)
    {
      assert Sound();
      ghost var c, before := Call(now, key, Op.RecordSuccess, who), entries;
      StreakAppend(history, c, key, threshold, cooldown);
      assert EntryMeans(EntryOf(entries, key), Streak(history, key, threshold, cooldown), threshold, clock);
      if key in entries {
        entries := entries[key := entries[key].(consecutiveFailures := 0)];
      }
      Log(c, before);
    }

    /** Every service ever failed is reported, and reported open exactly when Allow would
    refuse it and RetryAfter would be positive. */
    method Status(now: int) returns (out: map<string, State>)
      requires Valid()
      ensures out.Keys == entries.Keys
      ensures forall key | key in out :: out[key].open <==> Open(key, now)
      ensures forall key | key !in out :: !Open(key, now)
      ensures forall key | key in out ::
                && out[key].consecutiveFailures == |Streak(history, key, threshold, cooldown)|
                && (out[key].consecutiveFailures >= threshold ==>
                      out[key].openedAt == Streak(history, key, threshold, cooldown)[threshold - 1])
      ensures forall key | key in out && out[key].open :: forall t | now <= t :: Open(key, t) <==> t < out[key].retryAt
    {
      assert Sound();
      out := map key | key in entries ::
        State(entries[key].consecutiveFailures >= threshold && now - entries[key].openedAt < cooldown,
              entries[key].consecutiveFailures, entries[key].openedAt, entries[key].openedAt + cooldown);
      forall key
        ensures key in out ==> (out[key].open <==> Open(key, now))
        ensures key !in out ==> !Open(key, now)
        ensures key in out ==>
                  && out[key].consecutiveFailures == |Streak(history, key, threshold, cooldown)|
                  && (out[key].consecutiveFailures >= threshold ==>
                        out[key].openedAt == Streak(history, key, threshold, cooldown)[threshold - 1])
        ensures key in out && out[key].open ==> forall t | now <= t :: Open(key, t) <==> t < out[key].retryAt
      {
        assert EntryMeans(EntryOf(entries, key), Streak(history, key, threshold, cooldown), threshold, clock);
      }
    }
  }
}
