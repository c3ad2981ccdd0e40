/** Error messages and the gate that parks the queue when upstream asks for a pause
(internal/api/sabnzbd/upstream_break.go). */
module UpstreamBreak {
  import opened Decimal

  datatype Option<+T> = None | Some(value: T)

  const NANOS_PER_MINUTE: int := 60_000_000_000
  const DEFAULT_RATE_LIMIT_PARK: int := 90_000_000_000

  /** What the repository's patterns find in a text: the digit groups of every "short break
  ... N minutes" clause in order, and whether each of the other patterns matches. */
  datatype Findings = Findings(
    minutes: seq<string>,
    rateLimited: bool,
    resolverDown: bool,
    permanent: bool,
    noRetry: bool)

  const NOTHING: Findings := Findings([], false, false, false, false)

  /** Every message a job can end with. */
  datatype ErrMsg =
    | Backend(found: Findings)                              // a backend's own words
    | NoSignal                                              // "cli exited without completion signal"
    | Unverifiable                                          // "cannot verify ..."
    | NoAudio                                               // "... wrote no audio files"
    | PartialAlbum(got: int, want: int)
    | Canceled
    | PrepareFailed                                         // the job directory could not be made
    | ServiceUnavailable(service: string)                   // "... is not available in this deployment"
    | CircuitOpen(service: string, waited: Option<Findings>)
    | BudgetExhausted(inner: ErrMsg)
    | GaveUp(cooldowns: int, inner: ErrMsg)

  /** What the patterns find in a message. They are unanchored, so a prefix such as the
  budget's or the give-up's keeps what is found in the text behind it. */
  function Found(e: ErrMsg): Findings {
    match e
    case Backend(f) => f
    case ServiceUnavailable(_) => NOTHING.(permanent := true)
    case CircuitOpen(_, Some(waited)) => waited
    case BudgetExhausted(inner) => Found(inner)
    case GaveUp(_, inner) => Found(inner)
    case _ => NOTHING
  }

  /** The pause one digit group announces: 0 when it does not parse or is not positive. The
  product is a 64-bit time.Duration and wraps. */
  function Announced(digits: string): (d: int) {
    var mins := ParseInt(digits);
    if !mins.error.NoError? || mins.value <= 0 then 0 else Wrap64(mins.value * NANOS_PER_MINUTE)
  }

  /** A clause that says "about N minutes" announces N times sixty seconds, in nanoseconds, whenever
  that fits. */
  lemma AnnouncedIsMinutes(n: nat)
    requires n * 60 * 1_000_000_000 <= MAX_INT64
    ensures Announced(FormatNat(n)) == n * 60 * 1_000_000_000
  {
    ParsedInRange(n);
  }

  /** A number that does not fit announces nothing; nor does what is not a number. */
  lemma AnnouncesNothing(n: nat, digits: string)
    ensures n > MAX_INT64 ==> Announced(FormatNat(n)) == 0
    ensures !ParseInt(digits).error.NoError? ==> Announced(digits) == 0
  {
    ParsedInRange(n);
  }

  /** A prefix changes nothing about what is found; the program's own words ask for no pause, and of
  them only that a service is not deployed is about the release. */
  lemma OwnWords(e: ErrMsg, n: int, s: string, got: int, want: int)
    ensures Found(BudgetExhausted(e)) == Found(GaveUp(n, e)) == Found(e)
    ensures Found(NoSignal) == Found(Unverifiable) == Found(NoAudio) == Found(Canceled) == NOTHING
    ensures Found(PrepareFailed) == Found(PartialAlbum(got, want)) == Found(CircuitOpen(s, None)) == NOTHING
    ensures Found(ServiceUnavailable(s)).permanent && Found(ServiceUnavailable(s)).(permanent := false) == NOTHING
    ensures !NOTHING.permanent && !NOTHING.noRetry && !NOTHING.rateLimited && !NOTHING.resolverDown
  {
  }

  /** `best` is the longest positive pause announced, or 0 when there is none. */
  ghost predicate IsLongest(minutes: seq<string>, best: int) {
    && best >= 0
    && (forall i | 0 <= i < |minutes| :: Announced(minutes[i]) <= best)
    && (best > 0 ==> exists i | 0 <= i < |minutes| :: Announced(minutes[i]) == best)
  }

  function Longest(minutes: seq<string>): (best: nat) {
    if minutes == [] then 0
    else
      var best := Longest(minutes[..|minutes| - 1]);
      var d := Announced(minutes[|minutes| - 1]);
      if d > best then d else best
  }

  lemma {:induction false} LongestIsLongest(minutes: seq<string>)
    ensures IsLongest(minutes, Longest(minutes))
  {
    if minutes != [] {
      var init := minutes[..|minutes| - 1];
      LongestIsLongest(init);
      assert forall i | 0 <= i < |init| :: minutes[i] == init[i];
    }
  }

  /** How long a text asks us to stay away, if it does: an announced break first, a rate
  limit or a dead resolver otherwise. */
  function CooldownOf(f: Findings, park: int): (r: Option<int>)
    ensures r.Some? ==> r.value > 0
  {
    var best := Longest(f.minutes);
    if best > 0 then Some(best)
    else if f.rateLimited || f.resolverDown then Some(if park <= 0 then DEFAULT_RATE_LIMIT_PARK else park)
    else None
  }

  /** A text asks for a pause exactly when it announces a positive one, or is a rate limit or
  a dead resolver; and the pause asked for is the longest it announces. */
  lemma CooldownMeaning(f: Findings, park: int)
    ensures CooldownOf(f, park).Some? <==>
              f.rateLimited || f.resolverDown || exists i | 0 <= i < |f.minutes| :: Announced(f.minutes[i]) > 0
    ensures CooldownOf(f, park).Some? ==>
              forall i | 0 <= i < |f.minutes| && Announced(f.minutes[i]) > 0 ::
                  Announced(f.minutes[i]) <= CooldownOf(f, park).value
    ensures (exists i | 0 <= i < |f.minutes| :: Announced(f.minutes[i]) > 0) ==>
              exists i | 0 <= i < |f.minutes| :: Announced(f.minutes[i]) == CooldownOf(f, park).value
    // without an announcement it is the configured pause, or ninety seconds
    ensures (forall i | 0 <= i < |f.minutes| :: Announced(f.minutes[i]) <= 0) && CooldownOf(f, park).Some? ==>
              CooldownOf(f, park).value == if park > 0 then park else 90 * 1_000_000_000
  {
    LongestIsLongest(f.minutes);
  }

  // ---------- The gate ----------

  datatype Announcement = Announcement(at: int, d: int, who: nat)

  function Max(a: int, b: int): int {
    if a >= b then a else b
  }

  /** Where the window ends after a whole history of announcements. */
  ghost function WindowEnd(log: seq<Announcement>, zero: int): int {
    if log == [] then zero
    else Max(WindowEnd(log[..|log| - 1], zero), log[|log| - 1].at + log[|log| - 1].d)
  }

  /** The pauses announced by pass `who`, in order. */
  ghost function PausesBy(log: seq<Announcement>, who: nat): seq<int> {
    if log == [] then []
    else
      var a := log[|log| - 1];
      var before := PausesBy(log[..|log| - 1], who);
      if a.who == who then before + [a.d] else before
  }

  lemma WindowEndAppend(log: seq<Announcement>, zero: int, a: Announcement, who: nat)
    ensures WindowEnd(log + [a], zero) == Max(WindowEnd(log, zero), a.at + a.d)
    ensures PausesBy(log + [a], who) == if a.who == who then PausesBy(log, who) + [a.d] else PausesBy(log, who)
  {
    assert (log + [a])[..|log|] == log;
  }

  /** The window covers every announcement ever made and is never longer than needed: it ends
  where some announcement said, or was never opened. */
  lemma {:induction false} WindowCoversEveryAnnouncement(log: seq<Announcement>, zero: int)
    ensures WindowEnd(log, zero) >= zero
    ensures forall i | 0 <= i < |log| :: WindowEnd(log, zero) >= log[i].at + log[i].d
    ensures WindowEnd(log, zero) == zero || exists i | 0 <= i < |log| :: WindowEnd(log, zero) == log[i].at + log[i].d
  {
    if log != [] {
      var n := |log| - 1;
      WindowCoversEveryAnnouncement(log[..n], zero);
      assert forall i | 0 <= i < n :: log[..n][i] == log[i];
    }
  }

  /** The log only grows, by announcements made from `since` on. */
  ghost predicate Grown(before: seq<Announcement>, after: seq<Announcement>, since: int) {
    before <= after && forall i | |before| <= i < |after| :: since <= after[i].at
  }

  lemma GrownOn(a: seq<Announcement>, b: seq<Announcement>, c: seq<Announcement>, since: int, later: int)
    requires Grown(a, b, since) && Grown(b, c, later) && since <= later
    ensures Grown(a, c, since)
  {
    forall i | |a| <= i < |c| ensures since <= c[i].at {
      if i < |b| {
        assert c[i] == b[i];
      }
    }
  }

  /** For somebody who found the window over at `left`, when the log had `n` entries: later the
  window is open if and only if an announcement made since then is still running. */
  lemma OpenAgainIff(log: seq<Announcement>, zero: int, n: nat, left: int, now: int)
    requires n <= |log| && zero <= left <= now && WindowEnd(log[..n], zero) <= left
    ensures now < WindowEnd(log, zero) <==> exists i | n <= i < |log| :: log[i].at + log[i].d > now
  {
    WindowCoversEveryAnnouncement(log, zero);
    WindowCoversEveryAnnouncement(log[..n], zero);
    assert forall i | 0 <= i < n :: log[..n][i] == log[i];
  }

  class UpstreamBreakGate {
    const rateLimitPark: int
    const poll: nat
    ghost const zero: int
    var until: int
    ghost var log: seq<Announcement>
    /** The log sorted by pass: what `PausesBy` reads off it. */
    ghost var announced: map<nat, seq<int>>

    /** The pauses announced by pass `who`, in order. */
    ghost function AnnouncedBy(who: nat): seq<int>
      reads this
    {
      if who in announced then announced[who] else []
    }

    /** The window is what the log means, and the log is sorted by pass; callers need not see the
    latter, which is behind a trigger. */
    ghost predicate Valid()
      reads this
    {
      && poll > 0 && until == WindowEnd(log, zero)
      && forall g: UpstreamBreakGate {:trigger g.Sorted()} | g == this :: g.Sorted()
    }

    ghost predicate Sorted()
      reads this
    {
      forall w {:trigger PausesBy(log, w)} :: PausesBy(log, w) == AnnouncedBy(w)
    }

    constructor (rateLimitPark: int, poll: nat, zero: int)
      requires poll > 0
      ensures Valid() && log == [] && this.rateLimitPark == rateLimitPark && this.poll == poll && until == zero
    {
      this.rateLimitPark := rateLimitPark;
      this.poll := poll;
      this.zero := zero;
      until := zero;
      log := [];
      announced := map[];
    }

    method CooldownFor(f: Findings) returns (r: Option<int>)
      ensures r == CooldownOf(f, rateLimitPark)
    {
      var best := 0;
      for i := 0 to |f.minutes|
        invariant best == Longest(f.minutes[..i])
      {
        assert f.minutes[..i + 1][..i] == f.minutes[..i];
        var mins := ParseInt(f.minutes[i]);
        if !mins.error.NoError? || mins.value <= 0 {
          continue;
        }
        var d := Wrap64(mins.value * NANOS_PER_MINUTE);
        if d > best {
          best := d;
        }
      }
      assert f.minutes[..|f.minutes|] == f.minutes;
      if best > 0 {
        return Some(best);
      }
      if f.rateLimited || f.resolverDown {
        var park := rateLimitPark;
        if park <= 0 {
          park := DEFAULT_RATE_LIMIT_PARK;
        }
        return Some(park);
      }
      return None;
    }

    /** Pushes the window out to now + d, never in. */
    method Extend(d: int, now: int, ghost who: nat) returns (moved: bool)
      requires Valid()
      modifies this
      ensures Valid()
      ensures log == if d > 0 then old(log) + [Announcement(now, d, who)] else old(log)
      ensures until == if d > 0 then Max(old(until), now + d) else old(until)
      ensures moved <==> until > old(until)
      ensures announced == if d > 0 then old(announced)[who := old(AnnouncedBy(who)) + [d]] else old(announced)
    {
      assert Sorted();
      if d <= 0 {
        return false;
      }
      forall w
        ensures WindowEnd(log + [Announcement(now, d, who)], zero) == Max(WindowEnd(log, zero), now + d)
        ensures PausesBy(log + [Announcement(now, d, who)], w) ==
            if who == w then PausesBy(log, w) + [d] else PausesBy(log, w)
      {
        WindowEndAppend(log, zero, Announcement(now, d, who), w);
      }
      log := log + [Announcement(now, d, who)];
      announced := announced[who := AnnouncedBy(who) + [d]];
      var cand := now + d;
      if cand > until {
        until := cand;
        return true;
      }
      return false;
    }

    method Remaining(now: int) returns (r: int)
      requires Valid()
      ensures now + r == Max(now, until)
    {
      if until - now > 0 {
        return until - now;
      }
      return 0;
    }
  }
}
