/** The two-channel drains. A backend run is two finite streams, events and errors; `pick`
says which of the open channels each select serves, so a statement for every `pick` is a
statement for every scheduling (internal/spotiflac/client.go CollectPythonResult and the
loop of internal/api/sabnzbd/handler.go attemptDownload). */
module Drains {
  import opened UpstreamBreak

  datatype EventKind = Complete | Progress | Metadata | Verification | Status

  datatype ProgressEvent = ProgressEvent(kind: EventKind, trackCount: int, size: int)

  datatype BackendError = BackendError(msg: ErrMsg, rawOutput: Option<Findings>)

  /** Index of the first complete event, or the length when there is none. */
  function FirstComplete(events: seq<ProgressEvent>): (k: nat)
    ensures k <= |events|
    ensures k < |events| ==> events[k].kind.Complete?
    ensures forall i | 0 <= i < k :: !events[i].kind.Complete?
  {
    if events == [] || events[0].kind.Complete? then 0 else 1 + FirstComplete(events[1..])
  }

  /** Index of the first error that is not nil, or the length when there is none. */
  function FirstError(errs: seq<Option<BackendError>>): (k: nat)
    ensures k <= |errs|
    ensures k < |errs| ==> errs[k].Some?
    ensures forall i | 0 <= i < k :: errs[i].None?
  {
    if errs == [] || errs[0].Some? then 0 else 1 + FirstError(errs[1..])
  }

  predicate HasComplete(events: seq<ProgressEvent>) {
    FirstComplete(events) < |events|
  }

  predicate HasError(errs: seq<Option<BackendError>>) {
    FirstError(errs) < |errs|
  }

  function NonNil(errs: seq<Option<BackendError>>): (es: seq<BackendError>)
    ensures forall e | e in es :: Some(e) in errs
  {
    if errs == [] then []
    else (if errs[0].Some? then [errs[0].value] else []) + NonNil(errs[1..])
  }

  lemma {:induction false} NonNilAppend(a: seq<Option<BackendError>>, e: Option<BackendError>)
    ensures NonNil(a + [e]) == NonNil(a) + (if e.Some? then [e.value] else [])
  {
    if a != [] {
      assert (a + [e])[1..] == a[1..] + [e];
      NonNilAppend(a[1..], e);
    } else {
      assert (a + [e])[1..] == [];
    }
  }

  lemma NonNilMore(errs: seq<Option<BackendError>>, from: nat, j: nat)
    requires from <= j < |errs|
    ensures NonNil(errs[from..j + 1]) == NonNil(errs[from..j]) + (if errs[j].Some? then [errs[j].value] else [])
    ensures NonNil(errs[j + 1..j + 1]) == []
  {
    NonNilAppend(errs[from..j], errs[j]);
    assert errs[from..j + 1] == errs[from..j] + [errs[j]];
  }

  /** How many of these reads were from the events (`true`) or from the errors (`false`). */
  function Reads(trace: seq<bool>, fromEvents: bool): nat {
    if trace == [] then 0
    else Reads(trace[..|trace| - 1], fromEvents) + (if trace[|trace| - 1] == fromEvents then 1 else 0)
  }

  /** A channel of `n` values is open until it has been read once more than that. */
  predicate Open(trace: seq<bool>, fromEvents: bool, n: nat) {
    Reads(trace, fromEvents) <= n
  }

  /** The reads of a drain of so many events and errors: each from the channel the scheduler picks,
  or from the only one still open. */
  ghost predicate Served(trace: seq<bool>, events: nat, errs: nat, pick: nat -> bool) {
    forall n {:trigger trace[n]} | 0 <= n < |trace| ::
      trace[n] <==> Open(trace[..n], true, events) && (pick(n) || !Open(trace[..n], false, errs))
  }

  /** How many of `errs` errors have been read before event number `first` is, or by now. */
  ghost function Skipped(trace: seq<bool>, first: nat, errs: nat): nat {
    if trace == [] then 0
    else
      var init := trace[..|trace| - 1];
      if Reads(init, true) > first then Skipped(init, first, errs)
      else if Open(trace, false, errs) then Reads(trace, false) else errs
  }

  /** One read more. */
  lemma TraceMore(trace: seq<bool>, b: bool, events: nat, errs: nat, pick: nat -> bool, first: nat)
    requires Served(trace, events, errs, pick)
    requires b <==> Open(trace, true, events) && (pick(|trace|) || !Open(trace, false, errs))
    ensures Served(trace + [b], events, errs, pick)
    ensures Reads(trace + [b], true) == Reads(trace, true) + (if b then 1 else 0)
    ensures Reads(trace + [b], false) == Reads(trace, false) + (if b then 0 else 1)
    ensures Skipped(trace + [b], first, errs) ==
            if Reads(trace, true) > first then Skipped(trace, first, errs)
            else if Open(trace + [b], false, errs) then Reads(trace + [b], false) else errs
  {
    assert (trace + [b])[..|trace|] == trace;
    forall n | 0 <= n < |trace| ensures (trace + [b])[..n] == trace[..n] {
    }
  }

  /** Where a drain of `events` and `errs` values stands after these reads: `i` and `j` of them are
  read, a channel is open until it was found empty, and so many errors were read before event
  number `first` is. */
  ghost predicate Drain(trace: seq<bool>, events: nat, errs: nat, pick: nat -> bool, first: nat,
                        i: nat, eventsOpen: bool, j: nat, errsOpen: bool, skipped: nat)
  {
    && Served(trace, events, errs, pick) && i <= events && j <= errs
    && (!eventsOpen ==> i == events) && (!errsOpen ==> j == errs)
    && Reads(trace, true) == i + (if eventsOpen then 0 else 1)
    && Reads(trace, false) == j + (if errsOpen then 0 else 1)
    && (first < events ==> skipped == Skipped(trace, first, errs)) && (i <= first ==> skipped == j)
  }

  /** One read more, of an event or of an error. */
  lemma DrainMore(trace: seq<bool>, events: nat, errs: nat, pick: nat -> bool, first: nat,
                  i: nat, eventsOpen: bool, j: nat, errsOpen: bool, skipped: nat)
    requires Drain(trace, events, errs, pick, first, i, eventsOpen, j, errsOpen, skipped) && first <= events
    requires eventsOpen || errsOpen
    ensures var b := eventsOpen && (pick(|trace|) || !errsOpen);
            var more := trace + [b];
            if b then
              if i == events then Drain(more, events, errs, pick, first, i, false, j, errsOpen, skipped)
              else Drain(more, events, errs, pick, first, i + 1, true, j, errsOpen, skipped)
            else
              if j == errs then Drain(more, events, errs, pick, first, i, eventsOpen, j, false, skipped)
              else
                Drain(more, events, errs, pick, first, i, eventsOpen, j + 1, true, if i > first then skipped else j + 1)
  {
    TraceMore(trace, eventsOpen && (pick(|trace|) || !errsOpen), events, errs, pick, first);
  }

  /** Once event number `first` has been read, at `k`, the errors read before are settled; none, if
  the scheduler always picks the events. */
  lemma {:induction false} SkippedMeans(trace: seq<bool>, events: nat, errs: nat, pick: nat -> bool, first: nat)
    returns (k: nat)
    requires Served(trace, events, errs, pick) && first < events && Reads(trace, true) > first
    ensures k < |trace| && trace[k] && Reads(trace[..k], true) == first
    ensures Skipped(trace, first, errs) == if Open(trace[..k], false, errs) then Reads(trace[..k], false) else errs
    ensures (forall i :: pick(i)) ==> Skipped(trace, first, errs) == 0
  {
    var n := |trace| - 1;
    var init := trace[..n];
    forall m | 0 <= m < n ensures init[..m] == trace[..m] && init[m] == trace[m] {
    }
    if Reads(init, true) > first {
      k := SkippedMeans(init, events, errs, pick, first);
      assert init[..k] == trace[..k];
    } else {
      k := n;
      if forall i :: pick(i) {
        NothingBefore(init, events, errs, pick, first);
      }
    }
  }

  lemma {:induction false} NothingBefore(trace: seq<bool>, events: nat, errs: nat, pick: nat -> bool, first: nat)
    requires Served(trace, events, errs, pick) && first < events && Reads(trace, true) <= first && forall i :: pick(i)
    ensures Reads(trace, false) == 0
  {
    if trace != [] {
      var n := |trace| - 1;
      var init := trace[..n];
      forall m | 0 <= m < n ensures init[..m] == trace[..m] && init[m] == trace[m] {
      }
      NothingBefore(init, events, errs, pick, first);
      assert trace[n];
    }
  }

  /** What has been forwarded of the first `i` events: nothing before the first complete one. */
  ghost predicate EventsForwarded(events: seq<ProgressEvent>, i: nat, saw: bool, main: seq<ProgressEvent>) {
    && i <= |events| && (saw <==> i > FirstComplete(events))
    && main == if saw then events[FirstComplete(events)..i] else []
  }

  ghost predicate ErrorsForwarded(errs: seq<Option<BackendError>>, skipped: nat, j: nat, main: seq<BackendError>) {
    skipped <= j <= |errs| && main == NonNil(errs[skipped..j])
  }

  method ForwardEvent(events: seq<ProgressEvent>, i: nat, saw: bool, main: seq<ProgressEvent>)
    returns (saw': bool, main': seq<ProgressEvent>)
    requires i < |events| && EventsForwarded(events, i, saw, main)
    ensures EventsForwarded(events, i + 1, saw', main')
  {
    var evt := events[i];
    saw', main' := saw, main;
    if evt.kind.Complete? {
      saw' := true;
    }
    if saw' {
      main' := main' + [evt];
    }
    ghost var first := FirstComplete(events);
    if first <= i {
      assert events[first..i + 1] == events[first..i] + [evt];
    }
  }

  method ForwardError(errs: seq<Option<BackendError>>, j: nat, saw: bool, main: seq<BackendError>, ghost skipped: nat)
    returns (main': seq<BackendError>)
    requires j < |errs| && ErrorsForwarded(errs, skipped, j, main) && (!saw ==> skipped == j)
    ensures ErrorsForwarded(errs, if saw then skipped else j + 1, j + 1, main')
  {
    var e := errs[j];
    main' := main;
    NonNilMore(errs, skipped, j);
    if e.None? {
      return;
    }
    if saw {
      main' := main' + [e.value];
    }
  }

  /** What has been forwarded when both channels are drained. */
  lemma CollectEnds(events: seq<ProgressEvent>, errs: seq<Option<BackendError>>, pick: nat -> bool, saw: bool,
                    mainEvents: seq<ProgressEvent>, mainErrs: seq<BackendError>, skipped: nat, trace: seq<bool>)
    requires EventsForwarded(events, |events|, saw, mainEvents) && ErrorsForwarded(errs, skipped, |errs|, mainErrs)
    requires Drain(trace, |events|, |errs|, pick, FirstComplete(events), |events|, false, |errs|, false, skipped)
    ensures saw <==> exists i | 0 <= i < |events| :: events[i].kind.Complete?
    ensures mainEvents == events[FirstComplete(events)..] && mainErrs == NonNil(errs[skipped..])
    ensures !saw ==> mainEvents == [] && mainErrs == []
    ensures saw ==>
              Reads(trace, true) > FirstComplete(events) && skipped == Skipped(trace, FirstComplete(events), |errs|)
    ensures (forall i :: pick(i)) && saw ==> mainErrs == NonNil(errs)
  {
    var first := FirstComplete(events);
    assert events[first..|events|] == events[first..] && errs[skipped..|errs|] == errs[skipped..];
    if saw {
      var k := SkippedMeans(trace, |events|, |errs|, pick, first);
      assert errs[0..] == errs;
    }
  }

  /** The two channels drained to the end, in the order the scheduler serves them. */
  method DrainBoth(pyEvents: seq<ProgressEvent>, pyErrs: seq<Option<BackendError>>, pick: nat -> bool)
    returns (sawComplete: bool, mainEvents: seq<ProgressEvent>, mainErrs: seq<BackendError>, ghost skipped: nat,
             ghost trace: seq<bool>)
    ensures EventsForwarded(pyEvents, |pyEvents|, sawComplete, mainEvents)
    ensures ErrorsForwarded(pyErrs, skipped, |pyErrs|, mainErrs)
    ensures Drain(trace, |pyEvents|, |pyErrs|, pick, FirstComplete(pyEvents), |pyEvents|, false, |pyErrs|, false,
              skipped)
  {
    var i, j, step := 0, 0, 0;
    var eventsOpen, errsOpen := true, true;
    sawComplete, mainEvents, mainErrs := false, [], [];
    skipped, trace := 0, [];
    ghost var first := FirstComplete(pyEvents);
    while eventsOpen || errsOpen
      invariant EventsForwarded(pyEvents, i, sawComplete, mainEvents)
      invariant ErrorsForwarded(pyErrs, skipped, j, mainErrs)
      invariant Drain(trace, |pyEvents|, |pyErrs|, pick, first, i, eventsOpen, j, errsOpen, skipped)
      invariant step == |trace|
      decreases |pyEvents| - i + |pyErrs| - j, (if eventsOpen then 1 else 0) + (if errsOpen then 1 else 0)
    {
      var fromEvents := eventsOpen && (pick(step) || !errsOpen);
      DrainMore(trace, |pyEvents|, |pyErrs|, pick, first, i, eventsOpen, j, errsOpen, skipped);
      trace := trace + [fromEvents];
      step := step + 1;
      if fromEvents {
        if i == |pyEvents| {
          eventsOpen := false;
          continue;
        }
        sawComplete, mainEvents := ForwardEvent(pyEvents, i, sawComplete, mainEvents);
        i := i + 1;
      } else {
        if j == |pyErrs| {
          errsOpen := false;
          continue;
        }
        mainErrs := ForwardError(pyErrs, j, sawComplete, mainErrs, skipped);
        j := j + 1;
        if !sawComplete {
          skipped := j;
        }
      }
    }
  }

  /** Forwards a Python run to the main channels from its first complete event on. Whether
  anything is forwarded, and which events, does not depend on the scheduling; which of the
  errors are forwarded does, but only as to where their suffix `errs[skipped..]` starts: with the
  first error that was not read before the first complete event was. */
  method CollectPythonResult(pyEvents: seq<ProgressEvent>, pyErrs: seq<Option<BackendError>>, pick: nat -> bool)
    returns (sawComplete: bool, mainEvents: seq<ProgressEvent>, mainErrs: seq<BackendError>, ghost skipped: nat,
             ghost trace: seq<bool>)
    ensures sawComplete <==> exists i | 0 <= i < |pyEvents| :: pyEvents[i].kind.Complete?
    ensures mainEvents == pyEvents[FirstComplete(pyEvents)..]
    ensures !sawComplete ==> mainEvents == [] && mainErrs == []
    ensures skipped <= |pyErrs| && mainErrs == NonNil(pyErrs[skipped..])
    ensures Served(trace, |pyEvents|, |pyErrs|, pick)
    ensures sawComplete ==>
              && Reads(trace, true) > FirstComplete(pyEvents)
              && skipped == Skipped(trace, FirstComplete(pyEvents), |pyErrs|)
    ensures (forall i :: pick(i)) && sawComplete ==> mainErrs == NonNil(pyErrs)
  {
    sawComplete, mainEvents, mainErrs, skipped, trace := DrainBoth(pyEvents, pyErrs, pick);
    CollectEnds(pyEvents, pyErrs, pick, sawComplete, mainEvents, mainErrs, skipped, trace);
  }

  datatype Drained = SawComplete(evt: ProgressEvent) | GotError(err: BackendError) | NoCompletionSignal

  /** What draining these channels may come to, whatever the scheduling: the first error, the first
  completion, or neither exactly when there is neither; and what is handled on the way. */
  ghost predicate DrainedFrom(events: seq<ProgressEvent>, errs: seq<Option<BackendError>>, r: Drained,
                              handled: seq<ProgressEvent>)
  {
    && (r.NoCompletionSignal? <==> !HasComplete(events) && !HasError(errs))
    && (r.SawComplete? ==> HasComplete(events) && r.evt == events[FirstComplete(events)])
    && (r.GotError? ==> HasError(errs) && Some(r.err) == errs[FirstError(errs)])
    && handled <= events[..FirstComplete(events)]
    && (!r.GotError? ==> handled == events[..FirstComplete(events)])
  }

  /** The track count of a job that came with `count`: the first one reported, if it came without. */
  ghost function TrackCountAfter(handled: seq<ProgressEvent>, count: int): int {
    if handled == [] then count
    else
      var before := TrackCountAfter(handled[..|handled| - 1], count);
      var evt := handled[|handled| - 1];
      if before == 0 && evt.kind.Metadata? && evt.trackCount > 0 then evt.trackCount else before
  }

  /** One backend invocation, as the backend made it: for which service, what it sent, and how many
  audio files there were at its end, if they could be counted. */
  datatype BackendRun = BackendRun(
    service: string, events: seq<ProgressEvent>, errs: seq<Option<BackendError>>, onDisk: Option<nat>)

  /** What a complete event is taken for, in a job of `want` tracks: nothing on success. */
  ghost function Judged(evt: ProgressEvent, onDisk: Option<nat>, want: int): Option<ErrMsg> {
    if onDisk.None? then Some(Unverifiable)
    else if onDisk.value == 0 then Some(NoAudio)
    else
      var got := if evt.trackCount == 0 then onDisk.value else evt.trackCount;
      if want > 0 && got < want then Some(PartialAlbum(got, want)) else None
  }

  ghost function Answered(run: BackendRun, r: Drained, handled: seq<ProgressEvent>, tracks: int): Option<ErrMsg> {
    match r
    case SawComplete(evt) => Judged(evt, run.onDisk, TrackCountAfter(handled, tracks))
    case GotError(e) => Some(e.msg)
    case NoCompletionSignal => Some(NoSignal)
  }

  /** The reply is one the run can have had, for a job that came to it with so many tracks. */
  ghost predicate HeardWith(run: BackendRun, reply: Option<ErrMsg>, tracks: int) {
    exists r, handled ::
      DrainedFrom(run.events, run.errs, r, handled) && reply == Answered(run, r, handled, tracks)
  }

  /** The reply is one the run can have had. */
  ghost predicate Heard(run: BackendRun, reply: Option<ErrMsg>) {
    exists tracks :: HeardWith(run, reply, tracks)
  }

  /** A job's own track count stays. */
  lemma {:induction false} OwnCountStays(handled: seq<ProgressEvent>, count: int)
    requires count != 0
    ensures TrackCountAfter(handled, count) == count
  {
    if handled != [] {
      OwnCountStays(handled[..|handled| - 1], count);
    }
  }

  predicate ReportsCount(evt: ProgressEvent) {
    evt.kind.Metadata? && evt.trackCount > 0
  }

  /** A job without one gets that of the first metadata event that reports one, and none if none
  does: `i` is its index, or the length. */
  lemma {:induction false} FirstCountWins(handled: seq<ProgressEvent>, i: nat)
    requires i <= |handled| && forall j | 0 <= j < i :: !ReportsCount(handled[j])
    requires i < |handled| ==> ReportsCount(handled[i])
    ensures TrackCountAfter(handled, 0) == if i < |handled| then handled[i].trackCount else 0
  {
    if handled != [] {
      var n := |handled| - 1;
      FirstCountWins(handled[..n], if i < n then i else n);
    }
  }

  /** A delivery has its files: it takes a complete event, audio files on disk, and as many tracks as
  the job came with. */
  lemma DeliveryHasFiles(run: BackendRun, tracks: int)
    requires HeardWith(run, None, tracks)
    ensures HasComplete(run.events) && run.onDisk.Some? && run.onDisk.value > 0
    ensures var evt := run.events[FirstComplete(run.events)];
            tracks > 0 ==> (if evt.trackCount == 0 then run.onDisk.value else evt.trackCount) >= tracks
  {
    var r, handled :| DrainedFrom(run.events, run.errs, r, handled) && None == Answered(run, r, handled, tracks);
    if tracks > 0 {
      OwnCountStays(handled, tracks);
    }
  }

  /** And a run with a complete event, files on disk and no error is a delivery, unless the album is
  short. */
  lemma FilesAreDelivered(run: BackendRun, reply: Option<ErrMsg>, tracks: int)
    requires HeardWith(run, reply, tracks)
    requires HasComplete(run.events) && !HasError(run.errs) && run.onDisk.Some? && run.onDisk.value > 0
    ensures var evt := run.events[FirstComplete(run.events)];
            var got := if evt.trackCount == 0 then run.onDisk.value else evt.trackCount;
            var want := TrackCountAfter(run.events[..FirstComplete(run.events)], tracks);
            reply == if want > 0 && got < want then Some(PartialAlbum(got, want)) else None
  {
  }

  /** One backend invocation, drained until a complete event, an error, or the end of both
  channels. Whatever the scheduling, a reported error is the first one and a completion the
  first one, and the generic message is given exactly when there was neither. When a run
  holds both, the scheduling alone decides: either answer can be had. */
  method DrainAttempt(events: seq<ProgressEvent>, errs: seq<Option<BackendError>>, pick: nat -> bool)
    returns (r: Drained, handled: seq<ProgressEvent>)
    ensures DrainedFrom(events, errs, r, handled)
    ensures r.NoCompletionSignal? <==> !HasComplete(events) && !HasError(errs)
    ensures r.SawComplete? ==> HasComplete(events) && r.evt == events[FirstComplete(events)]
    ensures r.GotError? ==> HasError(errs) && Some(r.err) == errs[FirstError(errs)]
    ensures HasComplete(events) && !HasError(errs) ==> r.SawComplete?
    ensures !HasComplete(events) && HasError(errs) ==> r.GotError?
    ensures HasComplete(events) && (forall i :: pick(i)) ==> r.SawComplete?
    ensures HasError(errs) && (forall i :: !pick(i)) ==> r.GotError?
    // what was handled as progress on the way: all of it before the end, in order
    ensures handled <= events[..FirstComplete(events)]
    ensures !r.GotError? ==> handled == events[..FirstComplete(events)]
  {
    var i, j, step := 0, 0, 0;
    var eventsOpen, errsOpen := true, true;
    handled := [];
    while eventsOpen || errsOpen
      invariant i <= FirstComplete(events) && j <= FirstError(errs)
      invariant !eventsOpen ==> i == |events|
      invariant !errsOpen ==> j == |errs|
      invariant handled == events[..i]
      invariant (forall n :: pick(n)) && eventsOpen ==> errsOpen && j == 0
      invariant (forall n :: !pick(n)) && errsOpen ==> eventsOpen && i == 0
      decreases |events| - i + |errs| - j, (if eventsOpen then 1 else 0) + (if errsOpen then 1 else 0)
    {
      var fromEvents := eventsOpen && (pick(step) || !errsOpen);
      step := step + 1;
      if fromEvents {
        if i == |events| {
          eventsOpen := false;
          continue;
        }
        var evt := events[i];
        if evt.kind.Complete? {
          return SawComplete(evt), handled;
        }
        handled := handled + [evt];
        i := i + 1;
      } else {
        if j == |errs| {
          errsOpen := false;
          continue;
        }
        var e := errs[j];
        if e.Some? {
          return GotError(e.value), handled;
        }
        j := j + 1;
      }
    }
    return NoCompletionSignal, handled;
  }
}
