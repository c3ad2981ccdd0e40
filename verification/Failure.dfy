/** What a backend error means for the job that produced it (internal/api/sabnzbd/failure.go). */
module Failure {
  import opened UpstreamBreak

  datatype FailureClass = Retryable | UpstreamCooldown | Permanent

  /** Cooldown first, then a property of the release, then the service's own fault. */
  function Classify(e: ErrMsg, park: int): (FailureClass, int) {
    var f := Found(e);
    match CooldownOf(f, park)
    case Some(d) => (UpstreamCooldown, d)
    case None => (if f.permanent then Permanent else Retryable, 0)
  }

  /** The three classes, each for its own reason; and a retry only for the third of them, unless it
  is known to be pointless. */
  lemma ClassesMean(e: ErrMsg, park: int)
    ensures Classify(e, park).0 == UpstreamCooldown <==> CooldownOf(Found(e), park).Some?
    ensures Classify(e, park).0 == Permanent <==> CooldownOf(Found(e), park).None? && Found(e).permanent
    ensures Classify(e, park).0 == Retryable <==> CooldownOf(Found(e), park).None? && !Found(e).permanent
    ensures Classify(e, park).1 == if CooldownOf(Found(e), park).Some? then CooldownOf(Found(e), park).value else 0
    ensures Carries(e, park) <==> CooldownOf(Found(e), park).Some?
    ensures ShouldRetry(e, park) <==>
              CooldownOf(Found(e), park).None? && !Found(e).permanent && !Found(e).noRetry
  {
  }

  predicate ShouldRetry(e: ErrMsg, park: int) {
    Classify(e, park).0 == Retryable && !Found(e).noRetry
  }

  predicate Carries(e: ErrMsg, park: int) {
    CooldownOf(Found(e), park).Some?
  }

  /** What happened over one job's whole attempt chain. */
  class JobOutcome {
    var attempted: bool
    var cooldown: int
    var permanent: bool
    var services: seq<string>

    constructor ()
      ensures !attempted && cooldown == 0 && !permanent && services == []
    {
      attempted, cooldown, permanent, services := false, 0, false, [];
    }
  }
}
