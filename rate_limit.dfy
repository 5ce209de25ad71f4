/** The rate-limit probe of `APIStressTester.testRateLimiting`
    (src/libs/APIStressTester.js): what it counts and what it reports,
    stated over the responses it receives. The wall clock is replaced by a
    window: the responses to the requests the loop starts before the
    duration runs out, in order. The method that runs the loop is in
    module StressTester. */
module RateLimit {
  import opened JsValues
  import opened Metrics

  /** HTTP 429, Too Many Requests. */
  const TooManyRequests := 429

  /** The duration, in seconds, used when the caller gives none. */
  const DefaultDuration := 60.0

  /** The object `testRateLimiting` returns. */
  datatype RateLimitResult = RateLimitResult(
    totalRequests: nat,
    rateLimitHits: nat,
    averageRequestsPerSecond: JsNumber)

  /** The responses the loop actually receives: none at all when the
      duration is not positive, because the clock test fails at once. */
  function Window(duration: real, responses: seq<Outcome>): (w: seq<Outcome>)
    ensures duration > 0.0 ==> w == responses
    ensures duration <= 0.0 ==> w == []
  {
    if duration > 0.0 then responses else []
  }

  /** The number of requests counted before the first failure: the position
      of the first failure, or every response when none failed. */
  function RequestsMade(w: seq<Outcome>): (k: nat)
    ensures k <= |w|
    ensures forall i :: 0 <= i < k ==> w[i].Success?
    ensures k < |w| ==> w[k].Failure?
  {
    if w == [] || w[0].Failure? then 0 else 1 + RequestsMade(w[1..])
  }

  /** The successful responses among `w` whose status is 429. */
  function ThrottledResponses(w: seq<Outcome>): nat {
    if w == [] then 0
    else ThrottledResponses(w[..|w| - 1])
         + (if w[|w| - 1].Success? && w[|w| - 1].status == TooManyRequests then 1 else 0)
  }

  /** The failure that ended the probe was an error response with status 429. */
  predicate EndedByThrottle(w: seq<Outcome>) {
    RequestsMade(w) < |w| && w[RequestsMade(w)].response == Some(TooManyRequests)
  }

  /** The throttle hits: 429 responses before the first failure, plus one
      when that failure itself is a 429 error response. */
  function RateLimitHits(w: seq<Outcome>): (hits: nat)
    ensures hits <= RequestsMade(w) + 1
    ensures hits > RequestsMade(w) ==> EndedByThrottle(w)
  {
    ThrottledAtMostAll(w[..RequestsMade(w)]);
    ThrottledResponses(w[..RequestsMade(w)]) + (if EndedByThrottle(w) then 1 else 0)
  }

  /** What `testRateLimiting` returns for the responses in `responses`. */
  function ProbeResult(duration: real, responses: seq<Outcome>): (r: RateLimitResult)
    ensures r.totalRequests <= |Window(duration, responses)|
    ensures r.averageRequestsPerSecond == Divide(r.totalRequests as real, duration)
  {
    var w := Window(duration, responses);
    RateLimitResult(RequestsMade(w), RateLimitHits(w), Divide(RequestsMade(w) as real, duration))
  }

  lemma {:induction false} ThrottledAtMostAll(w: seq<Outcome>)
    ensures ThrottledResponses(w) <= |w|
  {
    if w != [] {
      ThrottledAtMostAll(w[..|w| - 1]);
    }
  }

  /** At most one hit is counted beyond the requests made: the failure
      that ends the loop. */
  lemma HitsBound(duration: real, responses: seq<Outcome>)
    ensures ProbeResult(duration, responses).rateLimitHits <= ProbeResult(duration, responses).totalRequests + 1
  {
    var w := Window(duration, responses);
    ThrottledAtMostAll(w[..RequestsMade(w)]);
  }

  /** The first failure ends the probe: what comes after it is never seen. */
  lemma {:induction false} StopsAtFirstFailure(before: seq<Outcome>, failure: Outcome, after: seq<Outcome>)
    requires forall i :: 0 <= i < |before| ==> before[i].Success?
    requires failure.Failure?
    ensures RequestsMade(before + [failure] + after) == |before|
    ensures RateLimitHits(before + [failure] + after)
            == ThrottledResponses(before) + (if failure.response == Some(TooManyRequests) then 1 else 0)
  {
    var w := before + [failure] + after;
    var k := RequestsMade(w);
    assert w[|before|] == failure;
    assert forall i :: 0 <= i < |before| ==> w[i] == before[i];
    assert k == |before|;
    assert w[..k] == before;
  }

  /** Against a target that always answers successfully, every request is
      counted and the hits are exactly the 429 responses. */
  lemma {:induction false} AllAnswered(w: seq<Outcome>)
    requires forall i :: 0 <= i < |w| ==> w[i].Success?
    ensures RequestsMade(w) == |w|
    ensures RateLimitHits(w) == ThrottledResponses(w)
  {
    if w != [] {
      AllAnswered(w[1..]);
    }
    assert w[..|w|] == w;
  }

  lemma {:induction false} AllThrottledCounted(w: seq<Outcome>)
    requires forall i :: 0 <= i < |w| ==> w[i].Success? && w[i].status == TooManyRequests
    ensures ThrottledResponses(w) == |w|
  {
    if w != [] {
      AllThrottledCounted(w[..|w| - 1]);
    }
  }

  lemma {:induction false} NoneThrottled(w: seq<Outcome>)
    requires forall i :: 0 <= i < |w| ==> w[i].Success? && w[i].status != TooManyRequests
    ensures ThrottledResponses(w) == 0
  {
    if w != [] {
      NoneThrottled(w[..|w| - 1]);
    }
  }

  /** A target that answers 429 to every poll gets a hit for every poll;
      one that never answers 429 gets none. */
  lemma ThrottleScenarios(duration: real, w: seq<Outcome>)
    requires duration > 0.0
    requires forall i :: 0 <= i < |w| ==> w[i].Success?
    ensures (forall i :: 0 <= i < |w| ==> w[i].status == TooManyRequests) ==>
              ProbeResult(duration, w).rateLimitHits == ProbeResult(duration, w).totalRequests == |w|
    ensures (forall i :: 0 <= i < |w| ==> w[i].status != TooManyRequests) ==>
              ProbeResult(duration, w).rateLimitHits == 0 && ProbeResult(duration, w).totalRequests == |w|
  {
    AllAnswered(w);
    if forall i :: 0 <= i < |w| ==> w[i].status == TooManyRequests {
      AllThrottledCounted(w);
    }
    if forall i :: 0 <= i < |w| ==> w[i].status != TooManyRequests {
      NoneThrottled(w);
    }
  }

  /** A probe whose very first request fails makes no request and reports
      a rate of 0 (for a positive duration). */
  lemma FirstRequestFails(duration: real, responses: seq<Outcome>)
    requires duration > 0.0 && responses != [] && responses[0].Failure?
    ensures ProbeResult(duration, responses).totalRequests == 0
    ensures ProbeResult(duration, responses).averageRequestsPerSecond == Finite(0.0)
  {
  }
}
