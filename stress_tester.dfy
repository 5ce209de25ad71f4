/** The class `APIStressTester` (src/libs/APIStressTester.js) and the
    mutable `metrics` record it owns. Every HTTP call is replaced by its
    outcome, given as an argument: for a burst, the outcomes in the order
    the requests settled; for the rate probe, the responses in the order
    the loop receives them; for the payload scan, one outcome per payload. */
module StressTester {
  import opened JsValues
  import opened Metrics
  import opened RateLimit
  import opened VulnerabilityScan

  /** The record `this.metrics`, updated field by field as requests settle. */
  class MetricsRecord {
    var totalRequests: nat
    var successfulRequests: nat
    var failedRequests: nat
    var responseTimesMs: seq<real>
    var statusCodeDistribution: map<int, nat>

    /** The record's current value. */
    function State(): MetricsState
      reads this
    {
      MetricsState(totalRequests, successfulRequests, failedRequests, responseTimesMs, statusCodeDistribution)
    }

    ghost predicate Valid()
      reads this
    {
      Consistent(State())
    }

    constructor ()
      ensures State() == Initial() && Valid()
    {
      totalRequests := 0;
      successfulRequests := 0;
      failedRequests := 0;
      responseTimesMs := [];
      statusCodeDistribution := map[];
    }

    /** The `.then` callback: a response arrived after `latencyMs`. */
    method OnResponse(status: int, latencyMs: real)
      requires Valid()
      modifies this
      ensures Valid()
      ensures State() == Record(old(State()), Success(status, latencyMs))
    {
      totalRequests := totalRequests + 1;
      successfulRequests := successfulRequests + 1;
      responseTimesMs := responseTimesMs + [latencyMs];
      statusCodeDistribution := statusCodeDistribution[status := Tally(statusCodeDistribution, status) + 1];
    }

    /** The `.catch` callback: the request failed, with an error response
        carrying a status or without one. */
    method OnError(response: Option<int>, message: string)
      requires Valid()
      modifies this
      ensures Valid()
      ensures State() == Record(old(State()), Failure(response, message))
    {
      failedRequests := failedRequests + 1;
      if response.Some? {
        var status := response.value;
        statusCodeDistribution := statusCodeDistribution[status := Tally(statusCodeDistribution, status) + 1];
      }
    }
  }

  /** The number of requests the dispatch loop issues for the
      `totalRequests` argument (100 when it is left out). */
  function IssuedCount(totalRequests: Option<int>): (n: nat)
    ensures totalRequests.None? ==> n == 100
    ensures totalRequests.Some? && totalRequests.value > 0 ==> n == totalRequests.value
    ensures totalRequests.Some? && totalRequests.value <= 0 ==> n == 0
  {
    var requested := totalRequests.GetOr(100);
    if requested > 0 then requested else 0
  }

  /** The number of seconds the rate probe runs for the `duration` argument. */
  function ProbeDuration(duration: Option<real>): (d: real)
    ensures duration.Some? ==> d == duration.value
    ensures duration.None? ==> d == DefaultDuration
  {
    duration.GetOr(DefaultDuration)
  }

  class APIStressTester {
    const targetApiUrl: string
    const metrics: MetricsRecord

    constructor (targetApiUrl: string)
      ensures this.targetApiUrl == targetApiUrl
      ensures fresh(metrics) && metrics.State() == Initial() && metrics.Valid()
    {
      this.targetApiUrl := targetApiUrl;
      metrics := new MetricsRecord();
    }

    /** `performConcurrentRequests`: one settled outcome per issued request,
        recorded in settling order into the record, which is never reset;
        the result is `calculateMetrics` of the record afterwards. */
    method PerformConcurrentRequests(totalRequests: Option<int>, outcomes: seq<Outcome>) returns (summary: Summary)
      requires |outcomes| == IssuedCount(totalRequests)
      requires metrics.Valid()
      modifies metrics
      ensures metrics.Valid()
      ensures metrics.State() == RecordAll(old(metrics.State()), outcomes)
      ensures metrics.successfulRequests + metrics.failedRequests
              == old(metrics.successfulRequests + metrics.failedRequests) + IssuedCount(totalRequests)
      ensures summary == CalculateMetrics(metrics.State())
    {
      ghost var start := metrics.State();
      for i := 0 to |outcomes|
        invariant metrics.Valid()
        invariant metrics.State() == RecordAll(start, outcomes[..i])
      {
        assert outcomes[..i + 1][..i] == outcomes[..i];
        match outcomes[i]
        case Success(status, latencyMs) =>
          metrics.OnResponse(status, latencyMs);
        case Failure(response, message) =>
          metrics.OnError(response, message);
      }
      assert outcomes[..|outcomes|] == outcomes;
      RecordAllCounters(start, outcomes);
      CountPartition(outcomes);
      summary := CalculateMetrics(metrics.State());
    }

    /** `testRateLimiting`: poll until the window is used up or a request
        fails; the first failure ends the loop and adds a hit only when it
        is a 429 error response. The pacing delay is not modelled. */
    method TestRateLimiting(duration: Option<real>, responses: seq<Outcome>) returns (r: RateLimitResult)
      ensures r == ProbeResult(ProbeDuration(duration), responses)
      ensures r.totalRequests <= |responses|
      ensures r.rateLimitHits <= r.totalRequests + 1
    {
      var seconds := ProbeDuration(duration);
      var budget := if seconds > 0.0 then |responses| else 0;
      ghost var w := Window(seconds, responses);
      var requestsMade := 0;
      var rateLimitHits := 0;
      var i := 0;
      while i < budget
        invariant 0 <= i <= budget == |w|
        invariant requestsMade == i
        invariant forall j :: 0 <= j < i ==> w[j].Success?
        invariant rateLimitHits == ThrottledResponses(w[..i])
      {
        assert w[..i + 1][..i] == w[..i];
        match responses[i]
        case Success(status, _) =>
          if status == TooManyRequests {
            rateLimitHits := rateLimitHits + 1;
          }
          requestsMade := requestsMade + 1;
          i := i + 1;
        case Failure(response, _) =>
          if response == Some(TooManyRequests) {
            rateLimitHits := rateLimitHits + 1;
          }
          break;
      }
      assert w[..|w|] == w;
      HitsBound(seconds, responses);
      r := RateLimitResult(requestsMade, rateLimitHits, Divide(requestsMade as real, seconds));
    }

    /** `performVulnerabilityScan`: post each payload in turn and append the
        entry its outcome gives; an error never stops the scan. */
    method PerformVulnerabilityScan(testPayloads: Option<seq<TestCase>>, outcomes: seq<Outcome>)
      returns (results: seq<ScanResult>)
      requires |outcomes| == |TestPayloads(testPayloads)|
      ensures results == ScanAll(TestPayloads(testPayloads), outcomes)
      ensures |results| == |TestPayloads(testPayloads)|
      ensures forall i :: 0 <= i < |results| ==> results[i] == Classify(TestPayloads(testPayloads)[i], outcomes[i])
    {
      var cases := TestPayloads(testPayloads);
      results := [];
      for i := 0 to |cases|
        invariant results == ScanAll(cases[..i], outcomes[..i])
      {
        assert cases[..i + 1][..i] == cases[..i];
        assert outcomes[..i + 1][..i] == outcomes[..i];
        var test := cases[i];
        match outcomes[i]
        case Success(status, _) =>
          results := results + [Probed(test.name, status, status != BadRequest)];
        case Failure(response, message) =>
          results := results + [Errored(test.name, message, response)];
      }
      assert cases[..|cases|] == cases;
      assert outcomes[..|outcomes|] == outcomes;
      forall i | 0 <= i < |results|
        ensures results[i] == Classify(cases[i], outcomes[i])
      {
        ScanAllAt(cases, outcomes, i);
      }
    }
  }
}
