/** The metrics record of `APIStressTester` (src/libs/APIStressTester.js):
    its value, the update applied when one request of a burst settles, the
    fold of those updates over a burst, and the summary `calculateMetrics`
    returns. The class that holds the record and updates it in place is in
    module StressTester; this module is its specification. */
module Metrics {
  import opened JsValues

  /** How one request settled. `Success` is a response that the HTTP client
      resolved with, `Failure` a rejection: `response` is the status of the
      error response when one arrived, `None` for a transport failure. */
  datatype Outcome =
    | Success(status: int, latencyMs: real)
    | Failure(response: Option<int>, message: string)

  /** The status code an outcome contributes to the distribution, if any. */
  function StatusOf(o: Outcome): (r: Option<int>)
    ensures o.Success? ==> r == Some(o.status)
    ensures o.Failure? ==> r == o.response
  {
    match o
    case Success(status, _) => Some(status)
    case Failure(response, _) => response
  }

  /** The value of `this.metrics`. Status-code keys are numbers here; the
      source's object keys are their decimal strings, which is the same map. */
  datatype MetricsState = MetricsState(
    totalRequests: nat,
    successfulRequests: nat,
    failedRequests: nat,
    responseTimesMs: seq<real>,
    statusCodeDistribution: map<int, nat>)

  /** The record as the constructor creates it. */
  function Initial(): (m: MetricsState)
    ensures m.totalRequests == m.successfulRequests == m.failedRequests == 0
    ensures m.responseTimesMs == [] && m.statusCodeDistribution == map[]
  {
    MetricsState(0, 0, 0, [], map[])
  }

  /** The count held for status `c`; a missing key reads as 0 (the source's `|| 0`). */
  function Tally(d: map<int, nat>, c: int): nat {
    if c in d then d[c] else 0
  }

  /** `d[c] = (d[c] || 0) + 1`: bucket `c` grows by one, no other bucket moves. */
  function Bump(d: map<int, nat>, c: int): (r: map<int, nat>)
    ensures r.Keys == d.Keys + {c}
    ensures Tally(r, c) == Tally(d, c) + 1
    ensures forall k :: k != c ==> Tally(r, k) == Tally(d, k)
  {
    d[c := Tally(d, c) + 1]
  }

  /** The update one settled request makes: the `.then` branch on a
      response, the `.catch` branch on an error. */
  function Record(m: MetricsState, o: Outcome): (r: MetricsState)
    ensures r.totalRequests == m.totalRequests + (if o.Success? then 1 else 0)
    ensures r.successfulRequests == m.successfulRequests + (if o.Success? then 1 else 0)
    ensures r.failedRequests == m.failedRequests + (if o.Failure? then 1 else 0)
    ensures r.responseTimesMs == if o.Success? then m.responseTimesMs + [o.latencyMs] else m.responseTimesMs
    ensures forall c :: Tally(r.statusCodeDistribution, c)
                       == Tally(m.statusCodeDistribution, c) + (if StatusOf(o) == Some(c) then 1 else 0)
    ensures StatusOf(o).None? ==> r.statusCodeDistribution == m.statusCodeDistribution
    ensures r.statusCodeDistribution.Keys
            == m.statusCodeDistribution.Keys + (if StatusOf(o).Some? then {StatusOf(o).value} else {})
  {
    match o
    case Success(status, latencyMs) =>
      m.(totalRequests := m.totalRequests + 1,
         successfulRequests := m.successfulRequests + 1,
         responseTimesMs := m.responseTimesMs + [latencyMs],
         statusCodeDistribution := Bump(m.statusCodeDistribution, status))
    case Failure(response, _) =>
      m.(failedRequests := m.failedRequests + 1,
         statusCodeDistribution :=
           if response.Some? then Bump(m.statusCodeDistribution, response.value)
           else m.statusCodeDistribution)
  }

  /** The record after the outcomes `os` have settled, in completion order. */
  function RecordAll(m: MetricsState, os: seq<Outcome>): (r: MetricsState)
    ensures r.successfulRequests + r.failedRequests == m.successfulRequests + m.failedRequests + |os|
    ensures r.totalRequests - m.totalRequests == r.successfulRequests - m.successfulRequests
    ensures |r.responseTimesMs| - |m.responseTimesMs| == r.successfulRequests - m.successfulRequests
  {
    if os == [] then m else Record(RecordAll(m, os[..|os| - 1]), os[|os| - 1])
  }

  // Counting functions over a sequence of outcomes: the reference the fold is
  // measured against.

  function CountSuccesses(os: seq<Outcome>): nat {
    if os == [] then 0 else CountSuccesses(os[..|os| - 1]) + (if os[|os| - 1].Success? then 1 else 0)
  }

  function CountFailures(os: seq<Outcome>): nat {
    if os == [] then 0 else CountFailures(os[..|os| - 1]) + (if os[|os| - 1].Failure? then 1 else 0)
  }

  /** Failures that carried an error response. */
  function CountAnsweredFailures(os: seq<Outcome>): nat {
    if os == [] then 0
    else CountAnsweredFailures(os[..|os| - 1])
         + (if os[|os| - 1].Failure? && os[|os| - 1].response.Some? then 1 else 0)
  }

  /** Outcomes that report status `c`, as a response or an error response. */
  function CountCode(os: seq<Outcome>, c: int): nat {
    if os == [] then 0 else CountCode(os[..|os| - 1], c) + (if StatusOf(os[|os| - 1]) == Some(c) then 1 else 0)
  }

  /** The latencies of the successful outcomes, in order. */
  function Latencies(os: seq<Outcome>): seq<real> {
    if os == [] then []
    else Latencies(os[..|os| - 1]) + (if os[|os| - 1].Success? then [os[|os| - 1].latencyMs] else [])
  }

  lemma {:induction false} CountPartition(os: seq<Outcome>)
    ensures CountSuccesses(os) + CountFailures(os) == |os|
    ensures CountAnsweredFailures(os) <= CountFailures(os)
    ensures |Latencies(os)| == CountSuccesses(os)
  {
    if os != [] {
      CountPartition(os[..|os| - 1]);
    }
  }

  /** The counters and the latency list after a burst, from any starting
      record: the record is never reset, so a second burst adds to the first. */
  lemma {:induction false} RecordAllCounters(m: MetricsState, os: seq<Outcome>)
    ensures RecordAll(m, os).totalRequests == m.totalRequests + CountSuccesses(os)
    ensures RecordAll(m, os).successfulRequests == m.successfulRequests + CountSuccesses(os)
    ensures RecordAll(m, os).failedRequests == m.failedRequests + CountFailures(os)
    ensures RecordAll(m, os).responseTimesMs == m.responseTimesMs + Latencies(os)
  {
    if os != [] {
      RecordAllCounters(m, os[..|os| - 1]);
    }
  }

  /** Each bucket grows by the number of outcomes reporting its code. */
  lemma {:induction false} RecordAllTally(m: MetricsState, os: seq<Outcome>, c: int)
    ensures Tally(RecordAll(m, os).statusCodeDistribution, c) == Tally(m.statusCodeDistribution, c) + CountCode(os, c)
  {
    if os != [] {
      RecordAllTally(m, os[..|os| - 1], c);
    }
  }

  /** The record's invariant: failures never reach `totalRequests`, so it
      moves with `successfulRequests`, and there is one latency per success. */
  predicate Consistent(m: MetricsState) {
    m.totalRequests == m.successfulRequests && |m.responseTimesMs| == m.successfulRequests
  }

  lemma RecordAllPreservesConsistent(m: MetricsState, os: seq<Outcome>)
    requires Consistent(m)
    ensures Consistent(RecordAll(m, os))
  {
    RecordAllCounters(m, os);
    CountPartition(os);
  }

  // The sum of the counts in the status-code distribution.

  ghost function PickKey(d: map<int, nat>): (k: int)
    requires d != map[]
    ensures k in d
  {
    HasKey(d);
    var k :| k in d; k
  }

  lemma HasKey(d: map<int, nat>)
    requires d != map[]
    ensures exists k :: k in d
  {
    if forall k :: k !in d {
      assert false;
    }
  }

  ghost function SumValues(d: map<int, nat>): nat
    decreases |d|
  {
    if d == map[] then 0
    else
      var k := PickKey(d);
      assert |d - {k}| < |d| by { assert (d - {k}).Keys + {k} == d.Keys; }
      d[k] + SumValues(d - {k})
  }

  /** The sum does not depend on which key is taken out first. */
  lemma {:induction false} SumValuesRemove(d: map<int, nat>, k: int)
    requires k in d
    ensures SumValues(d) == d[k] + SumValues(d - {k})
    decreases |d|
  {
    var j := PickKey(d);
    if j != k {
      assert |d - {j}| < |d| by { assert (d - {j}).Keys + {j} == d.Keys; }
      assert |d - {k}| < |d| by { assert (d - {k}).Keys + {k} == d.Keys; }
      SumValuesRemove(d - {j}, k);
      SumValuesRemove(d - {k}, j);
      assert d - {j} - {k} == d - {k} - {j};
    }
  }

  lemma BumpSum(d: map<int, nat>, c: int)
    ensures SumValues(Bump(d, c)) == SumValues(d) + 1
  {
    var r := Bump(d, c);
    SumValuesRemove(r, c);
    assert r - {c} == d - {c};
    if c in d {
      SumValuesRemove(d, c);
    } else {
      assert d - {c} == d;
    }
  }

  /** The distribution's counts add up to the successes plus the failures
      that carried a response; transport failures are not counted. */
  lemma {:induction false} DistributionTotal(m: MetricsState, os: seq<Outcome>)
    ensures SumValues(RecordAll(m, os).statusCodeDistribution)
            == SumValues(m.statusCodeDistribution) + CountSuccesses(os) + CountAnsweredFailures(os)
  {
    if os != [] {
      var init := os[..|os| - 1];
      var last := os[|os| - 1];
      DistributionTotal(m, init);
      var before := RecordAll(m, init).statusCodeDistribution;
      match last
      case Success(status, _) =>
        BumpSum(before, status);
      case Failure(response, _) =>
        if response.Some? {
          BumpSum(before, response.value);
        }
    }
  }

  /** A burst on a fresh record: every outcome is counted once as a success
      or a failure, and the distribution holds one count per answered request. */
  lemma FreshBurst(os: seq<Outcome>)
    ensures RecordAll(Initial(), os).successfulRequests + RecordAll(Initial(), os).failedRequests == |os|
    ensures Consistent(RecordAll(Initial(), os))
    ensures SumValues(RecordAll(Initial(), os).statusCodeDistribution)
            == CountSuccesses(os) + CountAnsweredFailures(os)
  {
    RecordAllCounters(Initial(), os);
    CountPartition(os);
    DistributionTotal(Initial(), os);
    assert SumValues(map[]) == 0;
  }

  // The summary.

  function Sum(s: seq<real>): real {
    if s == [] then 0.0 else Sum(s[..|s| - 1]) + s[|s| - 1]
  }

  function MinOf(s: seq<real>): (r: real)
    requires s != []
    ensures r in s
    ensures forall i :: 0 <= i < |s| ==> r <= s[i]
  {
    if |s| == 1 then s[0]
    else
      var m := MinOf(s[..|s| - 1]);
      if s[|s| - 1] < m then s[|s| - 1] else m
  }

  function MaxOf(s: seq<real>): (r: real)
    requires s != []
    ensures r in s
    ensures forall i :: 0 <= i < |s| ==> s[i] <= r
  {
    if |s| == 1 then s[0]
    else
      var m := MaxOf(s[..|s| - 1]);
      if s[|s| - 1] > m then s[|s| - 1] else m
  }

  /** `calculateAverageResponseTime`: 0 for no samples, otherwise the mean. */
  function AverageResponseTime(times: seq<real>): (r: real)
    ensures times == [] ==> r == 0.0
    ensures times != [] ==> r * (|times| as real) == Sum(times)
  {
    if |times| == 0 then 0.0 else Sum(times) / (|times| as real)
  }

  lemma {:induction false} SumBounds(s: seq<real>, lo: real, hi: real)
    requires forall i :: 0 <= i < |s| ==> lo <= s[i] <= hi
    ensures (|s| as real) * lo <= Sum(s) <= (|s| as real) * hi
  {
    if s != [] {
      var n := |s| - 1;
      SumBounds(s[..n], lo, hi);
      assert (n as real) * lo + lo == (|s| as real) * lo;
      assert (n as real) * hi + hi == (|s| as real) * hi;
    }
  }

  /** The mean lies between the smallest and the largest sample. */
  lemma AverageWithinSamples(times: seq<real>)
    requires times != []
    ensures MinOf(times) <= AverageResponseTime(times) <= MaxOf(times)
  {
    var n := |times| as real;
    var lo, hi := MinOf(times), MaxOf(times);
    SumBounds(times, lo, hi);
    MeanBetween(Sum(times), n, lo, hi, AverageResponseTime(times));
  }

  lemma MeanBetween(sum: real, n: real, lo: real, hi: real, avg: real)
    requires n > 0.0 && n * lo <= sum <= n * hi && avg * n == sum
    ensures lo <= avg <= hi
  {
    assert (avg - lo) * n == sum - n * lo;
    assert (hi - avg) * n == n * hi - sum;
  }

  /** The object `calculateMetrics` returns. */
  datatype Summary = Summary(
    totalRequests: nat,
    successfulRequests: nat,
    failedRequests: nat,
    successRate: JsNumber,
    averageResponseTimeMs: real,
    statusCodeDistribution: map<int, nat>)

  /** `calculateMetrics`: the counters and the distribution as recorded, the
      success rate `successfulRequests / totalRequests * 100` with JavaScript's
      division, and the mean latency. */
  function CalculateMetrics(m: MetricsState): (r: Summary)
    ensures r.totalRequests == m.totalRequests && r.successfulRequests == m.successfulRequests
    ensures r.failedRequests == m.failedRequests && r.statusCodeDistribution == m.statusCodeDistribution
    ensures r.successRate.Finite? <==> m.totalRequests > 0
    ensures r.successRate.Finite? ==> r.successRate.value * (m.totalRequests as real) == 100.0 * (m.successfulRequests as real)
    ensures m.totalRequests == 0 && m.successfulRequests == 0 ==> r.successRate == NaN
    ensures m.totalRequests == 0 && m.successfulRequests > 0 ==> r.successRate == PosInfinity
    ensures r.averageResponseTimeMs == AverageResponseTime(m.responseTimesMs)
  {
    Summary(
      m.totalRequests,
      m.successfulRequests,
      m.failedRequests,
      ScaleBy(Divide(m.successfulRequests as real, m.totalRequests as real), 100.0),
      AverageResponseTime(m.responseTimesMs),
      m.statusCodeDistribution)
  }

  /** Because failures never reach `totalRequests`, the success rate of a
      consistent record is 100 whenever anything succeeded and NaN (0/0)
      otherwise: failures never lower it. */
  lemma SuccessRateOfConsistent(m: MetricsState)
    requires Consistent(m)
    ensures CalculateMetrics(m).successRate == if m.successfulRequests > 0 then Finite(100.0) else NaN
  {
    var r := CalculateMetrics(m);
    if m.successfulRequests > 0 {
      assert r.successRate.value * (m.totalRequests as real) == 100.0 * (m.totalRequests as real);
    }
  }

  /** All requests failed: no latency sample exists, so the mean is 0. */
  lemma AllFailedAverageZero(m: MetricsState, os: seq<Outcome>)
    requires m.responseTimesMs == []
    requires forall i :: 0 <= i < |os| ==> os[i].Failure?
    ensures CalculateMetrics(RecordAll(m, os)).averageResponseTimeMs == 0.0
  {
    RecordAllCounters(m, os);
    CountPartition(os);
    NoSuccesses(os);
  }

  lemma {:induction false} NoSuccesses(os: seq<Outcome>)
    requires forall i :: 0 <= i < |os| ==> os[i].Failure?
    ensures CountSuccesses(os) == 0
  {
    if os != [] {
      NoSuccesses(os[..|os| - 1]);
    }
  }
}
