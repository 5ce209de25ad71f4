/** The payload probe of `APIStressTester.performVulnerabilityScan`
    (src/libs/APIStressTester.js): the named payloads, the default list, and
    how each response is classified. The method that sends the payloads one
    after another is in module StressTester. */
module VulnerabilityScan {
  import opened JsValues
  import opened Metrics

  /** HTTP 400, Bad Request: the one status not taken as a sign of weakness. */
  const BadRequest := 400

  /** One named payload, sent as the `input` field of a JSON body. */
  datatype TestCase = TestCase(name: string, payload: string)

  /** One entry of the result list. `Probed` is the object built from a
      response; `Errored` the one built from an error, which carries the
      error message and the error response's status or `null`, and no
      `potentiallyVulnerable` flag. */
  datatype ScanResult =
    | Probed(testName: string, statusCode: int, potentiallyVulnerable: bool)
    | Errored(testName: string, error: string, errorStatus: Option<int>)

  /** `c.repeat(n)`. */
  function Repeat(c: char, n: nat): (s: string)
    ensures |s| == n
    ensures forall i :: 0 <= i < n ==> s[i] == c
  {
    if n == 0 then [] else Repeat(c, n - 1) + [c]
  }

  /** The payloads used when the caller supplies none. */
  function DefaultTestPayloads(): (cases: seq<TestCase>)
    ensures |cases| == 4
    ensures cases[0].name == "SQL Injection" && cases[1].name == "XSS"
    ensures cases[2].name == "Large Payload" && cases[3].name == "Path Traversal"
    ensures |cases[2].payload| == 100000
    ensures forall i :: 0 <= i < 100000 ==> cases[2].payload[i] == 'x'
  {
    [ TestCase("SQL Injection", "' OR 1=1 --"),
      TestCase("XSS", "<script>alert('XSS')</script>"),
      TestCase("Large Payload", Repeat('x', 100000)),
      TestCase("Path Traversal", "../../etc/passwd") ]
  }

  /** The `testPayloads` argument with its default applied. */
  function TestPayloads(supplied: Option<seq<TestCase>>): (cases: seq<TestCase>)
    ensures supplied.Some? ==> cases == supplied.value
    ensures supplied.None? ==> cases == DefaultTestPayloads()
  {
    supplied.GetOr(DefaultTestPayloads())
  }

  /** The entry for one payload, from the outcome of its POST. */
  function Classify(t: TestCase, o: Outcome): (r: ScanResult)
    ensures r.testName == t.name
    ensures r.Probed? <==> o.Success?
    ensures r.Probed? ==> r.statusCode == o.status && (r.potentiallyVulnerable <==> o.status != BadRequest)
    ensures r.Errored? ==> r.error == o.message && r.errorStatus == o.response
  {
    match o
    case Success(status, _) => Probed(t.name, status, status != BadRequest)
    case Failure(response, message) => Errored(t.name, message, response)
  }

  /** The result list: one entry per payload, in the payloads' order. */
  function ScanAll(cases: seq<TestCase>, outcomes: seq<Outcome>): (rs: seq<ScanResult>)
    requires |outcomes| == |cases|
    ensures |rs| == |cases|
    ensures forall i :: 0 <= i < |cases| ==> rs[i].testName == cases[i].name
    ensures forall i :: 0 <= i < |cases| ==> (rs[i].Probed? <==> outcomes[i].Success?)
  {
    if cases == [] then []
    else
      var n := |cases| - 1;
      ScanAll(cases[..n], outcomes[..n]) + [Classify(cases[n], outcomes[n])]
  }

  lemma {:induction false} ScanAllAt(cases: seq<TestCase>, outcomes: seq<Outcome>, i: nat)
    requires |outcomes| == |cases| && i < |cases|
    ensures ScanAll(cases, outcomes)[i] == Classify(cases[i], outcomes[i])
  {
    var n := |cases| - 1;
    if i < n {
      ScanAllAt(cases[..n], outcomes[..n], i);
    }
  }

  /** A target that answers every payload with 400 is flagged nowhere;
      one that answers with any other status is flagged everywhere. */
  lemma ScanVerdicts(cases: seq<TestCase>, outcomes: seq<Outcome>)
    requires |outcomes| == |cases|
    requires forall i :: 0 <= i < |outcomes| ==> outcomes[i].Success?
    ensures (forall i :: 0 <= i < |outcomes| ==> outcomes[i].status == BadRequest) ==>
              forall i :: 0 <= i < |cases| ==> !ScanAll(cases, outcomes)[i].potentiallyVulnerable
    ensures (forall i :: 0 <= i < |outcomes| ==> outcomes[i].status != BadRequest) ==>
              forall i :: 0 <= i < |cases| ==> ScanAll(cases, outcomes)[i].potentiallyVulnerable
  {
    forall i | 0 <= i < |cases|
      ensures ScanAll(cases, outcomes)[i] == Classify(cases[i], outcomes[i])
    {
      ScanAllAt(cases, outcomes, i);
    }
  }

  /** With the default payloads the entries are named, in order, SQL
      Injection, XSS, Large Payload and Path Traversal, whatever happens. */
  lemma DefaultScanOrder(outcomes: seq<Outcome>)
    requires |outcomes| == 4
    ensures |ScanAll(TestPayloads(None), outcomes)| == 4
    ensures ScanAll(TestPayloads(None), outcomes)[0].testName == "SQL Injection"
    ensures ScanAll(TestPayloads(None), outcomes)[1].testName == "XSS"
    ensures ScanAll(TestPayloads(None), outcomes)[2].testName == "Large Payload"
    ensures ScanAll(TestPayloads(None), outcomes)[3].testName == "Path Traversal"
  {
  }
}
