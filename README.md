# APIStressTester, modelled in Dafny

This project models the class `APIStressTester` of `src/libs/APIStressTester.js`, the load-testing library behind the tester's HTTP routes. The class has three operations and one piece of state:

- the **metrics record** (`this.metrics`): three counters, a list of latencies and a map from status code to count, created by the constructor and updated once for each request that settles;
- **`performConcurrentRequests`**: issues a burst of requests, records each settled outcome, and returns `calculateMetrics()` (counters, success rate, mean latency, status distribution);
- **`testRateLimiting`**: polls an endpoint until the duration runs out or a request fails, counting requests and HTTP 429 hits;
- **`performVulnerabilityScan`**: posts each payload of a default or caller-supplied list and gives one classified result per payload, in order.

Every HTTP call is replaced by its **outcome**, which is passed in as an argument. `Success(status, latencyMs)` stands for a response the client resolved with. `Failure(response, message)` stands for a rejection, where `response` is the error response's status, or `None` for a transport failure.

- For a burst, the outcomes are listed in the order the requests settled. The dispatch is then a sequential fold over that list.
- For the rate probe, the outcomes are the responses to the polls that start before the clock runs out. That list takes the place of the wall-clock bound, so its length is the iteration budget.
- For the scan, there is one outcome per payload.

Files:
- `js_values.dfy`: `Option` (absent values and default parameters) and `JsNumber`, the result of JavaScript's `/`, including NaN and the infinities.
- `metrics.dfy`: the value of the record, the update for one outcome, the fold over a burst, `calculateMetrics` and `calculateAverageResponseTime`, and the lemmas about them.
- `rate_limit.dfy`: what the probe counts and reports, as functions of the responses, and lemmas about them.
- `vulnerability_scan.dfy`: the payloads, the default list, the classification of a response and the result list.
- `stress_tester.dfy`: the classes. `MetricsRecord` is `this.metrics`, with methods for the `.then` and `.catch` callbacks. `APIStressTester` holds the three operations as methods with loops. Each method is proved against the functions of the modules above.

Points where the code's behaviour is easy to misread:
- A failed request increments only `failedRequests`. It does not reach `totalRequests` and adds no latency sample.
- So `totalRequests == successfulRequests` always holds, and the success rate is 100 whenever anything succeeded and NaN (0/0) otherwise (`Metrics.SuccessRateOfConsistent`).
- The status-code counts add up to the successes plus the failures that carried an error response. They do not add up to the number of requests.
- The record is never reset. A second burst on the same instance adds to the first. The route handlers create a new instance for each call.
- No argument is validated. A non-positive `totalRequests` issues no request, and a non-positive duration makes no poll.

## Model

| member | source | states |
|---|---|---|
| `JsValues.Divide` | src/libs/APIStressTester.js:120 | JavaScript division: a finite quotient exactly when the divisor is non-zero, NaN for 0/0, an infinity signed like the dividend otherwise |
| `JsValues.ScaleBy` | src/libs/APIStressTester.js:77 | `* 100` keeps NaN and the infinities and multiplies a finite rate |
| `Metrics.Initial` | src/libs/APIStressTester.js:6-12 | the fresh record has all counters at 0, no latency and an empty distribution |
| `Metrics.Bump` | src/libs/APIStressTester.js:42-43 | `d[c] = (d[c] \|\| 0) + 1` raises bucket `c` by one, adds `c` as a key, and leaves every other bucket as it was |
| `Metrics.Record` | src/libs/APIStressTester.js:34-57 | a success raises `totalRequests` and `successfulRequests` together and appends exactly its latency; a failure raises only `failedRequests`; the outcome's status bucket (if it has one) rises by one and no other does; a failure without a response leaves the distribution unchanged; a key is added only for the outcome's own status |
| `Metrics.RecordAll` | src/libs/APIStressTester.js:25-67 | the record after a burst, every outcome recorded once in settling order: successes plus failures grow by exactly the burst's length, `totalRequests` and the latency list grow with `successfulRequests` |
| `Metrics.RecordAllCounters` | src/libs/APIStressTester.js:25-67 | after a burst from any record, total and successful have grown by the number of successes, failed by the number of failures, and the latency list by the successes' latencies in order |
| `Metrics.CountPartition` | src/libs/APIStressTester.js:34-57 | every outcome is either a success or a failure, and there is one latency per success |
| `Metrics.RecordAllTally` | src/libs/APIStressTester.js:42-54 | after a burst, each status bucket has grown by exactly the number of outcomes reporting that status |
| `Metrics.RecordAllPreservesConsistent` | src/libs/APIStressTester.js:37-39 | `totalRequests == successfulRequests` and one latency per success hold after any burst when they held before |
| `Metrics.DistributionTotal` | src/libs/APIStressTester.js:42-54 | the sum of the distribution grows by successes plus failures-with-response; transport failures add nothing |
| `Metrics.FreshBurst` | src/libs/APIStressTester.js:6-67 | on a fresh record, successes plus failures equal the number of issued requests, the record is consistent, and the distribution sums to successes plus failures-with-response |
| `Metrics.AverageResponseTime` | src/libs/APIStressTester.js:83-88 | 0 for an empty list, otherwise the value that times the sample count gives the sum (the mean) |
| `Metrics.AverageWithinSamples` | src/libs/APIStressTester.js:83-88 | the mean of a non-empty latency list lies between its smallest and largest sample |
| `Metrics.AllFailedAverageZero` | src/libs/APIStressTester.js:84 | when every request of a burst fails on a record without samples, the reported mean latency is 0 |
| `Metrics.CalculateMetrics` | src/libs/APIStressTester.js:72-81 | counters and distribution as recorded; the success rate is finite exactly when `totalRequests > 0` and then equals 100·successful/total, it is NaN when both are 0 and Infinity when only `totalRequests` is 0; the mean latency is `calculateAverageResponseTime` |
| `Metrics.SuccessRateOfConsistent` | src/libs/APIStressTester.js:77 | on a consistent record the success rate is exactly 100 if anything succeeded and NaN otherwise, so failures never lower it |
| `RateLimit.Window` | src/libs/APIStressTester.js:99 | the loop receives the given responses for a positive duration and none otherwise |
| `RateLimit.RequestsMade` | src/libs/APIStressTester.js:99-115 | the requests counted are exactly the leading run of successes: all before it succeeded, and the one at that position (if any) failed |
| `RateLimit.RateLimitHits` | src/libs/APIStressTester.js:103-113 | the hits exceed the requests made by at most one, and exceed them only when the loop ended on a 429 error response |
| `RateLimit.ProbeResult` | src/libs/APIStressTester.js:117-121 | `totalRequests` never exceeds the poll budget, and `averageRequestsPerSecond` is `totalRequests / duration` with JavaScript's division |
| `RateLimit.HitsBound` | src/libs/APIStressTester.js:103-113 | the hits exceed the requests made by at most one, the failure that ends the loop |
| `RateLimit.StopsAtFirstFailure` | src/libs/APIStressTester.js:109-114 | after a run of successes, a failure ends the probe: the requests made are that run, the hits are its 429 responses plus one if the failure is a 429 error response, and later responses are ignored |
| `RateLimit.AllAnswered` | src/libs/APIStressTester.js:100-107 | when every poll succeeds, every poll is counted and the hits are exactly the 429 responses |
| `RateLimit.ThrottleScenarios` | src/libs/APIStressTester.js:103-105 | a target answering 429 to every poll gets one hit per poll; one that never answers 429 gets none, and every poll is counted |
| `RateLimit.FirstRequestFails` | src/libs/APIStressTester.js:109-121 | if the first request fails, no request is counted and the rate is 0 |
| `VulnerabilityScan.Repeat` | src/libs/APIStressTester.js:129 | `'x'.repeat(n)` has length `n` and only `'x'` characters |
| `VulnerabilityScan.TestPayloads` | src/libs/APIStressTester.js:126-131 | the caller's list when given, the default list when the argument is left out |
| `VulnerabilityScan.DefaultTestPayloads` | src/libs/APIStressTester.js:126-131 | the default list is SQL Injection, XSS, Large Payload (100000 `'x'`), Path Traversal, in that order |
| `VulnerabilityScan.Classify` | src/libs/APIStressTester.js:141-151 | the entry is named after the payload; a response gives its status and `potentiallyVulnerable` exactly when the status is not 400; an error gives its message and the error response's status or none, with no flag |
| `VulnerabilityScan.ScanAll` | src/libs/APIStressTester.js:133-155 | one entry per payload, in payload order, each named after its payload, with a response-built entry exactly where the request succeeded |
| `VulnerabilityScan.ScanAllAt` | src/libs/APIStressTester.js:135-153 | the i-th entry is the classification of the i-th payload's outcome |
| `VulnerabilityScan.ScanVerdicts` | src/libs/APIStressTester.js:144 | if every payload is answered 400, nothing is flagged; if every payload is answered with another status, everything is flagged |
| `VulnerabilityScan.DefaultScanOrder` | src/libs/APIStressTester.js:126-155 | with the default list, the four entries are named SQL Injection, XSS, Large Payload, Path Traversal, in that order, whatever the outcomes |
| `StressTester.IssuedCount` | src/libs/APIStressTester.js:19-25 | the loop issues 100 requests when `totalRequests` is left out, `totalRequests` when it is positive, and none otherwise |
| `StressTester.ProbeDuration` | src/libs/APIStressTester.js:93 | the duration is 60 seconds when left out |
| `StressTester.MetricsRecord.constructor` | src/libs/APIStressTester.js:6-12 | the new record is the initial one |
| `StressTester.MetricsRecord.OnResponse` | src/libs/APIStressTester.js:34-46 | the fields after the `.then` callback are the record updated by a success; the invariant is kept |
| `StressTester.MetricsRecord.OnError` | src/libs/APIStressTester.js:47-57 | the fields after the `.catch` callback are the record updated by a failure; the invariant is kept |
| `StressTester.APIStressTester.constructor` | src/libs/APIStressTester.js:4-13 | the tester keeps the target URL and owns a fresh, initial record |
| `StressTester.APIStressTester.PerformConcurrentRequests` | src/libs/APIStressTester.js:15-70 | the record afterwards is the old record with every outcome recorded once, in settling order; successes plus failures grew by exactly the issued count; the result is `calculateMetrics` of the new record |
| `StressTester.APIStressTester.TestRateLimiting` | src/libs/APIStressTester.js:90-122 | the loop's result is the probe result of the responses; requests made never exceed the budget and hits never exceed requests made plus one |
| `StressTester.APIStressTester.PerformVulnerabilityScan` | src/libs/APIStressTester.js:124-156 | the results are the scan of the effective payload list: one entry per payload, in order, each the classification of that payload's outcome |

## Left out

- HTTP calls through `axios` (src/libs/APIStressTester.js:28, 101, 137) are replaced by outcome arguments. Which statuses axios treats as errors is not modelled: any status may arrive as a success or as an error response.
- The request's URL, `method`, `payload`, `headers` and the posted `{ input }` body only shape the HTTP call, so they are not modelled. `targetApiUrl` is kept on the instance but never used.
- The concurrency window (`concurrentRequests`, `Promise.race` and `Promise.all`, src/libs/APIStressTester.js:61-67) only overlaps requests in time. The burst is modelled as the outcomes in the order they settle, and the window's cap is not modelled.
- Time is not modelled. `performance.now` latencies become the `latencyMs` of each outcome. The `Date.now` loop bound becomes the list of responses the rate probe receives. The `setTimeout` pacing and `requestsPerSecond`, which only set that pacing, are left out.
- Numbers are exact: latencies and rates are `real` rather than IEEE doubles. Negative zero (0 divided by a negative duration) is read as 0.
- Arguments of the wrong type are not modelled: a non-integer `totalRequests`, non-numeric values, and `testPayloads: null`, which would make the `for...of` throw.
- Error messages are opaque strings that the outcome carries.
- The summary's `statusCodeDistribution` is the record's own object in the source, so it is shared with the record. The model returns a copy of the value.
- `VulnerabilityScan.ScanResult`: the error entry's status is named `errorStatus` rather than `statusCode`, because the two kinds of entry carry different types (a number, or a number or `null`).
- src/controllers/tester_controller.js and src/routes/tester_routes.js are not part of this model: the controller only passes the request body's fields to a new instance of the class and writes its result as JSON, and the routes file only registers those handlers.
- src/index.js is not part of this model: it holds the file upload, list, download and delete handlers (multer and fs), a Socket.IO message relay and `getLocalIP`, an operating-system network-interface query; none of it uses the class.
- src/AppTest.js is not part of this model: it is the Express application's bootstrap and middleware, and does not use the class.
