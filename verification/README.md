# AbuseIPDB block report: a Dafny model of the query engine

The program reads a list of network prefixes (CIDR blocks) and a set of API
keys, asks the AbuseIPDB `check-block` endpoint about each prefix, keeps the
addresses reported within the last seven days, ranks them by abuse confidence
score, and renders an HTML report. This project models, in Dafny, the
sequential decisions inside that program:

- `Settings` (config.go): the default configuration, the field-by-field merge
  with the YAML file, the `OUTPUT_DIR` override, the duration fallbacks and the
  report file name.
- `AbuseApi` (api.go): random key selection, the `CheckBlock` retry loop as a
  state machine over per-attempt outcomes, and the filter that turns reported
  addresses into report rows.
- `Reports` (report.go): the `ReportRow` record and the `scoreClass` badge.
- `Prefixes` (main.go): `strings.TrimSpace` and the de-duplication loop.
- `Pool` (main.go): `ProcessNetworks` as a sequential fold, specified up to
  permutation.
- `Ranking` (main.go): the exchange sort by descending score.
- `App` (main.go): the `main` sequence from configuration to ranked rows.
- `Wrappers`: `Option` and `Result`.

What the outside world decides is passed in. For one network, an
`Environment` gives the random draw behind each attempt's key, the outcome of
each attempt (transport failure, or a status code with a body that does or does
not decode), and the clock reading used by the recency check. Time parsing and
formatting are the function fields of a `TimeLib`. `time.ParseDuration` and
`filepath.Join` are function parameters. Timestamps are whole Unix seconds.
Durations are nanoseconds, as in Go's `time.Duration`. Each sleep before a retry
is recorded, in seconds, in the run's `backoffs`.

Some behaviour of the program worth knowing:

- An entry is kept when `now - t <= 7 days` (api.go:119). Entries exactly
  seven days old are kept, and so are entries dated in the future.
- The ranking is an exchange sort, which is not stable. Equal scores may end
  up in any order, and no tie-break is claimed.
- An attempt that draws a configured key equal to the empty string ends the
  call with the missing-key error before sending its request (api.go:55-58).
  This can happen on a later attempt, after earlier requests and backoffs.
- A retry draws a fresh random key, which may be the key that just failed.
- The final error at api.go:141 is reached only when `MaxRetries <= 0`,
  because every attempt up to and including the last one either returns or
  continues to a later attempt.

## Model

| member | source | states |
|---|---|---|
| Reports.ScoreClass | report.go:64-75 | "danger" iff score >= 75; "warning" iff 50 <= score < 75; "info" iff 0 < score < 50; "secondary" iff score <= 0 |
| Reports.ScoreClassMonotone | report.go:64-75 | every score gets one of the four badges, and a higher score never gets a less severe badge |
| Settings.DefaultConfig | config.go:21-31 | the defaults can be run (concurrency and max retries positive), their text fields are non-empty, and they have no prefixes or keys |
| Settings.Overlay | config.go:39-59 | merging a decoded file into a runnable configuration keeps it runnable, and a file that sets no field changes nothing |
| Settings.LoadConfig | config.go:33-68 | after loading, concurrency > 0 and max retries > 0; a non-empty OUTPUT_DIR always wins; an unreadable or undecodable file gives exactly the defaults apart from OUTPUT_DIR |
| Settings.YamlOverridesOnlySetFields | config.go:39-59 | each field takes the file's value exactly when it is set (non-empty text or list, positive integer) and otherwise keeps the default |
| Settings.EmptyFileKeepsDefaults | config.go:36-61 | a file that sets nothing loads the same configuration as no file |
| Settings.LoadConfigIdempotent | config.go:33-68 | loading a loaded configuration again, under the same environment, gives it back unchanged |
| Settings.GetRequestTimeout | config.go:70-76 | the parsed request timeout when it parses, otherwise 20 seconds |
| Settings.GetRetryDelay | config.go:78-84 | the parsed retry delay when it parses, otherwise 50 milliseconds |
| Settings.FallbacksMatchDefaults | config.go:70-84 | with a parser that reads "20s" and "50ms" correctly, a setting that does not parse behaves like the default setting |
| Settings.ReportFileName | config.go:86-90 | the file name is "report_", then the date, then ".html", and the date can be read back from it |
| Settings.GetOutputFileName | config.go:86-90 | the report path joins the output directory with `ReportFileName` of the date (the date and the join are inputs) |
| AbuseApi.SelectKey | api.go:46-51 | no keys gives the empty string; otherwise the chosen key is an element of the key list |
| AbuseApi.EveryKeySelectable | api.go:50 | every key in the list can be chosen |
| AbuseApi.ParseReportTime | api.go:110-117 | a timestamp parses iff RFC 3339 or the fallback layout accepts it; the RFC 3339 time is used when it parses, and otherwise the fallback layout's result is used |
| AbuseApi.Emit | api.go:106-134 | an address yields a row iff its timestamp is non-empty, parses, and is at most seven days old (future times included); the row copies address, report count and score, uses "" for a null country code, and formats the parsed time |
| AbuseApi.FilterRows | api.go:104-136 | the rows of a decoded response number at most its addresses (see `FilterRowsSpec` and `FilterRowsAppend` for contents and order) |
| AbuseApi.FilterRowsSpec | api.go:104-136 | at most one row per address; every qualifying address yields its row; every row comes from a qualifying address |
| AbuseApi.FilterRowsAppend | api.go:105-135 | filtering distributes over concatenation, so rows keep the order of their addresses |
| AbuseApi.Settle | api.go:93-101 | a non-retried outcome succeeds iff the status is 2xx and the body decodes; a non-2xx status fails with that status; a 2xx body that does not decode fails with a decode error |
| AbuseApi.Decide | api.go:55-101 | an attempt retries iff it is not the last one, its key is non-empty, and it saw a transport error or a 401; a stopping attempt sleeps nothing and sends no request iff its key is empty, otherwise exactly one request with that key; it fails with the missing-key error iff it sent nothing |
| AbuseApi.Attempts | api.go:54-139 | the retry loop from a given attempt number yields its "no attempt" error iff no attempt remains |
| AbuseApi.AttemptsShape | api.go:54-91 | from any attempt, at most the remaining attempts are made; the backoffs are consecutive attempt numbers; only non-empty listed keys are sent; the loop yields "no attempt" iff none remains; a run ends with its last request, except one that a missing key ends, which ends with the backoff before it |
| AbuseApi.CheckBlock | api.go:53-142 | requests never exceed MaxRetries; MaxRetries <= 0 means no request and an error; an empty key list or an empty first key means an error before any request; backoffs are 1, 2, 3, ... seconds; the call ends with its last request, except when a missing key ends it, in which case the last backoff is the final step |
| AbuseApi.MissingKeyAfterRetry | api.go:54-91 | when the first attempt is retried and the second draws the empty key, the call fails with the missing-key error after one request and a one-second backoff |
| AbuseApi.RetryStep | api.go:74-91 | a retried attempt before the last sends one request, sleeps its attempt number in seconds, and continues |
| AbuseApi.StopStep | api.go:55-101 | an attempt that is not retried ends the loop without sleeping, with the missing-key error or its own outcome |
| AbuseApi.ProceedsUntil | api.go:54-91 | while attempts keep retrying, each adds exactly one request and one backoff and leaves the final result to the later attempts |
| AbuseApi.RetriesExhausted | api.go:74-91 | when every attempt sees a transport error or a 401, exactly MaxRetries requests go out, the total backoff is 1 + 2 + ... + (MaxRetries - 1) seconds, and the call fails with the last attempt's error |
| AbuseApi.DecisiveAttempt | api.go:55-138 | the first attempt that does not retry decides the call: an empty key fails before its request; a non-2xx status other than 401 or an undecodable body fails on that attempt; a decodable 2xx body succeeds with its filtered rows |
| AbuseApi.SuccessComesFromDecodedResponse | api.go:93-138 | a successful call's rows are the filtered addresses of the decodable 2xx response to its last request |
| Prefixes.IsSpace | main.go:79 | the white-space set `strings.TrimSpace` cuts, that of Go's `unicode.IsSpace` |
| Prefixes.IsSpaceLatin1 | main.go:79 | below U+0100 the white space is exactly tab, newline, vertical tab, form feed, carriage return, space, NEL and NBSP |
| Prefixes.LeadingSpace | main.go:79 | the count of leading white-space characters: all of them are white space, and the next character is not |
| Prefixes.TrailingSpace | main.go:79 | the count of trailing white-space characters: all of them are white space, and the character before them is not |
| Prefixes.TrimSpace | main.go:79 | the result is a contiguous slice of the input, only white space is cut from either end, and the result neither starts nor ends with white space |
| Prefixes.TrimSpaceIdempotent | main.go:79 | trimming twice is the same as trimming once |
| Prefixes.Trimmed | main.go:78-79 | one trimmed prefix per configured prefix, at the same position |
| Prefixes.DedupStep | main.go:78-84 | reading one more trimmed prefix keeps the loop invariant: a value already seen is skipped, and a new value is appended as a first occurrence |
| Prefixes.Dedup | main.go:76-85 | the output has no duplicates; every trimmed input prefix is in it; every element is the trimmed form of some input; elements appear in the order of their first occurrence |
| Ranking.SwapKeepsSettled | main.go:96-98 | swapping two positions at or after i keeps the settled prefix before i settled |
| Ranking.RaiseHighest | main.go:95-99 | after the inner loop for i, position i scores at least every later position, the prefix up to i is settled, and the rows are a permutation of the input |
| Ranking.RankByScore | main.go:94-100 | scores are non-increasing, the length is unchanged, and the result is a permutation of the input |
| Pool.ProcessNetworks | main.go:23-58 | the pool's aggregate as a fold over the networks; when every check fails the aggregate is empty |
| Pool.ProcessNetworksAppend | main.go:29-45 | processing one batch of networks after another concatenates their aggregates |
| Pool.AggregateMembership | main.go:31-42 | every row of every network whose check succeeded is aggregated, and every aggregated row comes from such a network |
| Pool.FailedNetworkContributesNothing | main.go:32-37 | a network whose check fails adds nothing and does not affect the networks around it |
| Pool.ProcessOrderIrrelevant | main.go:47-56 | any processing order of the same networks gives the same multiset of rows |
| Pool.OneRowPerNetwork | main.go:38-42 | when every network yields exactly one row, there is exactly one aggregated row per network |
| App.GenerateReport | main.go:61-108 | no keys, or no prefixes, is fatal before any query; otherwise the networks are the de-duplicated prefixes, the rows are ranked by score and are, as a multiset, the aggregate of their checks, and the output path is the report file name under the output directory |

## Left out

- The goroutines, the unbuffered channel, the `sync.WaitGroup` and the `sync.Mutex` of `ProcessNetworks` (main.go:24-56) are not modelled. The fold processes networks one at a time, and `Pool.ProcessOrderIrrelevant` covers every order in which workers could finish. The mutex makes each network's rows one block, so this covers the real interleavings.
- A concurrency of 0 would start no worker. The first send on the channel would then never be received, and Go's runtime would abort the program with "all goroutines are asleep - deadlock!". This cannot arise, because `Settings.LoadConfig` keeps concurrency positive.
- The worker's pause of `GetRetryDelay()` after every job (main.go:35, main.go:43) is not recorded. It only affects timing.
- Building the HTTP request, its query string and its headers (api.go:60-73) is not modelled. The error branch of `http.NewRequest` (api.go:61-63) cannot fire with the constant URL and is left out. Each attempt's outcome comes from the `Environment`.
- JSON decoding (api.go:97-101) is an outcome of the `Environment`: a body either fails to decode or decodes to a list of reported addresses. The response fields the program never reads (network address, netmask and the like) are not modelled.
- `time.Parse`, `Time.Format`, `time.ParseDuration` and `filepath.Join` are parameters with no fixed behaviour. Timestamps are whole seconds, so a fraction of a second in a report timestamp is not modelled at the seven-day boundary. Go saturates `time.Since` at about 292 years, and that does not change any keep-or-drop decision.
- `Emit`, `FilterRows` and `CheckBlock` read the clock once per call, as whole seconds in `Environment.now`. The code calls `time.Since` separately for every address (api.go:119), at nanosecond resolution. So an address that crosses the seven-day boundary while a response is being filtered is not modelled.
- `time.Now` is a parameter (`Environment.now`, and the report's date). `time.Sleep` becomes the recorded backoffs. The random source is the `Environment.draw` oracle, reduced to an index of the key list, and its seeding (main.go:62) is left out.
- Reading `config.yaml`, unmarshalling YAML, and reading `OUTPUT_DIR` are inputs to `Settings.LoadConfig`. A file that cannot be read and a file that does not decode are the same `None` input, as they are in the code.
- HTML rendering and file creation (report.go:22-62, report.go:77-97), the fatal error when the report cannot be written (main.go:102-105), and all logging are not modelled.
- `defer resp.Body.Close()` (api.go:82), which releases the response body, is not modelled.
- Go strings are byte sequences. Here a string is a sequence of Unicode scalar values, so invalid UTF-8 handling in `strings.TrimSpace` is not modelled.
- Go's `int` is 64 bits wide. The model uses unbounded integers, because the code never does arithmetic on scores or counts and the attempt counter never passes `MaxRetries`.
