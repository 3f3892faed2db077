/** The check-block client: API key selection, the retry loop over HTTP
    attempts, and the filter that turns reported addresses into report rows.
    The network, the random source and the clock are replaced by an
    `Environment` that says what each attempt observes. */
module AbuseApi {
  import opened Wrappers
  import opened Reports

  // ---------------------------------------------------------------------------
  // Response data and the recency filter

  /** One element of `data.reportedAddress` in a decoded check-block response.
      `countryCode` is None when the JSON value is null. */
  datatype ReportedAddress = ReportedAddress(
    ipAddress: string,
    numReports: int,
    mostRecentReport: string,
    abuseConfidenceScore: int,
    countryCode: Option<string>)

  /** A parsed point in time: whole seconds since the Unix epoch, and the zone
      offset the text carried (which RFC 3339 formatting writes back out). */
  datatype Instant = Instant(unixSeconds: int, zoneOffset: int)

  /** The time library the filter relies on: parsing under RFC 3339 section 5.6
      date-time, parsing under the "2006-01-02 15:04:05 MST" layout, and
      formatting back to RFC 3339. */
  datatype TimeLib = TimeLib(
    parseRfc3339: string -> Option<Instant>,
    parseZoneAbbrev: string -> Option<Instant>,
    formatRfc3339: Instant -> string)

  /** Seven days, in seconds. */
  const RecencyWindow: int := 7 * 24 * 60 * 60

  /** Parses a report timestamp: RFC 3339 first, the zone-abbreviation layout
      only when RFC 3339 fails. */
  function ParseReportTime(lib: TimeLib, text: string): (t: Option<Instant>)
    ensures t.Some? <==> lib.parseRfc3339(text).Some? || lib.parseZoneAbbrev(text).Some?
    ensures lib.parseRfc3339(text).Some? ==> t == lib.parseRfc3339(text)
    ensures lib.parseRfc3339(text).None? ==> t == lib.parseZoneAbbrev(text)
  {
    match lib.parseRfc3339(text)
    case Some(t) => Some(t)
    case None => lib.parseZoneAbbrev(text)
  }

  /** A report at time `t` is recent at time `now` unless more than seven days
      have passed. Reports exactly seven days old, and reports dated in the
      future, are recent. */
  predicate IsRecent(now: int, t: Instant)
  {
    now - t.unixSeconds <= RecencyWindow
  }

  /** The time of an address's most recent report, when it is present and parses. */
  function ReportTime(lib: TimeLib, a: ReportedAddress): Option<Instant>
  {
    if a.mostRecentReport == "" then None else ParseReportTime(lib, a.mostRecentReport)
  }

  /** The row emitted for one reported address, or None when the address is
      skipped (missing or unparseable timestamp, or too old). */
  function Emit(lib: TimeLib, now: int, a: ReportedAddress): (row: Option<ReportRow>)
    ensures row.Some? <==>
              && a.mostRecentReport != ""
              && (lib.parseRfc3339(a.mostRecentReport).Some? || lib.parseZoneAbbrev(a.mostRecentReport).Some?)
              && IsRecent(now, ReportTime(lib, a).value)
    ensures row.Some? ==>
              && row.value.ipAddress == a.ipAddress
              && row.value.numReports == a.numReports
              && row.value.abuseConfidenceScore == a.abuseConfidenceScore
              && row.value.countryName == (if a.countryCode.Some? then a.countryCode.value else "")
              && row.value.lastReportedAt == lib.formatRfc3339(ReportTime(lib, a).value)
  {
    match ReportTime(lib, a)
    case None => None
    case Some(t) =>
      if !IsRecent(now, t) then None
      else
        var country := match a.countryCode case Some(code) => code case None => "";
        Some(ReportRow(a.ipAddress, country, a.numReports, a.abuseConfidenceScore, lib.formatRfc3339(t)))
  }

  /** The rows of a decoded response, in response order. */
  function FilterRows(lib: TimeLib, now: int, addresses: seq<ReportedAddress>): (rows: seq<ReportRow>)
    ensures |rows| <= |addresses|
  {
    if |addresses| == 0 then []
    else
      var head := match Emit(lib, now, addresses[0]) case Some(row) => [row] case None => [];
      head + FilterRows(lib, now, addresses[1..])
  }

  /** The filter emits at most one row per address; every address that
      qualifies yields its row, and every row comes from a qualifying address. */
  lemma {:induction false} FilterRowsSpec(lib: TimeLib, now: int, addresses: seq<ReportedAddress>)
    ensures |FilterRows(lib, now, addresses)| <= |addresses|
    ensures forall a :: a in addresses && Emit(lib, now, a).Some? ==>
              Emit(lib, now, a).value in FilterRows(lib, now, addresses)
    ensures forall row :: row in FilterRows(lib, now, addresses) ==>
              exists a :: a in addresses && Emit(lib, now, a) == Some(row)
    decreases |addresses|
  {
    if |addresses| > 0 {
      FilterRowsSpec(lib, now, addresses[1..]);
      assert forall a :: a in addresses ==> a == addresses[0] || a in addresses[1..];
      assert forall a :: a in addresses[1..] ==> a in addresses;
    }
  }

  /** Filtering distributes over concatenation, so the rows keep the order of
      the addresses they come from. */
  lemma {:induction false} FilterRowsAppend(lib: TimeLib, now: int, xs: seq<ReportedAddress>, ys: seq<ReportedAddress>)
    ensures FilterRows(lib, now, xs + ys) == FilterRows(lib, now, xs) + FilterRows(lib, now, ys)
    decreases |xs|
  {
    if |xs| > 0 {
      assert (xs + ys)[1..] == xs[1..] + ys;
      FilterRowsAppend(lib, now, xs[1..], ys);
    } else {
      assert xs + ys == ys;
    }
  }

  // ---------------------------------------------------------------------------
  // The retry loop

  /** A response body: either it does not decode, or it decodes to the list of
      reported addresses. */
  datatype Body = Undecodable | Decoded(reported: seq<ReportedAddress>)

  /** What one HTTP attempt observes: a transport failure (connection error or
      timeout), or a response with a status code and a body. */
  datatype Response = TransportError | HttpResponse(status: int, body: Body)

  /** Everything the outside world decides for one call of CheckBlock:
      the random draw behind the key chosen on attempt `n` is `draw(n)`, the
      outcome of attempt `n` is `respond(n)`, and `now` is the clock when the
      rows are filtered. */
  datatype Environment = Environment(draw: nat -> nat, respond: nat -> Response, now: int)

  /** The client's fixed state: the API keys and the configured attempt bound. */
  datatype Client = Client(keys: seq<string>, maxRetries: int)

  /** The ways a check-block call fails. */
  datatype CheckError =
    | MissingApiKey          // the chosen key is empty, or there are no keys
    | FinalAttemptFailed     // a transport failure on the last attempt
    | UnauthorizedExhausted  // status 401 on the last attempt
    | HttpStatus(code: int)  // any other status outside 200..299
    | DecodeFailed           // a 2xx body that does not decode
    | AttemptsExhausted      // the loop ran no attempt at all

  /** The trace of one check-block call: its result, the key sent with each
      request in order (so the number of requests issued is `|keysUsed|`), and
      the seconds slept before each retry. The retry loop yields the decoded
      addresses; the call as a whole yields report rows. */
  datatype Run<T> = Run(result: Result<T, CheckError>, keysUsed: seq<string>, backoffs: seq<nat>)

  /** Picks a key at random; the empty string when there is none. `draw` is
      the random source's output, reduced to an index of `keys`. */
  function SelectKey(keys: seq<string>, draw: nat): (key: string)
    ensures |keys| == 0 ==> key == ""
    ensures |keys| > 0 ==> key in keys
  {
    if |keys| == 0 then "" else keys[draw % |keys|]
  }

  /** Every key can be chosen. */
  lemma EveryKeySelectable(keys: seq<string>, i: nat)
    requires i < |keys|
    ensures SelectKey(keys, i) == keys[i]
  {
    assert i / |keys| == 0;
  }

  /** The backoffs `from, from + 1, ..., from + count - 1` seconds. */
  function Ramp(from: nat, count: nat): seq<nat>
    decreases count
  {
    if count == 0 then [] else [from] + Ramp(from + 1, count - 1)
  }

  function Sum(xs: seq<nat>): nat
  {
    if |xs| == 0 then 0 else xs[0] + Sum(xs[1..])
  }

  /** Transport failures and 401 responses are the only outcomes retried. */
  predicate Retryable(response: Response)
  {
    response.TransportError? || response.status == 401
  }

  /** Attempt `n` goes ahead with a key and observes an outcome worth retrying. */
  predicate Proceeds(client: Client, env: Environment, n: nat)
  {
    SelectKey(client.keys, env.draw(n)) != "" && Retryable(env.respond(n))
  }

  /** A request sent with `key` on `attempt`, followed by a backoff of
      `attempt` seconds and the remaining attempts. */
  function Retry<T>(key: string, attempt: nat, rest: Run<T>): Run<T>
  {
    Run(rest.result, [key] + rest.keysUsed, [attempt] + rest.backoffs)
  }

  /** What one attempt decides: stop with a final run, or retry after
      sending a request with `key`. */
  datatype Turn = Stop(run: Run<seq<ReportedAddress>>) | Again(key: string)

  /** The error of a retryable outcome on the last attempt. */
  function ExhaustedError(response: Response): CheckError
  {
    if response.TransportError? then FinalAttemptFailed else UnauthorizedExhausted
  }

  /** The result of an attempt whose outcome is not retried: any status
      outside 200..299 is an error, a 2xx body that does not decode is an
      error, and a decoded body yields its reported addresses. */
  function Settle(response: Response): (result: Result<seq<ReportedAddress>, CheckError>)
    requires !Retryable(response)
    ensures result.Success? <==> 200 <= response.status < 300 && response.body.Decoded?
    ensures result.Success? ==> result.value == response.body.reported
    ensures result == Failure(HttpStatus(response.status)) <==> !(200 <= response.status < 300)
    ensures result == Failure(DecodeFailed) <==> 200 <= response.status < 300 && response.body.Undecodable?
  {
    if response.status < 200 || response.status >= 300 then Failure(HttpStatus(response.status))
    else match response.body
      case Undecodable => Failure(DecodeFailed)
      case Decoded(reported) => Success(reported)
  }

  /** Attempt number `attempt` of the loop: draw a key, send the request,
      classify the outcome. */
  function Decide(client: Client, env: Environment, attempt: nat): (turn: Turn)
    requires 1 <= attempt <= client.maxRetries
    ensures turn.Again? <==> attempt < client.maxRetries && Proceeds(client, env, attempt)
    ensures turn.Again? ==> turn.key == SelectKey(client.keys, env.draw(attempt))
    ensures turn.Stop? ==>
              && turn.run.backoffs == []
              && turn.run.result != Failure(AttemptsExhausted)
              && (turn.run.result == Failure(MissingApiKey) <==> turn.run.keysUsed == [])
              && (turn.run.keysUsed == [] <==> SelectKey(client.keys, env.draw(attempt)) == "")
              && turn.run.keysUsed in {[], [SelectKey(client.keys, env.draw(attempt))]}
              && (forall k :: k in turn.run.keysUsed ==> k in client.keys && k != "")
  {
    var key := SelectKey(client.keys, env.draw(attempt));
    var response := env.respond(attempt);
    if key == "" then Stop(Run(Failure(MissingApiKey), [], []))
    else if !Retryable(response) then Stop(Run(Settle(response), [key], []))
    else if attempt == client.maxRetries then Stop(Run(Failure(ExhaustedError(response)), [key], []))
    else Again(key)
  }

  /** The attempts numbered `attempt` up to `client.maxRetries`. */
  function Attempts(client: Client, env: Environment, attempt: nat): (r: Run<seq<ReportedAddress>>)
    requires 1 <= attempt
    ensures r.result == Failure(AttemptsExhausted) <==> attempt > client.maxRetries
    decreases client.maxRetries - attempt
  {
    if attempt > client.maxRetries then Run(Failure(AttemptsExhausted), [], [])
    else match Decide(client, env, attempt)
      case Stop(run) => run
      case Again(key) => Retry(key, attempt, Attempts(client, env, attempt + 1))
  }

  /** Queries one network prefix, whose responses `env` describes. A
      decodable 2xx response ends the loop, and its addresses are filtered into
      rows; the filter cannot fail, so filtering after the loop is the same as
      filtering in the attempt that succeeded. */
  function CheckBlock(client: Client, env: Environment, lib: TimeLib): (r: Run<seq<ReportRow>>)
    ensures |r.keysUsed| <= if client.maxRetries > 0 then client.maxRetries else 0
    ensures client.maxRetries <= 0 ==> r == Run(Failure(AttemptsExhausted), [], [])
    ensures r.result == Failure(AttemptsExhausted) ==> client.maxRetries <= 0
    ensures |client.keys| == 0 && client.maxRetries > 0 ==> r == Run(Failure(MissingApiKey), [], [])
    ensures SelectKey(client.keys, env.draw(1)) == "" && client.maxRetries > 0 ==>
              r == Run(Failure(MissingApiKey), [], [])
    ensures forall k :: k in r.keysUsed ==> k in client.keys && k != ""
    ensures r.backoffs == Ramp(1, |r.backoffs|)
    ensures |r.backoffs| <= |r.keysUsed| <= |r.backoffs| + 1
    ensures client.maxRetries > 0 && r.result != Failure(MissingApiKey) ==> |r.keysUsed| == |r.backoffs| + 1
    ensures r.result == Failure(MissingApiKey) ==> |r.keysUsed| == |r.backoffs|
  {
    AttemptsShape(client, env, 1);
    var loop := Attempts(client, env, 1);
    match loop.result
    case Success(reported) => Run(Success(FilterRows(lib, env.now, reported)), loop.keysUsed, loop.backoffs)
    case Failure(e) => Run(Failure(e), loop.keysUsed, loop.backoffs)
  }

  /** What every run of the loop from `attempt` looks like: one request per
      attempt made, one backoff of `a` seconds after each attempt `a` that is
      retried, never more attempts than remain, only non-empty keys from the
      key list, and "no attempt at all" exactly when no attempt remains. A run
      ends with a request, except one that a missing key ends: that run ends
      with the backoff of the attempt before. */
  lemma {:induction false} AttemptsShape(client: Client, env: Environment, attempt: nat)
    requires 1 <= attempt
    ensures var r := Attempts(client, env, attempt);
            && |r.backoffs| <= |r.keysUsed| <= |r.backoffs| + 1
            && r.backoffs == Ramp(attempt, |r.backoffs|)
            && (attempt <= client.maxRetries ==> attempt + |r.keysUsed| <= client.maxRetries + 1)
            && (attempt > client.maxRetries ==> r.keysUsed == [])
            && (forall k :: k in r.keysUsed ==> k in client.keys && k != "")
            && (r.result == Failure(AttemptsExhausted) <==> attempt > client.maxRetries)
            && (r.result != Failure(MissingApiKey) && attempt <= client.maxRetries ==>
                  |r.keysUsed| == |r.backoffs| + 1)
            && (r.result == Failure(MissingApiKey) ==> |r.keysUsed| == |r.backoffs|)
    decreases client.maxRetries - attempt
  {
    if attempt <= client.maxRetries && Decide(client, env, attempt).Again? {
      AttemptsShape(client, env, attempt + 1);
      RetryStep(client, env, attempt);
    }
  }

  /** An attempt before the last that retries sends one request, sleeps its
      attempt number in seconds, and hands over to the next attempt. */
  lemma RetryStep(client: Client, env: Environment, attempt: nat)
    requires 1 <= attempt < client.maxRetries
    requires Proceeds(client, env, attempt)
    ensures var r := Attempts(client, env, attempt);
            var rest := Attempts(client, env, attempt + 1);
            && r.result == rest.result
            && r.keysUsed == [SelectKey(client.keys, env.draw(attempt))] + rest.keysUsed
            && r.backoffs == [attempt] + rest.backoffs
  {
    assert Decide(client, env, attempt) == Again(SelectKey(client.keys, env.draw(attempt)));
  }

  /** An attempt that does not retry ends the loop on the spot. */
  lemma StopStep(client: Client, env: Environment, attempt: nat)
    requires 1 <= attempt <= client.maxRetries
    requires !Proceeds(client, env, attempt)
    ensures var r := Attempts(client, env, attempt);
            var key := SelectKey(client.keys, env.draw(attempt));
            var response := env.respond(attempt);
            && r.backoffs == []
            && (key == "" ==> r == Run(Failure(MissingApiKey), [], []))
            && (key != "" ==> r == Run(Settle(response), [key], []))
  {
  }

  /** A key list that holds the empty string can end a call after a request
      and a backoff: the first attempt is retried after a 401 or a transport
      error and sleeps one second, and the second attempt draws the empty key
      and fails before sending anything. */
  lemma MissingKeyAfterRetry(client: Client, env: Environment, lib: TimeLib)
    requires client.maxRetries >= 2
    requires Proceeds(client, env, 1)
    requires SelectKey(client.keys, env.draw(2)) == ""
    ensures CheckBlock(client, env, lib) ==
              Run(Failure(MissingApiKey), [SelectKey(client.keys, env.draw(1))], [1])
  {
    RetryStep(client, env, 1);
    StopStep(client, env, 2);
  }

  /** Twice the sum of the ramp is `count * (2 * from + count - 1)`. */
  lemma {:induction false} RampSum(from: nat, count: nat)
    ensures 2 * Sum(Ramp(from, count)) == count * (2 * from + count - 1)
    decreases count
  {
    if count > 0 {
      var c := count - 1;
      RampSum(from + 1, c);
      assert Ramp(from, count)[1..] == Ramp(from + 1, c);
      calc {
        2 * Sum(Ramp(from, count));
        2 * from + 2 * Sum(Ramp(from + 1, c));
        2 * from + c * (2 * from + c + 1);
        { assert c * (2 * from + c + 1) == c * (2 * from) + c * (c + 1); }
        2 * from + c * (2 * from) + c * (c + 1);
        { assert 2 * from + c * (2 * from) == (c + 1) * (2 * from); }
        (c + 1) * (2 * from) + (c + 1) * c;
        { assert (c + 1) * (2 * from) + (c + 1) * c == (c + 1) * (2 * from + c); }
        count * (2 * from + count - 1);
      }
    }
  }

  /** While attempts `from .. n - 1` all retry, the run from `from` is the
      run from `n` preceded by one request and one backoff per attempt. */
  lemma {:induction false} ProceedsUntil(client: Client, env: Environment, from: nat, n: nat)
    requires 1 <= from <= n <= client.maxRetries
    requires forall a :: from <= a < n ==> Proceeds(client, env, a)
    ensures var r := Attempts(client, env, from);
            var rn := Attempts(client, env, n);
            && r.result == rn.result
            && |r.keysUsed| == n - from + |rn.keysUsed|
            && r.backoffs == Ramp(from, n - from) + rn.backoffs
    decreases n - from
  {
    if from < n {
      var r := Attempts(client, env, from);
      var rest := Attempts(client, env, from + 1);
      var rn := Attempts(client, env, n);
      ProceedsUntil(client, env, from + 1, n);
      RetryStep(client, env, from);
      calc {
        r.backoffs;
        [from] + rest.backoffs;
        [from] + (Ramp(from + 1, n - from - 1) + rn.backoffs);
        ([from] + Ramp(from + 1, n - from - 1)) + rn.backoffs;
        Ramp(from, n - from) + rn.backoffs;
      }
    }
  }

  /** When every attempt retries, exactly `maxRetries` requests go out, the
      backoffs are 1, 2, ..., maxRetries - 1 seconds (nothing after the last
      attempt), and the call fails with the last attempt's error. */
  lemma RetriesExhausted(client: Client, env: Environment, lib: TimeLib)
    requires client.maxRetries >= 1
    requires forall a :: 1 <= a <= client.maxRetries ==> Proceeds(client, env, a)
    ensures var r := CheckBlock(client, env, lib);
            && |r.keysUsed| == client.maxRetries
            && r.backoffs == Ramp(1, client.maxRetries - 1)
            && 2 * Sum(r.backoffs) == (client.maxRetries - 1) * client.maxRetries
            && r.result == Failure(if env.respond(client.maxRetries).TransportError?
                                   then FinalAttemptFailed else UnauthorizedExhausted)
  {
    var m := client.maxRetries;
    ProceedsUntil(client, env, 1, m);
    assert Proceeds(client, env, m);
    assert Decide(client, env, m).Stop?;
    RampSum(1, m - 1);
  }

  /** The first attempt that does not retry decides the call: a missing key
      stops it before that attempt's request; otherwise that request is the last
      one, and its status and body give the result. Every earlier attempt sent
      one request and slept its attempt number in seconds. */
  lemma DecisiveAttempt(client: Client, env: Environment, lib: TimeLib, n: nat)
    requires 1 <= n <= client.maxRetries
    requires forall a :: 1 <= a < n ==> Proceeds(client, env, a)
    requires !Proceeds(client, env, n)
    ensures var r := CheckBlock(client, env, lib);
            var key := SelectKey(client.keys, env.draw(n));
            var response := env.respond(n);
            && r.backoffs == Ramp(1, n - 1)
            && (key == "" ==> r.result == Failure(MissingApiKey) && |r.keysUsed| == n - 1)
            && (key != "" ==> |r.keysUsed| == n && response.HttpResponse? && response.status != 401)
            && (key != "" && !(200 <= response.status < 300) ==>
                  r.result == Failure(HttpStatus(response.status)))
            && (key != "" && 200 <= response.status < 300 && response.body.Undecodable? ==>
                  r.result == Failure(DecodeFailed))
            && (key != "" && 200 <= response.status < 300 && response.body.Decoded? ==>
                  r.result == Success(FilterRows(lib, env.now, response.body.reported)))
  {
    ProceedsUntil(client, env, 1, n);
    StopStep(client, env, n);
  }

  /** A call succeeds only on a decodable 2xx response, with that response's
      rows; the request that got it is the last one sent. */
  lemma SuccessComesFromDecodedResponse(client: Client, env: Environment, lib: TimeLib)
    ensures var r := CheckBlock(client, env, lib);
            var n := |r.keysUsed|;
            r.result.Success? ==>
              && 1 <= n <= client.maxRetries
              && env.respond(n).HttpResponse? && 200 <= env.respond(n).status < 300
              && env.respond(n).body.Decoded?
              && r.result.value == FilterRows(lib, env.now, env.respond(n).body.reported)
  {
    SuccessAt(client, env, 1);
  }

  lemma {:induction false} SuccessAt(client: Client, env: Environment, attempt: nat)
    requires 1 <= attempt
    ensures var r := Attempts(client, env, attempt);
            var n := attempt + |r.keysUsed| - 1;
            r.result.Success? ==>
              && attempt <= n <= client.maxRetries
              && env.respond(n).HttpResponse? && 200 <= env.respond(n).status < 300
              && env.respond(n).body.Decoded?
              && r.result.value == env.respond(n).body.reported
    decreases client.maxRetries - attempt
  {
    var r := Attempts(client, env, attempt);
    if r.result.Success? && attempt <= client.maxRetries {
      if Proceeds(client, env, attempt) {
        RetryStep(client, env, attempt);
        SuccessAt(client, env, attempt + 1);
      } else {
        StopStep(client, env, attempt);
      }
    }
  }
}
