/** The request retry loop shared by `get_apollo` and `find_company`.

    The network is an input: `attempt(k)` is the outcome of the k-th request
    (counting from 0).  An HTTP error status and a network failure (connection,
    timeout, too many redirects) are counted separately against caps of 10 and 60;
    any other request exception ends the loop at once; the first good response
    ends it too.
 */
module Retry {
  import opened Wrappers

  /** The outcome of one request. */
  datatype Outcome =
    | Fetched(body: string)     // a 2xx response
    | HttpError(body: string)   // a response whose status raised in raise_for_status
    | NetworkError              // ConnectionError, Timeout, TooManyRedirects: no response
    | OtherError                // any other RequestException

  /** How the loop ended.  `Capped` carries the body of the last response still
      held when a cap was reached (`None` when the last attempt had no response). */
  datatype Exit = Success(body: string) | Capped(last: Option<string>) | Aborted

  /** The state when the loop stops: the exit and the counters. */
  datatype Stop = Stop(exit: Exit, attempts: nat, http: nat, network: nat)

  const MaxHttpAttempts: nat := 10
  const MaxNetworkAttempts: nat := 60

  /** The loop from attempt k on, with the counters so far and the last response. */
  function Run(attempt: nat -> Outcome, k: nat, http: nat, network: nat, last: Option<string>): Stop
    requires http <= MaxHttpAttempts && network <= MaxNetworkAttempts
    decreases (MaxHttpAttempts - http) + (MaxNetworkAttempts - network)
  {
    if http == MaxHttpAttempts || network == MaxNetworkAttempts then Stop(Capped(last), k, http, network)
    else
      match attempt(k)
      case Fetched(b) => Stop(Success(b), k + 1, http, network)
      case HttpError(b) => Run(attempt, k + 1, http + 1, network, Some(b))
      case NetworkError => Run(attempt, k + 1, http, network + 1, None)
      case OtherError => Stop(Aborted, k + 1, http, network)
  }

  function RetryRun(attempt: nat -> Outcome): Stop {
    Run(attempt, 0, 0, 0, None)
  }

  /** The number of HTTP errors among the first n attempts. */
  function HttpCount(attempt: nat -> Outcome, n: nat): nat {
    if n == 0 then 0 else HttpCount(attempt, n - 1) + (if attempt(n - 1).HttpError? then 1 else 0)
  }

  /** The number of network errors among the first n attempts. */
  function NetworkCount(attempt: nat -> Outcome, n: nat): nat {
    if n == 0 then 0 else NetworkCount(attempt, n - 1) + (if attempt(n - 1).NetworkError? then 1 else 0)
  }

  /** Attempts before the last one were all retried errors. */
  predicate Retried(o: Outcome) {
    o.HttpError? || o.NetworkError?
  }

  /** The run as the source's `while` loop. */
  method FetchLoop(attempt: nat -> Outcome) returns (r: Stop)
    ensures r == RetryRun(attempt)
  {
    var httpAttempts, networkAttempts, k := 0, 0, 0;
    var response: Option<string> := None;
    var exit: Exit := Capped(None);
    var done := false;
    while !done && httpAttempts < MaxHttpAttempts && networkAttempts < MaxNetworkAttempts
      invariant httpAttempts <= MaxHttpAttempts && networkAttempts <= MaxNetworkAttempts
      invariant !done ==> Run(attempt, k, httpAttempts, networkAttempts, response) == RetryRun(attempt)
      invariant done ==> (exit.Success? || exit.Aborted?) && RetryRun(attempt) == Stop(exit, k, httpAttempts, networkAttempts)
      decreases !done, (MaxHttpAttempts - httpAttempts) + (MaxNetworkAttempts - networkAttempts)
    {
      response := None;
      match attempt(k) {
        case Fetched(b) =>
          exit, done := Success(b), true;
        case HttpError(b) =>
          response := Some(b);
          httpAttempts := httpAttempts + 1;
        case NetworkError =>
          networkAttempts := networkAttempts + 1;
        case OtherError =>
          exit, done := Aborted, true;
      }
      k := k + 1;
    }
    if !done {
      exit := Capped(response);
    }
    r := Stop(exit, k, httpAttempts, networkAttempts);
  }

  // ---------------------------------------------------------------------------
  // Properties of the run
  // ---------------------------------------------------------------------------

  /** The body still held after the first k attempts: the last one's, when it
      was an error response. */
  function LastBody(attempt: nat -> Outcome, k: nat): Option<string> {
    if k > 0 && attempt(k - 1).HttpError? then Some(attempt(k - 1).body) else None
  }

  /** The loop's variables after k attempts that were all retried errors. */
  ghost predicate Reached(attempt: nat -> Outcome, k: nat, http: nat, network: nat) {
    http == HttpCount(attempt, k) && network == NetworkCount(attempt, k) && k == http + network &&
    forall j :: 0 <= j < k ==> Retried(attempt(j))
  }

  /** What the stop state says about the attempts that led to it. */
  ghost predicate Ended(attempt: nat -> Outcome, r: Stop) {
    r.http <= MaxHttpAttempts && r.network <= MaxNetworkAttempts &&
    (r.exit.Capped? <==> r.http == MaxHttpAttempts || r.network == MaxNetworkAttempts) &&
    (r.exit.Capped? ==> Reached(attempt, r.attempts, r.http, r.network) &&
                        r.exit.last == LastBody(attempt, r.attempts)) &&
    (!r.exit.Capped? ==> r.attempts > 0 && Reached(attempt, r.attempts - 1, r.http, r.network) &&
                         (r.exit.Success? <==> attempt(r.attempts - 1).Fetched?) &&
                         (r.exit.Success? ==> r.exit.body == attempt(r.attempts - 1).body) &&
                         (r.exit.Aborted? <==> attempt(r.attempts - 1).OtherError?))
  }

  lemma ReachedStep(attempt: nat -> Outcome, k: nat, http: nat, network: nat)
    requires Reached(attempt, k, http, network) && Retried(attempt(k))
    ensures attempt(k).HttpError? ==> Reached(attempt, k + 1, http + 1, network)
    ensures attempt(k).NetworkError? ==> Reached(attempt, k + 1, http, network + 1)
  {
  }

  /** What a run from attempt k looks like, for every attempt stream: the counters
      count the two kinds of error among the attempts made; every attempt but the
      last was a retried error; a cap was reached exactly when the exit is
      `Capped`, which keeps the last error page; otherwise the last attempt was the
      good response or the other error that ended the loop. */
  lemma {:induction false} RunProps(attempt: nat -> Outcome, k: nat, http: nat, network: nat, last: Option<string>)
    requires http <= MaxHttpAttempts && network <= MaxNetworkAttempts
    requires Reached(attempt, k, http, network) && last == LastBody(attempt, k)
    ensures Ended(attempt, Run(attempt, k, http, network, last))
    ensures k <= Run(attempt, k, http, network, last).attempts
    decreases (MaxHttpAttempts - http) + (MaxNetworkAttempts - network)
  {
    if http < MaxHttpAttempts && network < MaxNetworkAttempts {
      match attempt(k)
      case Fetched(b) =>
      case OtherError =>
      case HttpError(b) =>
        ReachedStep(attempt, k, http, network);
        RunProps(attempt, k + 1, http + 1, network, Some(b));
      case NetworkError =>
        ReachedStep(attempt, k, http, network);
        RunProps(attempt, k + 1, http, network + 1, None);
    }
  }

  /** The whole retry run: it fails (no usable response) exactly when a cap was
      reached or another request error occurred, and a success hands back the body
      of the first good response, which is the last attempt made. */
  lemma RetryProps(attempt: nat -> Outcome)
    ensures var r := RetryRun(attempt);
      (r.exit.Capped? <==> r.http == MaxHttpAttempts || r.network == MaxNetworkAttempts) &&
      (!r.exit.Success? <==> r.http == MaxHttpAttempts || r.network == MaxNetworkAttempts || r.exit.Aborted?) &&
      (r.exit.Success? ==> 0 < r.attempts && attempt(r.attempts - 1) == Fetched(r.exit.body) &&
                           forall j :: 0 <= j < r.attempts - 1 ==> Retried(attempt(j))) &&
      r.attempts <= MaxHttpAttempts + MaxNetworkAttempts
  {
    RunProps(attempt, 0, 0, 0, None);
  }

  /** A server that always answers with an error status is tried exactly ten
      times, and the last error page is what remains. */
  lemma AlwaysHttpError(attempt: nat -> Outcome, page: string)
    requires forall k :: attempt(k) == HttpError(page)
    ensures RetryRun(attempt) == Stop(Capped(Some(page)), 10, 10, 0)
  {
    var r := RetryRun(attempt);
    RunProps(attempt, 0, 0, 0, None);
    NoNetworkErrors(attempt, r.attempts);
  }

  lemma {:induction false} NoNetworkErrors(attempt: nat -> Outcome, n: nat)
    requires forall k :: attempt(k).HttpError?
    ensures NetworkCount(attempt, n) == 0
  {
    if n > 0 {
      NoNetworkErrors(attempt, n - 1);
    }
  }

  /** Any other request error ends the run after that one attempt, whatever
      follows in the stream. */
  lemma OtherErrorFirst(attempt: nat -> Outcome)
    requires attempt(0) == OtherError
    ensures RetryRun(attempt) == Stop(Aborted, 1, 0, 0)
  {
  }
}
