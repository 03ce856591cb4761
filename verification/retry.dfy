/** The OCR request's bounded retry loop with exponential backoff. The
    network is replaced by a script giving the outcome of each attempt,
    and the sleeps are returned instead of performed. The synchronous and
    asynchronous branches of the loader run this same algorithm. */
module Retry {
  import opened Wrappers
  import opened Json

  /** What one POST produced: a 2xx response's JSON object, a transport
      error, or a non-2xx status with the response text. */
  datatype Outcome =
    | Ok(body: map<string, Json>)
    | RequestErr(detail: string)
    | StatusErr(status: nat, text: string)

  /** The outcome of attempt `n`, for every attempt the loop may make. */
  type Server = nat -> Outcome

  /** A failed outcome that is worth retrying: every transport error, and a
      status of 408, 429 or 500 and above. */
  predicate IsTransient(o: Outcome) {
    match o
    case Ok(_) => false
    case RequestErr(_) => true
    case StatusErr(s, _) => s == 408 || s == 429 || s >= 500
  }

  /** Which failures are retried: every transport error; of the statuses,
      408, 429 and all of 500 and above, and no other (404 included). */
  lemma TransientClassification(detail: string, text: string)
    ensures IsTransient(RequestErr(detail))
    ensures forall s: nat :: s < 500 ==> (IsTransient(StatusErr(s, text)) <==> s == 408 || s == 429)
    ensures forall s: nat :: s >= 500 ==> IsTransient(StatusErr(s, text))
    ensures !IsTransient(StatusErr(404, text))
  {
  }

  /** `2 ** n`. */
  function Pow2(n: nat): (p: nat)
    ensures p >= 1
  {
    if n == 0 then 1 else 2 * Pow2(n - 1)
  }

  /** What the loop does after attempt `n`. */
  datatype Step = Done(body: map<string, Json>) | Backoff(delay: nat) | GiveUp

  function Decide(n: nat, maxRetries: nat, o: Outcome): Step {
    if o.Ok? then Done(o.body)
    else if n < maxRetries && IsTransient(o) then Backoff(Pow2(n))
    else GiveUp
  }

  /** Whether the loop stops after attempt `n`. */
  predicate Stops(server: Server, maxRetries: nat, n: nat) {
    !Decide(n, maxRetries, server(n)).Backoff?
  }

  /** Attempt `k` is the one the loop stops after: it stops there and at no earlier attempt. */
  predicate FirstStop(server: Server, maxRetries: nat, k: nat) {
    Stops(server, maxRetries, k) && forall j :: 0 <= j < k ==> !Stops(server, maxRetries, j)
  }

  /** A finished run: the body or the last error, the number of attempts
      made, and the backoff delays slept, in order. */
  datatype Trace = Trace(result: Result<map<string, Json>, Outcome>, attempts: nat, sleeps: seq<nat>)

  /** The delays `1, 2, 4, ..., 2^(k-1)`. */
  function Backoffs(k: nat): (s: seq<nat>)
    ensures |s| == k && forall i :: 0 <= i < k ==> s[i] == Pow2(i)
  {
    seq(k, (i: nat) => Pow2(i))
  }

  /** The loop from attempt `n` on. */
  function RunFrom(server: Server, maxRetries: nat, n: nat): (t: Trace)
    requires n <= maxRetries
    ensures n + 1 <= t.attempts <= maxRetries + 1
    ensures Stops(server, maxRetries, t.attempts - 1)
    ensures forall j :: n <= j < t.attempts - 1 ==> !Stops(server, maxRetries, j)
    ensures |t.sleeps| == t.attempts - 1 - n
    ensures forall i :: 0 <= i < |t.sleeps| ==> t.sleeps[i] == Pow2(n + i)
    ensures t.result.Success? <==> server(t.attempts - 1).Ok?
    ensures t.result.Success? ==> t.result.value == server(t.attempts - 1).body
    ensures t.result.Failure? ==> t.result.error == server(t.attempts - 1)
    decreases maxRetries - n
  {
    var o := server(n);
    match Decide(n, maxRetries, o)
    case Done(body) => Trace(Success(body), n + 1, [])
    case GiveUp => Trace(Failure(o), n + 1, [])
    case Backoff(d) =>
      var rest := RunFrom(server, maxRetries, n + 1);
      Trace(rest.result, rest.attempts, [d] + rest.sleeps)
  }

  /** The whole loop: `for attempt in range(max_retries + 1)`. */
  function Run(server: Server, maxRetries: nat): (t: Trace)
    ensures 1 <= t.attempts <= maxRetries + 1
    ensures t.sleeps == Backoffs(t.attempts - 1)
  {
    RunFrom(server, maxRetries, 0)
  }

  /** The loop as the loader writes it: attempt, then return, back off or break. */
  method RunLoop(server: Server, maxRetries: nat) returns (t: Trace)
    ensures t == Run(server, maxRetries)
  {
    var attempt: nat := 0;
    var sleeps: seq<nat> := [];
    while true
      invariant attempt <= maxRetries
      invariant sleeps == Backoffs(attempt)
      invariant forall j :: 0 <= j < attempt ==> !Stops(server, maxRetries, j)
      decreases maxRetries - attempt
    {
      var o := server(attempt);
      match Decide(attempt, maxRetries, o)
      case Done(body) =>
        ClosedForm(server, maxRetries, attempt);
        return Trace(Success(body), attempt + 1, sleeps);
      case GiveUp =>
        ClosedForm(server, maxRetries, attempt);
        return Trace(Failure(o), attempt + 1, sleeps);
      case Backoff(d) =>
        sleeps := sleeps + [d];
        attempt := attempt + 1;
    }
  }

  /** The run is determined by the first attempt at which the loop stops:
      it makes one attempt more than that index and sleeps `2^i` after
      each earlier attempt `i`. */
  lemma ClosedForm(server: Server, maxRetries: nat, k: nat)
    requires k <= maxRetries && Stops(server, maxRetries, k)
    requires forall j :: 0 <= j < k ==> !Stops(server, maxRetries, j)
    ensures Run(server, maxRetries) ==
      Trace(if server(k).Ok? then Success(server(k).body) else Failure(server(k)), k + 1, Backoffs(k))
  {
  }

  /** A server that only ever fails transiently gets `max_retries + 1`
      attempts and `max_retries` sleeps of 1, 2, 4, ... units. */
  lemma AlwaysTransientExhausts(server: Server, maxRetries: nat)
    requires forall i :: IsTransient(server(i))
    ensures Run(server, maxRetries) == Trace(Failure(server(maxRetries)), maxRetries + 1, Backoffs(maxRetries))
  {
    ClosedForm(server, maxRetries, maxRetries);
  }

  /** `k` transient failures followed by a success: the success's body is
      returned after exactly `k` sleeps of 1, 2, ..., `2^(k-1)` units. */
  lemma FailuresThenSuccess(server: Server, maxRetries: nat, k: nat)
    requires k <= maxRetries && server(k).Ok?
    requires forall i :: 0 <= i < k ==> IsTransient(server(i))
    ensures Run(server, maxRetries) == Trace(Success(server(k).body), k + 1, Backoffs(k))
  {
    ClosedForm(server, maxRetries, k);
  }

  /** A non-transient failure (a 404, say) ends the loop at once, whatever
      the retry budget. */
  lemma PermanentErrorStopsAtOnce(server: Server, maxRetries: nat)
    requires !server(0).Ok? && !IsTransient(server(0))
    ensures Run(server, maxRetries) == Trace(Failure(server(0)), 1, [])
  {
    ClosedForm(server, maxRetries, 0);
  }

  /** With no retries allowed there is exactly one attempt and no sleep. */
  lemma NoRetriesOneAttempt(server: Server)
    ensures Run(server, 0).attempts == 1 && Run(server, 0).sleeps == []
    ensures Run(server, 0).result.Failure? ==> Run(server, 0).result.error == server(0)
  {
    ClosedForm(server, 0, 0);
  }

  /** The first success is returned and nothing more is attempted. */
  lemma FirstSuccessReturned(server: Server, maxRetries: nat)
    requires server(0).Ok?
    ensures Run(server, maxRetries) == Trace(Success(server(0).body), 1, [])
  {
    ClosedForm(server, maxRetries, 0);
  }

  /** A server that always fails with a connection error, as in the unit
      test of exhausted retries: with `max_retries = 3` the loop makes four
      attempts and sleeps 1, 2 and 4 units (the test expects three calls and
      two sleeps), and with `max_retries = 1` it makes two attempts (the
      test expects one). */
  lemma AlwaysConnectionErrorCounts(detail: string)
    ensures var server: Server := (i: nat) => RequestErr(detail);
      && Run(server, 3) == Trace(Failure(RequestErr(detail)), 4, [1, 2, 4])
      && Run(server, 1) == Trace(Failure(RequestErr(detail)), 2, [1])
  {
    var server: Server := (i: nat) => RequestErr(detail);
    AlwaysTransientExhausts(server, 3);
    AlwaysTransientExhausts(server, 1);
    assert Backoffs(3) == [1, 2, 4];
    assert Backoffs(1) == [1];
  }

  /** The unit tests' recovering servers: two connection errors then a
      success take three attempts and sleeps of 1 and 2; one 503 then a
      success takes two attempts and one sleep of 1. */
  lemma RecoveringServerCounts(body: map<string, Json>)
    ensures var server: Server := (i: nat) => if i < 2 then RequestErr("Connection reset") else Ok(body);
      Run(server, 3) == Trace(Success(body), 3, [1, 2])
    ensures var server: Server := (i: nat) => if i < 1 then StatusErr(503, "Service Unavailable") else Ok(body);
      Run(server, 3) == Trace(Success(body), 2, [1])
  {
    var s1: Server := (i: nat) => if i < 2 then RequestErr("Connection reset") else Ok(body);
    FailuresThenSuccess(s1, 3, 2);
    assert Backoffs(2) == [1, 2];
    var s2: Server := (i: nat) => if i < 1 then StatusErr(503, "Service Unavailable") else Ok(body);
    FailuresThenSuccess(s2, 3, 1);
    assert Backoffs(1) == [1];
  }
}
