/** `fetchWithBackoff`, identical in both drafts: up to five POSTs to the
    reasoning service, waiting 1000 ms after the first failure and doubling
    the wait after each further one. The network is a given list of answers,
    one per attempt, and the waits are recorded instead of slept. */
module Backoff {

  const MaxAttempts := 5
  const InitialDelayMs := 1000

  /** What `fetch` gives back for one attempt: a response with its status
      and body, or a rejected promise (a transport failure). */
  datatype Outcome<B> = Response(status: int, body: B) | NetworkError

  /** `response.ok`: a status in the 200-299 range. */
  predicate IsOk<B>(o: Outcome<B>) {
    o.Response? && 200 <= o.status <= 299
  }

  /** The statuses the code means to retry: 429 and 500 or above. */
  predicate IsRetryableStatus(status: int) {
    status == 429 || status >= 500
  }

  /** The value `fetchWithBackoff` resolves to, or its final throw. */
  datatype FetchResult<B> = Fetched(body: B) | GaveUp

  function Pow2(n: nat): (p: nat)
    ensures p >= 1
  {
    if n == 0 then 1 else 2 * Pow2(n - 1)
  }

  /** The waits requested after the first `n` failures. */
  function Waits(n: nat): (w: seq<nat>)
    ensures |w| == n
  {
    if n == 0 then [] else Waits(n - 1) + [InitialDelayMs * Pow2(n - 1)]
  }

  /** The loop of `fetchWithBackoff`. A non-ok status other than 429 or 5xx
      throws inside the `try`, and the `catch` beside it waits and retries,
      so every failure, whatever its status, is retried until the fifth. */
  method FetchWithBackoff<B>(network: seq<Outcome<B>>) returns (r: FetchResult<B>, attempts: nat, waits: seq<nat>)
    requires |network| >= MaxAttempts
    ensures 1 <= attempts <= MaxAttempts
    ensures forall k :: 0 <= k < attempts - 1 ==> !IsOk(network[k])
    ensures r.Fetched? <==> IsOk(network[attempts - 1])
    ensures r.Fetched? ==> r.body == network[attempts - 1].body && waits == Waits(attempts - 1)
    ensures r.GaveUp? ==> attempts == MaxAttempts && waits == Waits(MaxAttempts)
  {
    var delay := InitialDelayMs;
    waits := [];
    var i := 0;
    while i < MaxAttempts
      invariant 0 <= i <= MaxAttempts
      invariant delay == InitialDelayMs * Pow2(i)
      invariant waits == Waits(i)
      invariant forall k :: 0 <= k < i ==> !IsOk(network[k])
    {
      var response := network[i];
      if IsOk(response) {
        return Fetched(response.body), i + 1, waits;
      }
      if response.Response? && IsRetryableStatus(response.status) {
        // logged as an API error, then the wait
        waits := waits + [delay];
        delay := delay * 2;
      } else {
        // the throw for other statuses, or a rejected fetch, lands in the catch
        waits := waits + [delay];
        delay := delay * 2;
      }
      i := i + 1;
    }
    r, attempts := GaveUp, MaxAttempts;
  }

  /** Each wait is twice the one before, starting at 1000 ms. */
  lemma {:induction false} WaitsDouble(n: nat)
    ensures n > 0 ==> Waits(n)[0] == InitialDelayMs
    ensures forall k :: 0 < k < n ==> Waits(n)[k] == 2 * Waits(n)[k - 1]
  {
    if n > 0 {
      WaitsDouble(n - 1);
      assert Waits(n) == Waits(n - 1) + [InitialDelayMs * Pow2(n - 1)];
    }
  }

  /** After five failures the caller has been kept waiting 31 seconds,
      16 of them after the last attempt. */
  lemma FullSchedule()
    ensures Waits(MaxAttempts) == [1000, 2000, 4000, 8000, 16000]
  {
    assert Pow2(4) == 16 by { assert Pow2(2) == 4; }
  }

  /** Three 503 answers and then a 200: three retries with doubling waits, and the body of the 200. */
  method ServerErrorsThenSuccess() returns (r: FetchResult<string>, attempts: nat, waits: seq<nat>)
    ensures r == Fetched("answer") && attempts == 4 && waits == [1000, 2000, 4000]
  {
    var network := [Response(503, ""), Response(503, ""), Response(503, ""), Response(200, "answer"), NetworkError];
    r, attempts, waits := FetchWithBackoff(network);
    assert !IsOk(network[0]) && !IsOk(network[1]) && !IsOk(network[2]) && IsOk(network[3]);
    assert Waits(3) == [1000, 2000, 4000] by { assert Pow2(2) == 4; }
  }

  /** A 401 is not final: it is retried like a 503, five attempts in all. */
  method UnauthorisedIsRetried() returns (r: FetchResult<string>, attempts: nat, waits: seq<nat>)
    ensures r == GaveUp && attempts == MaxAttempts && waits == [1000, 2000, 4000, 8000, 16000]
  {
    var unauthorised := Response(401, "");
    r, attempts, waits := FetchWithBackoff([unauthorised, unauthorised, unauthorised, unauthorised, unauthorised]);
    FullSchedule();
  }
}
