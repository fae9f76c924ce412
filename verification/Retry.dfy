/** `_request_json_private_with_retry`: bounded attempts with exponential backoff. */
module Retry {
  import opened Wrappers
  import opened Errors

  datatype Response<+D> = Data(value: D) | Failed(error: NormalizedError)

  predicate Retried<D>(r: Response<D>) {
    r.Failed? && r.error.category in {RateLimit, Network}
  }

  function Pow2(n: nat): (p: nat)
    ensures p >= 1
  {
    if n == 0 then 1 else 2 * Pow2(n - 1)
  }

  // What is slept between so many requests.
  function TotalWait(baseDelay: real, calls: nat): real
    requires calls >= 1
  {
    baseDelay * (Pow2(calls - 1) - 1) as real
  }

  // One request more waits twice as long as all before, and the base once more: the waits
  // themselves double, from the base on.
  lemma WaitsDouble(baseDelay: real, calls: nat)
    requires calls >= 1
    ensures TotalWait(baseDelay, 1) == 0.0 && TotalWait(baseDelay, 2) == baseDelay
    ensures TotalWait(baseDelay, calls + 1) == 2.0 * TotalWait(baseDelay, calls) + baseDelay
  {
    assert Pow2(calls) == 2 * Pow2(calls - 1);
    assert Pow2(1) == 2;
  }

  // The loop's stopping rule, said of the number of requests made.
  ghost predicate StopsAfter<D>(maxAttempts: int, respond: nat -> Response<D>, calls: nat) {
    && 1 <= calls <= (if maxAttempts > 1 then maxAttempts else 1)
    && (forall i | 0 <= i < calls - 1 :: Retried(respond(i)))
    && (calls < maxAttempts ==> !Retried(respond(calls - 1)))
  }

  // `respond(i)` is whatever request i comes back with. The result is the first response that
  // is not retried, or the last one allowed; all requests before it were retried, so no
  // shorter run of requests would do, and the waits double.
  method RequestWithRetry<D>(maxAttempts: int, baseDelaySeconds: real, respond: nat -> Response<D>)
    returns (result: Response<D>, calls: nat, slept: real)
    ensures StopsAfter(maxAttempts, respond, calls)
    ensures result == respond(calls - 1)
    ensures slept == TotalWait(if baseDelaySeconds > 0.0 then baseDelaySeconds else 0.0, calls)
  {
    var attempts := if maxAttempts > 1 then maxAttempts else 1;
    var baseDelay := if baseDelaySeconds > 0.0 then baseDelaySeconds else 0.0;
    slept := 0.0;
    for attempt := 0 to attempts
      invariant attempt < attempts
      invariant forall i | 0 <= i < attempt :: Retried(respond(i))
      invariant slept == baseDelay * (Pow2(attempt) - 1) as real
    {
      result, calls := respond(attempt), attempt + 1;
      if !result.Failed? {
        return;
      }
      if result.error.category !in {RateLimit, Network} {
        return;
      }
      if attempt >= attempts - 1 {
        return;
      }
      if baseDelay > 0.0 {
        slept := slept + baseDelay * Pow2(attempt) as real;
      }
    }
    // The source's own "private_retry_exhausted" result is never returned.
    assert false;
  }

  // The contract leaves one number of requests, hence one result and one total wait.
  lemma RetryDetermined<D>(maxAttempts: int, respond: nat -> Response<D>, calls: nat, calls': nat)
    requires StopsAfter(maxAttempts, respond, calls) && StopsAfter(maxAttempts, respond, calls')
    ensures calls == calls'
  {
    var last, last' := Retried(respond(calls - 1)), Retried(respond(calls' - 1));
    if calls != calls' {
      assert false;
    }
  }

  // The loop does not follow the error's own `retryable` flag: an error of category Exchange
  // (any 5xx answer among them) is marked retryable and still ends the loop. On normalised
  // errors that is the only difference.
  lemma RetriedVersusRetryable(sourceCode: Option<string>, message: string)
    ensures var e := NormalizeError(sourceCode, message);
            Retried<()>(Failed(e)) <==> e.retryable && e.category != Exchange
  {
  }

  lemma HttpStatusRetried(status: int, message: string)
    ensures Retried<()>(Failed(NormalizeHttpError(status, message))) <==> status == 429
    ensures status >= 500 ==> NormalizeHttpError(status, message).retryable
  {
    HttpCategories(status, message);
  }
}
