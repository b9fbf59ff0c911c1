/** Retrying one model call and failing over between profiles (model/qqbot/llm_retry.go). */
module LLMRetry {
  import opened Wrappers

  // ----- The time for one attempt

  function RetryBudget(timeout: int, maxRetries: nat, delay: int): int {
    (maxRetries + 1) * timeout + if maxRetries > 0 then maxRetries * delay else 0
  }

  /** The timeout of an attempt; `remaining` is the time to the caller's deadline, if any. */
  function AttemptTimeout(configured: int, remaining: Option<int>, maxRetries: nat, delay: int): int {
    if configured <= 0 then 0
    else if remaining.None? then configured
    else if remaining.value <= 0 then 1
    else if RetryBudget(configured, maxRetries, delay) <= remaining.value then configured
    else
      var available := remaining.value - maxRetries * delay;
      if available <= 0 then remaining.value
      else
        var bounded := available / (maxRetries + 1);
        if bounded <= 0 then 1 else if bounded < configured then bounded else configured
  }

  /** All attempts and delays fit before the deadline exactly when there is room for the
      delays and one nanosecond per attempt; the timeout is then at most the configured. */
  lemma AttemptsFit(configured: int, remaining: int, maxRetries: nat, delay: int)
    requires configured > 0 && delay >= 0
    ensures var t := AttemptTimeout(configured, Some(remaining), maxRetries, delay);
            && t >= 1
            && ((maxRetries + 1) * t + maxRetries * delay <= remaining
                <==> remaining >= maxRetries * delay + maxRetries + 1)
            && (remaining >= maxRetries * delay + maxRetries + 1 ==> t <= configured)
  {
    var n, d := maxRetries + 1, maxRetries * delay;
    var t := AttemptTimeout(configured, Some(remaining), maxRetries, delay);
    Product(maxRetries, delay);
    if remaining > 0 && RetryBudget(configured, maxRetries, delay) > remaining && remaining - d > 0 {
      var bounded := (remaining - d) / n;
      Quotient(remaining - d, n);
      if remaining - d >= n {
        Scale(t, bounded, n);
      }
    }
    Scale(1, t, n);
  }

  /** When the delays alone outlast the deadline, an attempt gets all the time that is left, and so
      more than the configured timeout exactly when that is more. */
  lemma TimeoutExceedsConfigured(configured: int, remaining: int, maxRetries: nat, delay: int)
    requires configured > 0 && delay >= 0
    ensures var t := AttemptTimeout(configured, Some(remaining), maxRetries, delay);
            && (t > configured <==> configured < remaining <= maxRetries * delay)
            && (t > configured ==> t == remaining)
  {
    Product(maxRetries, delay);
    Product(maxRetries + 1, configured);
    Scale(1, maxRetries + 1, configured);
  }

  /** The timeout is as long as it may be: the configured one without a deadline or with room for
      it; else one nanosecond more per attempt would not fit, as long as anything fits. */
  lemma AttemptIsLongest(configured: int, remaining: int, maxRetries: nat, delay: int)
    requires configured > 0 && delay >= 0
    ensures var t, n := AttemptTimeout(configured, Some(remaining), maxRetries, delay), maxRetries + 1;
            && AttemptTimeout(configured, None, maxRetries, delay) == configured
            && AttemptTimeout(0, Some(remaining), maxRetries, delay) == 0
            && (n * configured + maxRetries * delay <= remaining ==> t == configured)
            && (remaining >= maxRetries * delay + n && t < configured ==> n * (t + 1) + maxRetries * delay > remaining)
  {
    var n, d := maxRetries + 1, maxRetries * delay;
    Product(maxRetries, delay);
    Scale(1, configured, n);
    if remaining - d >= n {
      Quotient(remaining - d, n);
      NextIsTooLong(remaining - d, n);
    }
  }

  lemma NextIsTooLong(a: int, n: int)
    requires a > 0 && n > 0
    ensures n * (a / n + 1) > a
  {
    assert a == a / n * n + a % n;
  }

  lemma Product(a: nat, b: int)
    requires b >= 0
    ensures a * b >= 0
  {
  }

  lemma Quotient(a: int, n: int)
    requires a > 0 && n > 0
    ensures a / n * n <= a && (a >= n ==> a / n >= 1) && a / n >= 0
  {
  }

  lemma Scale(a: int, b: int, n: int)
    requires a <= b && n > 0
    ensures n * a <= n * b
  {
  }

  // ----- Retrying one profile

  datatype Error = Error(transient: bool, timedOutEarly: bool)

  /** How one attempt ends, and whether the caller's context is over after it or during the
      delay that follows. */
  datatype Attempt = Attempt(error: Option<Error>, overAfter: bool, overInDelay: bool)

  datatype Result = Success | Failure(error: Error) | ContextOver

  datatype Retried = Retried(result: Result, attempts: nat)

  /** The error is worth another attempt with the same profile. */
  predicate Retryable(e: Error) { e.transient && !e.timedOutEarly }

  function Retry(enabled: bool, maxRetries: nat, delay: int, script: nat -> Attempt, attempt: nat): Retried
    decreases maxRetries - attempt
  {
    var a := script(attempt);
    if a.error.None? then Retried(Success, attempt + 1)
    else if !enabled || !Retryable(a.error.value) || attempt >= maxRetries then
      Retried(Failure(a.error.value), attempt + 1)
    else if a.overAfter || (delay > 0 && a.overInDelay) then Retried(ContextOver, attempt + 1)
    else Retry(enabled, maxRetries, delay, script, attempt + 1)
  }

  method GenerateWithRetry(enabled: bool, configuredRetries: int, delay: int, script: nat -> Attempt)
      returns (r: Retried)
    ensures r == Retry(enabled, RetriesAllowed(enabled, configuredRetries), delay, script, 0)
  {
    var maxRetries := configuredRetries;
    if !enabled {
      maxRetries := 0;
    }
    if maxRetries < 0 {
      maxRetries := 0;
    }
    var attempt := 0;
    while true
      invariant 0 <= attempt <= maxRetries
      invariant Retry(enabled, maxRetries, delay, script, attempt) == Retry(enabled, maxRetries, delay, script, 0)
      decreases maxRetries - attempt
    {
      var a := script(attempt);
      if a.error.None? {
        return Retried(Success, attempt + 1);
      }
      if !enabled || !a.error.value.transient || a.error.value.timedOutEarly || attempt >= maxRetries {
        return Retried(Failure(a.error.value), attempt + 1);
      }
      if a.overAfter || (delay > 0 && a.overInDelay) {
        return Retried(ContextOver, attempt + 1);
      }
      attempt := attempt + 1;
    }
  }

  function RetriesAllowed(enabled: bool, configured: int): nat {
    if !enabled || configured < 0 then 0 else configured
  }

  /** At most one attempt more than retries are allowed; every attempt but the last failed
      with a retryable error; and the result is the last attempt's, unless the context
      ended. */
  lemma {:induction false} RetryMeaning(enabled: bool, maxRetries: nat, delay: int, script: nat -> Attempt,
      attempt: nat)
    requires attempt <= maxRetries
    ensures var r := Retry(enabled, maxRetries, delay, script, attempt);
            && attempt < r.attempts <= maxRetries + 1
            && (forall k :: attempt <= k < r.attempts - 1 ==>
                              script(k).error.Some? && Retryable(script(k).error.value) && !script(k).overAfter)
            && (r.result.Success? <==> script(r.attempts - 1).error.None?)
            && (r.result.Failure? ==> script(r.attempts - 1).error == Some(r.result.error))
            && (r.result.ContextOver? ==>
                  script(r.attempts - 1).overAfter || (delay > 0 && script(r.attempts - 1).overInDelay))
            && (r.result.Failure? && enabled && r.attempts <= maxRetries ==> !Retryable(r.result.error))
    decreases maxRetries - attempt
  {
    var a := script(attempt);
    if a.error.Some? && enabled && Retryable(a.error.value) && attempt < maxRetries
       && !a.overAfter && !(delay > 0 && a.overInDelay) {
      RetryMeaning(enabled, maxRetries, delay, script, attempt + 1);
    }
  }

  /** While all fails retryably and the context lasts, every attempt that is allowed is made: the
      first one and the configured retries, or only the first if retries are disabled. */
  lemma AllAttemptsAreMade(enabled: bool, configured: int, delay: int, script: nat -> Attempt)
    requires forall k: nat :: script(k).error.Some? && Retryable(script(k).error.value)
                              && !script(k).overAfter && !script(k).overInDelay
    ensures Retry(enabled, RetriesAllowed(enabled, configured), delay, script, 0).attempts
         == if enabled && configured > 0 then configured + 1 else 1
  {
    AttemptsFrom(enabled, RetriesAllowed(enabled, configured), delay, script, 0);
  }

  lemma {:induction false} AttemptsFrom(enabled: bool, maxRetries: nat, delay: int, script: nat -> Attempt,
      attempt: nat)
    requires attempt <= maxRetries && (!enabled ==> maxRetries == 0)
    requires forall k: nat :: script(k).error.Some? && Retryable(script(k).error.value)
                              && !script(k).overAfter && !script(k).overInDelay
    ensures Retry(enabled, maxRetries, delay, script, attempt).attempts == maxRetries + 1
    decreases maxRetries - attempt
  {
    if enabled && attempt < maxRetries {
      AttemptsFrom(enabled, maxRetries, delay, script, attempt + 1);
    }
  }
}
