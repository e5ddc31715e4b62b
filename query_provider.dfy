/**
 * The retry policy the query client is configured with: which failures are retried,
 * and how long to wait before each retry.
 */
module QueryProvider {
  import opened Wrappers
  import opened Types
  import opened ErrorHandling
  import opened Api

  /** The `retry` callback of queries: never after three failures, otherwise as
      `shouldRetry` decides. */
  predicate Retry(failureCount: int, error: Thrown)
  {
    if failureCount >= 3 then false else ShouldRetry(error)
  }

  function Pow2(n: nat): (r: nat)
    ensures r >= 1
  {
    if n == 0 then 1 else 2 * Pow2(n - 1)
  }

  /** The `retryDelay` callback: `Math.min(1000 * 2 ** attemptIndex, 30000)` milliseconds. */
  function RetryDelay(attemptIndex: nat): int
  {
    var exponential := 1000 * Pow2(attemptIndex);
    if exponential < 30000 then exponential else 30000
  }

  lemma {:induction false} Pow2Monotone(i: nat, j: nat)
    requires i <= j
    ensures Pow2(i) <= Pow2(j)
    decreases j
  {
    if i < j {
      Pow2Monotone(i, j - 1);
    }
  }

  /** The delay starts at one second, doubles with each attempt and is capped at
      thirty seconds, which it reaches from the sixth attempt (index 5) on. */
  lemma RetryDelayShape(i: nat, j: nat)
    ensures 1000 <= RetryDelay(i) <= 30000
    ensures i <= j ==> RetryDelay(i) <= RetryDelay(j)
    ensures i >= 5 ==> RetryDelay(i) == 30000
    ensures i < 5 ==> RetryDelay(i) == 1000 * Pow2(i)
    ensures i < 4 ==> RetryDelay(i + 1) == 2 * RetryDelay(i)
  {
    if i <= j {
      Pow2Monotone(i, j);
    }
    if i >= 5 {
      Pow2Monotone(5, i);
    }
    if i < 5 {
      assert Pow2(4) == 16;
      Pow2Monotone(i, 4);
    }
    if i < 4 {
      Pow2Monotone(i + 1, 4);
    }
  }

  /** Whatever the error, a query that has failed three times is not retried. */
  lemma RetryStopsAfterThree(failureCount: int, error: Thrown)
    requires failureCount >= 3
    ensures !Retry(failureCount, error)
  {
  }

  /** For the errors `fetchCharacters` rejects with, a query is retried (before its
      third failure) exactly when the server answered with a status of 500 or more:
      timeouts, network errors and 4xx answers are never retried. */
  lemma CharactersRetryPolicy(outcome: HttpOutcome<PageResponse>, failureCount: int)
    requires PlatformFailures(outcome)
    requires FetchCharacters(outcome).Err?
    requires failureCount < 3
    ensures Retry(failureCount, Api(FetchCharacters(outcome).error))
      <==> outcome.Responded? && !IsOk(outcome.status) && outcome.status >= 500
  {
    FetchCharactersOutcomes(outcome);
  }
}
