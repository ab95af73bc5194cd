/**
 * SendHttpRequestWithExpRetry (internal/util/http.go): call, ask whether to
 * retry, run the before-retry hook, wait 2^k seconds, and give up after
 * `maxRetries + 1` calls. The three callbacks are replaced by a script: attempt
 * k says what call k returns, whether `shouldRetry` flags it, and what the
 * hook returns after it. The waits are returned as a list of delays instead of
 * being slept.
 */
module Retry {
  import opened Wrappers

  /** Call k of `sendRequest`, the verdict of `shouldRetry` on it, and the error of `beforeRetry` after it. */
  datatype Attempt<T> = Attempt(outcome: T, retry: bool, hookError: Option<string>)

  /** The pair returned to the caller: a call's own outcome, or (nil, error). */
  datatype RetryResult<T> = Returned(outcome: T) | Failed(error: string)

  const MaxRetryExceeded: string := "max retry exceeded"

  /** How many calls the loop allows: `retry` runs from 0 to `maxRetries` inclusive. */
  function Budget(maxRetries: int): nat {
    if maxRetries < 0 then 0 else maxRetries + 1
  }

  function Pow2(k: nat): (p: nat)
    ensures p >= 1
  {
    if k == 0 then 1 else 2 * Pow2(k - 1)
  }

  /** An attempt ends the loop when it is not flagged or when the hook after it fails. */
  predicate Stops<T>(a: Attempt<T>) {
    !a.retry || a.hookError.Some?
  }

  /** Index of the first of the first `n` attempts that ends the loop, or `n` when none does. */
  function FirstStop<T>(attempts: seq<Attempt<T>>, n: nat): (j: nat)
    requires n <= |attempts|
    ensures j <= n
    ensures forall k :: 0 <= k < j ==> !Stops(attempts[k])
    ensures j < n ==> Stops(attempts[j])
  {
    if n == 0 then 0
    else
      var j := FirstStop(attempts, n - 1);
      if j < n - 1 then j else if Stops(attempts[n - 1]) then n - 1 else n
  }

  /** The loop of SendHttpRequestWithExpRetry, run against a script with an entry for every call it may make. */
  method SendWithExpRetry<T>(attempts: seq<Attempt<T>>, maxRetries: int)
    returns (r: RetryResult<T>, calls: nat, delays: seq<nat>)
    requires Budget(maxRetries) <= |attempts|
    ensures var n := Budget(maxRetries); var j := FirstStop(attempts, n);
      && calls == (if j < n then j + 1 else n)
      && r == (if j == n then Failed(MaxRetryExceeded)
               else if !attempts[j].retry then Returned(attempts[j].outcome)
               else Failed(attempts[j].hookError.value))
      && |delays| == j
      && forall k :: 0 <= k < j ==> delays[k] == Pow2(k)
    ensures calls <= Budget(maxRetries)
    ensures maxRetries < 0 ==> calls == 0 && r == Failed(MaxRetryExceeded) && delays == []
    ensures r.Returned? ==>
      && 1 <= calls
      && r.outcome == attempts[calls - 1].outcome
      && !attempts[calls - 1].retry
      && forall k :: 0 <= k < calls - 1 ==> attempts[k].retry
  {
    ghost var n := Budget(maxRetries);
    calls, delays := 0, [];
    var retry := 0;
    while retry <= maxRetries
      invariant 0 <= retry <= n
      invariant calls == retry
      invariant forall k :: 0 <= k < retry ==> !Stops(attempts[k])
      invariant |delays| == retry && forall k :: 0 <= k < retry ==> delays[k] == Pow2(k)
      invariant FirstStop(attempts, n) >= retry
    {
      var attempt := attempts[retry];
      calls := calls + 1;
      if !attempt.retry {
        r := Returned(attempt.outcome);
        return;
      }
      if attempt.hookError.Some? {
        r := Failed(attempt.hookError.value);
        return;
      }
      delays := delays + [Pow2(retry)];
      retry := retry + 1;
    }
    r := Failed(MaxRetryExceeded);
  }

  function TotalDelay(delays: seq<nat>): nat {
    if |delays| == 0 then 0 else TotalDelay(delays[..|delays| - 1]) + delays[|delays| - 1]
  }

  /** After j flagged attempts the loop has waited 2^j - 1 seconds in all. */
  lemma {:induction false} TotalDelayOfDoublings(delays: seq<nat>)
    requires forall k :: 0 <= k < |delays| ==> delays[k] == Pow2(k)
    ensures TotalDelay(delays) == Pow2(|delays|) - 1
  {
    if |delays| > 0 {
      TotalDelayOfDoublings(delays[..|delays| - 1]);
    }
  }
}
