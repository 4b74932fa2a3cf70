/**
 * The download with retries (`download_nse_data`). Each attempt's network
 * outcome is an input; the sleeps the loop asks for are recorded, not slept.
 */
module Fetch {
  import opened Wrappers
  import opened JsonValue

  /** `download_nse_data`'s defaults. */
  const DefaultMaxRetries: nat := 3
  const DefaultRetryDelay: nat := 5

  /**
   * What one attempt's requests end in: a caught error (a transport error, a
   * non-2xx status, a body that is not JSON), or the decoded body.
   */
  datatype AttemptResult = NetErr | Payload(body: Json)

  /** The shape check of the decoded body: an object whose `data` is a non-empty list. */
  predicate IsValidSnapshot(j: Json)
    // a dict whose `data` is a list, and a truthy one (`if not data['data']` raises otherwise)
    ensures IsValidSnapshot(j) <==> j.JObj? && "data" in j.fields && j.fields["data"].JList? && Truthy(j.fields["data"])
  {
    && j.JObj?
    && "data" in j.fields
    && j.fields["data"].JList?
    && j.fields["data"].items != []
  }

  /** An attempt that returns from the loop. */
  predicate Accepted(a: AttemptResult)
    // a caught error never returns; a returned body is always truthy
    ensures a.NetErr? ==> !Accepted(a)
    ensures Accepted(a) ==> Truthy(a.body)
  {
    a.Payload? && IsValidSnapshot(a.body)
  }

  function Pow2(k: nat): (p: nat)
    ensures p >= 1
  {
    if k == 0 then 1 else 2 * Pow2(k - 1)
  }

  /** The first n backoff delays: `retry_delay * 2 ** attempt` for attempt 0 .. n-1. */
  function Backoff(retryDelay: nat, n: nat): (r: seq<nat>)
    ensures |r| == n
    // the first delay is `retry_delay`, and each one doubles the one before
    ensures n > 0 ==> r[0] == retryDelay
    ensures forall k :: 0 < k < n ==> r[k] == 2 * r[k - 1]
    // the schedule does not depend on how many delays are taken
    ensures forall m :: 0 <= m <= n ==> Backoff(retryDelay, m) == r[..m]
  {
    seq(n, k requires 0 <= k => retryDelay * Pow2(k))
  }

  function Sum(s: seq<nat>): nat
  {
    if s == [] then 0 else Sum(s[..|s| - 1]) + s[|s| - 1]
  }

  /**
   * Runs up to maxRetries attempts, taking attempts[k] as attempt k's outcome.
   * Returns the payload it accepted, how many attempts it made, and the
   * delays it slept between attempts, in order.
   */
  method DownloadSnapshot(attempts: seq<AttemptResult>, maxRetries: nat, retryDelay: nat)
    returns (result: Option<Json>, made: nat, sleeps: seq<nat>)
    requires maxRetries <= |attempts|
    ensures made <= maxRetries
    // every attempt before the last one made was rejected
    ensures forall k :: 0 <= k < made - 1 ==> !Accepted(attempts[k])
    // success: the first accepted payload, unchanged, and no attempt after it
    ensures result.Some? ==> made == FirstAccepted(attempts, maxRetries) + 1
    ensures result.Some? ==> attempts[made - 1] == Payload(result.value) && IsValidSnapshot(result.value)
    // failure: all maxRetries attempts were made, and it happens only when all are rejected
    ensures result.None? ==> made == maxRetries
    ensures result.None? <==> forall k :: 0 <= k < maxRetries ==> !Accepted(attempts[k])
    // one backoff sleep after each failed attempt except the last one allowed
    ensures sleeps == Backoff(retryDelay, if made == 0 then 0 else made - 1)
  {
    var attempt: nat := 0;
    sleeps := [];
    while attempt < maxRetries
      invariant attempt <= maxRetries
      invariant forall k :: 0 <= k < attempt ==> !Accepted(attempts[k])
      invariant sleeps == Backoff(retryDelay, if attempt == maxRetries && attempt > 0 then attempt - 1 else attempt)
    {
      var outcome := attempts[attempt];
      if Accepted(outcome) {
        FirstAcceptedIsFirst(attempts, maxRetries, attempt);
        return Some(outcome.body), attempt + 1, sleeps;
      }
      if attempt < maxRetries - 1 {
        sleeps := sleeps + [retryDelay * Pow2(attempt)];
      }
      attempt := attempt + 1;
    }
    return None, attempt, sleeps;
  }

  /** Index of the first accepted attempt among the first n (n if there is none). */
  function FirstAccepted(attempts: seq<AttemptResult>, n: nat): (k: nat)
    requires n <= |attempts|
    ensures k <= n
    ensures forall j :: 0 <= j < k ==> !Accepted(attempts[j])
    ensures k < n ==> Accepted(attempts[k])
  {
    if n == 0 then 0
    else
      var k := FirstAccepted(attempts, n - 1);
      if k < n - 1 then k
      else if Accepted(attempts[n - 1]) then n - 1
      else n
  }

  lemma {:induction false} FirstAcceptedIsFirst(attempts: seq<AttemptResult>, n: nat, k: nat)
    requires n <= |attempts| && k < n
    requires Accepted(attempts[k])
    requires forall j :: 0 <= j < k ==> !Accepted(attempts[j])
    ensures FirstAccepted(attempts, n) == k
  {
  }

  /** The total time slept in backoff over n failed attempts is retryDelay * (2^n - 1). */
  lemma {:induction false} BackoffTotal(retryDelay: nat, n: nat)
    ensures Sum(Backoff(retryDelay, n)) == retryDelay * (Pow2(n) - 1)
  {
    if n > 0 {
      var s := Backoff(retryDelay, n);
      assert s[..n - 1] == Backoff(retryDelay, n - 1);
      BackoffTotal(retryDelay, n - 1);
    }
  }

  /** With the defaults, a run of failures sleeps 5 s then 10 s and never a third time. */
  lemma DefaultSchedule()
    ensures Backoff(DefaultRetryDelay, DefaultMaxRetries - 1) == [5, 10]
    ensures Sum(Backoff(DefaultRetryDelay, DefaultMaxRetries - 1)) == 15
  {
    BackoffTotal(DefaultRetryDelay, DefaultMaxRetries - 1);
  }

  /** An accepted payload is truthy, so main's `if data:` sees it as a download. */
  lemma ValidSnapshotIsTruthy(j: Json)
    requires IsValidSnapshot(j)
    ensures Truthy(j)
  {
  }

  /**
   * A network error, then a body that fails the shape check, then a valid
   * body: the third payload comes back after sleeps of 5 s and 10 s.
   */
  method RecoverOnThirdAttempt(p: Json) returns (result: Option<Json>, made: nat, sleeps: seq<nat>)
    requires IsValidSnapshot(p)
    ensures result == Some(p) && made == 3 && sleeps == [5, 10]
  {
    var attempts := [NetErr, Payload(JObj(map["data" := JList([])])), Payload(p)];
    result, made, sleeps := DownloadSnapshot(attempts, DefaultMaxRetries, DefaultRetryDelay);
    assert Accepted(attempts[2]);
    DefaultSchedule();
  }
}
