/** fetchWithRetry: a fetch repeated up to maxRetries times with a
    doubling pause between attempts. The network is an input: `env(i)` is
    what the i-th fetch (counting from 0) yields, and the pauses are
    recorded rather than slept. */
module NetworkUtils {
  import opened Common

  /** The body of a response as response.json() sees it. */
  datatype Body = Json(error: string) | NotJson(parseError: string)

  /** What one fetch yields: a response, or the rejection of fetch itself. */
  datatype FetchResult =
    | Answered(ok: bool, status: int, body: Body)
    | NetworkFailure(message: string)

  /** The error an attempt fails with: a message, or the fallback message
      '请求失败: ' followed by the HTTP status. */
  datatype Failure = ErrorText(text: string) | StatusFailed(status: int)

  /** The end of fetchWithRetry: the response it resolves to, or the error
      it throws (undefined when no attempt was made), together with the
      number of fetches made and the pauses taken, in order. */
  datatype Outcome =
    | Returned(response: FetchResult, attempts: nat, waits: seq<int>)
    | Threw(error: Option<Failure>, attempts: nat, waits: seq<int>)

  predicate Succeeds(res: FetchResult) {
    res.Answered? && res.ok
  }

  /** The error a failed attempt is caught with: the network error; for a
      non-ok response, the body's `error` field when it is set, else the
      status message; a body that is not JSON rejects with its parse
      error. */
  function FailureOf(res: FetchResult): (f: Failure)
    requires !Succeeds(res)
    ensures res.NetworkFailure? ==> f == ErrorText(res.message)
    ensures res.Answered? && res.body.Json? && res.body.error != "" ==> f == ErrorText(res.body.error)
    ensures res.Answered? && res.body.Json? && res.body.error == "" ==> f == StatusFailed(res.status)
    ensures res.Answered? && res.body.NotJson? ==> f == ErrorText(res.body.parseError)
    ensures f.StatusFailed? <==> (res.Answered? && res.body.Json? && res.body.error == "")
  {
    match res
    case NetworkFailure(m) => ErrorText(m)
    case Answered(_, status, body) =>
      match body
      case NotJson(e) => ErrorText(e)
      case Json(e) => if e != "" then ErrorText(e) else StatusFailed(status)
  }

  function Pow2(k: nat): (p: nat)
    ensures p >= 1
  {
    if k == 0 then 1 else 2 * Pow2(k - 1)
  }

  /** The pause before attempt k + 1: the initial delay doubled k times. */
  function Backoff(d: int, k: nat): int {
    d * Pow2(k)
  }

  /** The first n pauses of the schedule. */
  function Delays(d: int, n: nat): (w: seq<int>)
    ensures |w| == n
  {
    if n == 0 then [] else Delays(d, n - 1) + [Backoff(d, n - 1)]
  }

  /** The schedule starts at d and every pause doubles the one before. */
  lemma {:induction false} DelaysDouble(d: int, n: nat)
    ensures n > 0 ==> Delays(d, n)[0] == d
    ensures forall k | 0 <= k < n - 1 :: Delays(d, n)[k + 1] == 2 * Delays(d, n)[k]
  {
    if n > 0 {
      DelaysDouble(d, n - 1);
      var w := Delays(d, n);
      assert w[..n - 1] == Delays(d, n - 1);
      forall k | 0 <= k < n - 1
        ensures w[k + 1] == 2 * w[k]
      {
        if k + 1 == n - 1 {
          assert w[k] == Backoff(d, k) by {
            if k > 0 { assert w[k] == Delays(d, n - 1)[k]; }
          }
        } else {
          assert w[k] == Delays(d, n - 1)[k];
          assert w[k + 1] == Delays(d, n - 1)[k + 1];
        }
      }
    }
  }

  /** The first attempt below n that succeeds, if any. */
  function FirstSuccess(env: nat -> FetchResult, n: nat): (r: Option<nat>)
    ensures r.None? <==> forall j | 0 <= j < n :: !Succeeds(env(j))
    ensures r.Some? ==> (r.value < n && Succeeds(env(r.value))
      && forall j | 0 <= j < r.value :: !Succeeds(env(j)))
  {
    if n == 0 then None
    else match FirstSuccess(env, n - 1)
      case Some(i) => Some(i)
      case None => if Succeeds(env(n - 1)) then Some(n - 1) else None
  }

  /** What fetchWithRetry does, stated declaratively: the first successful
      attempt A below maxRetries is returned after A pauses; when there is
      none, the error of the last attempt is thrown after maxRetries
      attempts and one pause fewer. */
  function FetchOutcome(env: nat -> FetchResult, maxRetries: int, d: int): Outcome {
    if maxRetries <= 0 then Threw(None, 0, [])
    else match FirstSuccess(env, maxRetries)
      case Some(a) => Returned(env(a), a + 1, Delays(d, a))
      case None => Threw(Some(FailureOf(env(maxRetries - 1))), maxRetries, Delays(d, maxRetries - 1))
  }

  /** Attempts never exceed maxRetries, and no pause follows the last
      attempt. */
  lemma AttemptBounds(env: nat -> FetchResult, maxRetries: int, d: int)
    ensures var o := FetchOutcome(env, maxRetries, d);
      o.attempts <= (if maxRetries <= 0 then 0 else maxRetries)
      && |o.waits| == (if o.attempts == 0 then 0 else o.attempts - 1)
  {
  }

  /** The response is returned iff some attempt below maxRetries succeeds,
      and it is the first one: every earlier attempt failed and no later
      fetch is made. */
  lemma ReturnsFirstSuccess(env: nat -> FetchResult, maxRetries: int, d: int)
    ensures FetchOutcome(env, maxRetries, d).Returned?
      <==> exists i | 0 <= i < maxRetries :: Succeeds(env(i))
    ensures var o := FetchOutcome(env, maxRetries, d);
      o.Returned? ==> (o.attempts >= 1 && o.response == env(o.attempts - 1)
        && Succeeds(o.response) && forall j | 0 <= j < o.attempts - 1 :: !Succeeds(env(j)))
  {
    if maxRetries > 0 && FirstSuccess(env, maxRetries).Some? {
      var a := FirstSuccess(env, maxRetries).value;
      assert Succeeds(env(a));
    }
  }

  /** When every attempt fails the last one's error is thrown; with
      maxRetries <= 0 nothing is fetched and undefined is thrown. */
  lemma ThrowsLastError(env: nat -> FetchResult, maxRetries: int, d: int)
    requires forall j | 0 <= j < maxRetries :: !Succeeds(env(j))
    ensures maxRetries <= 0 ==> FetchOutcome(env, maxRetries, d) == Threw(None, 0, [])
    ensures maxRetries > 0 ==> (FetchOutcome(env, maxRetries, d)
      == Threw(Some(FailureOf(env(maxRetries - 1))), maxRetries, Delays(d, maxRetries - 1)))
  {
  }

  /** The defaults of fetchWithRetry's last two parameters. */
  const DEFAULT_MAX_RETRIES: int := 3
  const DEFAULT_RETRY_DELAY: int := 1000

  /** With the defaults, a fetch that keeps failing is made three times,
      with pauses of 1000 and then 2000 milliseconds, and the third
      attempt's error is thrown. */
  lemma DefaultSchedule(env: nat -> FetchResult)
    requires forall j | 0 <= j < DEFAULT_MAX_RETRIES :: !Succeeds(env(j))
    ensures FetchOutcome(env, DEFAULT_MAX_RETRIES, DEFAULT_RETRY_DELAY)
      == Threw(Some(FailureOf(env(2))), 3, [1000, 2000])
  {
    ThrowsLastError(env, DEFAULT_MAX_RETRIES, DEFAULT_RETRY_DELAY);
    assert Delays(1000, 2) == [1000, 2000] by {
      assert Delays(1000, 1) == [1000];
    }
  }

  /** The retry loop of fetchWithRetry. An attempt whose response is not ok
      is turned into a failure exactly as a thrown Error would be caught;
      after a failure that is not the last attempt the current delay is
      recorded as a pause, then doubled. */
  method FetchWithRetry(env: nat -> FetchResult, maxRetries: int, retryDelay: int)
    returns (r: Outcome)
    ensures r == FetchOutcome(env, maxRetries, retryDelay)
  {
    var lastError: Option<Failure> := None;
    var delay := retryDelay;
    var waits: seq<int> := [];
    var i := 0;
    while i < maxRetries
      invariant 0 <= i && (i <= maxRetries || i == 0)
      invariant FirstSuccess(env, i).None?
      invariant i == 0 ==> lastError.None? && waits == []
      invariant i > 0 ==> lastError == Some(FailureOf(env(i - 1)))
      invariant i < maxRetries ==> waits == Delays(retryDelay, i) && delay == Backoff(retryDelay, i)
      invariant i == maxRetries && i > 0 ==> waits == Delays(retryDelay, i - 1)
    {
      var response := env(i);
      if Succeeds(response) {
        assert FirstSuccess(env, i + 1) == Some(i);
        return Returned(response, i + 1, waits);
      }
      lastError := Some(FailureOf(response));
      if i < maxRetries - 1 {
        waits := waits + [delay];
        delay := delay * 2;
        assert Backoff(retryDelay, i + 1) == 2 * Backoff(retryDelay, i);
      }
      i := i + 1;
    }
    if maxRetries > 0 {
      assert i == maxRetries && FirstSuccess(env, maxRetries).None?;
    }
    return Threw(lastError, i, waits);
  }
}
