/**
 * The resilient fetcher: up to `maxRetries` GET attempts against the current
 * endpoint; the first HTTP 200 answer wins, every failed attempt rotates the
 * endpoint once, and only an exception (not a non-200 status) is followed by
 * a one-second pause. The network is an input: the outcome of each attempt.
 */
module Fetcher {
  import opened Util
  import opened Endpoints

  /** The default attempt budget, which every caller of the fetcher uses. */
  const MaxRetries: nat := 4

  /** What one GET attempt ends with: a status and a decoded JSON body, or an exception. */
  datatype Outcome<J> = Answered(status: int, body: J) | Raised

  /**
   * The outcome of attempt `k`. Past the end of the given outcomes the
   * network does not answer, which the request's timeout turns into an exception.
   */
  function OutcomeAt<J>(outcomes: seq<Outcome<J>>, k: nat): Outcome<J>
  {
    if k < |outcomes| then outcomes[k] else Raised
  }

  predicate IsOk<J>(o: Outcome<J>)
  {
    o.Answered? && o.status == 200
  }

  /** One attempt as it happened: the endpoint asked, the path requested from it, and whether a pause followed. */
  datatype Attempt = Attempt(endpoint: nat, path: string, slept: bool)

  /** The URL an attempt requested: the endpoint's base URL followed by the path. */
  function AttemptUrl(a: Attempt): (url: string)
    requires a.endpoint < |BaseUrls|
    ensures StartsWith(url, BaseUrls[a.endpoint])
    ensures url[|BaseUrls[a.endpoint]|..] == a.path
  {
    assert (BaseUrls[a.endpoint] + a.path)[..|BaseUrls[a.endpoint]|] == BaseUrls[a.endpoint];
    BaseUrls[a.endpoint] + a.path
  }

  /** The body returned (None when every attempt failed), the attempts made, and the final index. */
  datatype FetchRun<J> = FetchRun(result: Option<J>, attempts: seq<Attempt>, endIndex: nat)

  /** The attempts at `path` from number `k` on, starting at endpoint `i`. */
  function FetchFrom<J>(i: nat, path: string, outcomes: seq<Outcome<J>>, k: nat, maxRetries: nat): FetchRun<J>
    requires i < |BaseUrls|
    decreases maxRetries - k
  {
    if k >= maxRetries then FetchRun(None, [], i)
    else
      var o := OutcomeAt(outcomes, k);
      if IsOk(o) then FetchRun(Some(o.body), [Attempt(i, path, false)], i)
      else
        var rest := FetchFrom(Next(i), path, outcomes, k + 1, maxRetries);
        FetchRun(rest.result, [Attempt(i, path, o.Raised?)] + rest.attempts, rest.endIndex)
  }

  /**
   * Attempt `j` (counted from `k`) requests `path` from the endpoint
   * reached after `j` rotations, and a pause follows it exactly when it
   * raised.
   */
  lemma {:induction false} FetchAttemptLog<J>(i: nat, path: string, outcomes: seq<Outcome<J>>, k: nat, maxRetries: nat)
    requires i < |BaseUrls|
    requires k <= maxRetries
    ensures var run := FetchFrom(i, path, outcomes, k, maxRetries);
      && |run.attempts| <= maxRetries - k
      && run.endIndex < |BaseUrls|
      && forall j :: 0 <= j < |run.attempts| ==>
           && run.attempts[j] == Attempt(RotatedBy(i, j), path, OutcomeAt(outcomes, k + j).Raised?)
           && AttemptUrl(run.attempts[j]) == BaseUrls[RotatedBy(i, j)] + path
    decreases maxRetries - k
  {
    if k < maxRetries && !IsOk(OutcomeAt(outcomes, k)) {
      var rest := FetchFrom(Next(i), path, outcomes, k + 1, maxRetries);
      FetchAttemptLog(Next(i), path, outcomes, k + 1, maxRetries);
      forall j | 1 <= j < 1 + |rest.attempts|
        ensures rest.attempts[j - 1] == Attempt(RotatedBy(i, j), path, OutcomeAt(outcomes, k + j).Raised?)
      {
        RotatedByNext(i, j - 1);
      }
    }
  }

  lemma {:induction false} RotatedByNext(i: nat, k: nat)
    requires i < |BaseUrls|
    ensures RotatedBy(Next(i), k) == RotatedBy(i, k + 1)
  {
    if k > 0 {
      RotatedByNext(i, k - 1);
    }
  }

  /**
   * When attempt `j` is the first to answer 200, its body is returned at
   * once: `j - k + 1` attempts were made and the index rotated once per failure.
   */
  lemma {:induction false} FetchFirstOkWins<J>(i: nat, path: string, outcomes: seq<Outcome<J>>, k: nat, maxRetries: nat, j: nat)
    requires i < |BaseUrls|
    requires k <= j < maxRetries
    requires IsOk(OutcomeAt(outcomes, j))
    requires forall m :: k <= m < j ==> !IsOk(OutcomeAt(outcomes, m))
    ensures var run := FetchFrom(i, path, outcomes, k, maxRetries);
      && run.result == Some(OutcomeAt(outcomes, j).body)
      && |run.attempts| == j - k + 1
      && run.endIndex == RotatedBy(i, j - k)
    decreases j - k
  {
    if k < j {
      FetchFirstOkWins(Next(i), path, outcomes, k + 1, maxRetries, j);
      RotatedByNext(i, j - k - 1);
    }
  }

  /**
   * When no attempt answers 200, the fetch gives up with None after exactly
   * `maxRetries - k` attempts, each followed by one rotation.
   */
  lemma {:induction false} FetchExhausted<J>(i: nat, path: string, outcomes: seq<Outcome<J>>, k: nat, maxRetries: nat)
    requires i < |BaseUrls|
    requires k <= maxRetries
    requires forall m :: k <= m < maxRetries ==> !IsOk(OutcomeAt(outcomes, m))
    ensures var run := FetchFrom(i, path, outcomes, k, maxRetries);
      && run.result == None
      && |run.attempts| == maxRetries - k
      && run.endIndex == RotatedBy(i, maxRetries - k)
    decreases maxRetries - k
  {
    if k < maxRetries {
      FetchExhausted(Next(i), path, outcomes, k + 1, maxRetries);
      RotatedByNext(i, maxRetries - k - 1);
    }
  }

  /** A body is returned exactly when some attempt within the budget answers 200. */
  lemma {:induction false} FetchSucceedsIff<J>(i: nat, path: string, outcomes: seq<Outcome<J>>, k: nat, maxRetries: nat)
    requires i < |BaseUrls|
    ensures FetchFrom(i, path, outcomes, k, maxRetries).result.Some?
            <==> exists m :: k <= m < maxRetries && IsOk(OutcomeAt(outcomes, m))
    decreases maxRetries - k
  {
    if k < maxRetries && !IsOk(OutcomeAt(outcomes, k)) {
      FetchSucceedsIff(Next(i), path, outcomes, k + 1, maxRetries);
      if exists m :: k <= m < maxRetries && IsOk(OutcomeAt(outcomes, m)) {
        var m :| k <= m < maxRetries && IsOk(OutcomeAt(outcomes, m));
        assert k + 1 <= m;
      }
    }
  }

  /**
   * `fetch_with_retry`: requests `path` from the current endpoint up to
   * `maxRetries` times, rotating after each failure, and returns the first
   * 200 body or None.
   */
  method FetchWithRetry<J>(api: ApiRotator, path: string, outcomes: seq<Outcome<J>>, maxRetries: nat) returns (run: FetchRun<J>)
    requires api.Valid()
    modifies api
    ensures api.Valid()
    ensures run == FetchFrom(old(api.index), path, outcomes, 0, maxRetries)
    ensures api.index == run.endIndex
  {
    var attempts: seq<Attempt> := [];
    var k: nat := 0;
    while k < maxRetries
      invariant api.Valid()
      invariant k <= maxRetries
      invariant var tail := FetchFrom(api.index, path, outcomes, k, maxRetries);
        FetchFrom(old(api.index), path, outcomes, 0, maxRetries)
          == FetchRun(tail.result, attempts + tail.attempts, tail.endIndex)
    {
      var o := OutcomeAt(outcomes, k);
      if o.Answered? && o.status == 200 {
        run := FetchRun(Some(o.body), attempts + [Attempt(api.index, path, false)], api.index);
        return;
      }
      attempts := attempts + [Attempt(api.index, path, o.Raised?)];
      api.Rotate();
      k := k + 1;
    }
    run := FetchRun(None, attempts, api.index);
  }
}
