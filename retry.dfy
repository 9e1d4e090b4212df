/**
 * The retry loops around one LLM request. The web and LangChain classifiers
 * count consecutive failed attempts on the instance and give up once the
 * count reaches 5; the direct-HTTP classifier has no counter. All sleep
 * 2^attempt seconds between attempts and re-raise after the last one.
 * The LangChain copy resets its counter as soon as the output parser
 * returns, before the one step that can still fail (`Late`), so its loop is
 * `LateCounted` rather than `Counted`.
 *
 * An attempt is a function `step` from the index of the request (how many
 * requests the instance has posted before) to its outcome, so a run is fully
 * determined by where it starts.
 */
module Retry {
  import opened Wrappers
  import opened Extraction

  /** A `time.sleep`: the back-off between attempts, or the pause between batch items. */
  datatype Pause = Backoff(seconds: nat) | RateLimit

  /** `self.MAX_API_FAILURES`. */
  const MAX_API_FAILURES := 5

  /** `Config.MAX_RETRIES` in the shipped configuration. */
  const MAX_RETRIES := 3

  function Pow2(n: nat): (r: nat)
    ensures r >= 1
  {
    if n == 0 then 1 else 2 * Pow2(n - 1)
  }

  /**
   * What one call of `_call_deepseek_api` does: its outcome, the request
   * counter and the failure counter it leaves, and the sleeps it makes.
   */
  datatype Call<T> = Call(result: Result<T, ApiError>, posts: nat, failures: nat, pauses: seq<Pause>)

  /** The counters a classifier instance keeps: requests posted so far, consecutive failures. */
  datatype ApiState = ApiState(posts: nat, failures: nat)

  /** `run` preceded by the sleeps `ps`. */
  function Delayed<T>(ps: seq<Pause>, run: Call<T>): Call<T> {
    run.(pauses := ps + run.pauses)
  }

  /**
   * The counted loop from attempt `attempt` of `m`, with `post` requests
   * already made and `failures` consecutive failures on the instance.
   */
  function Counted<T>(step: nat -> Result<T, ApiError>, post: nat, attempt: nat, m: nat, failures: nat): Call<T>
    decreases m - attempt
  {
    if attempt >= m then Call(Err(NoAttempts), post, failures, [])
    else
      match step(post)
      case Ok(v) => Call(Ok(v), post + 1, 0, [])
      case Err(e) =>
        if failures + 1 >= MAX_API_FAILURES || attempt == m - 1 then Call(Err(e), post + 1, failures + 1, [])
        else Delayed([Backoff(Pow2(attempt))], Counted(step, post + 1, attempt + 1, m, failures + 1))
  }

  /** The loop without a failure counter: every failure but the last is followed by a back-off. */
  function Plain<T>(step: nat -> Result<T, ApiError>, post: nat, attempt: nat, m: nat): Call<T>
    decreases m - attempt
  {
    if attempt >= m then Call(Err(NoAttempts), post, 0, [])
    else
      match step(post)
      case Ok(v) => Call(Ok(v), post + 1, 0, [])
      case Err(e) =>
        if attempt == m - 1 then Call(Err(e), post + 1, 0, [])
        else Delayed([Backoff(Pow2(attempt))], Plain(step, post + 1, attempt + 1, m))
  }

  /** Sleeps recorded one after the other. */
  lemma PausesAppend(a: seq<Pause>, b: seq<Pause>, c: seq<Pause>)
    ensures (a + b) + c == a + (b + c)
  {
  }

  /** Sleeps before sleeps: `Delayed` composes by concatenation. */
  lemma DelayedTwice<T>(a: seq<Pause>, b: seq<Pause>, run: Call<T>)
    ensures Delayed(a, Delayed(b, run)) == Delayed(a + b, run)
  {
    assert a + (b + run.pauses) == (a + b) + run.pauses;
  }

  /** One attempt of the counted loop that succeeds, or fails and ends the loop, decides the call. */
  lemma CountedStops<T>(step: nat -> Result<T, ApiError>, post: nat, attempt: nat, m: nat, failures: nat)
    requires attempt < m
    requires step(post).Ok? || failures + 1 >= MAX_API_FAILURES || attempt == m - 1
    ensures Counted(step, post, attempt, m, failures) ==
      Call(step(post), post + 1, if step(post).Ok? then 0 else failures + 1, [])
  {
  }

  /** Any other failed attempt backs off for 2^attempt seconds and moves on. */
  lemma CountedBacksOff<T>(step: nat -> Result<T, ApiError>, post: nat, attempt: nat, m: nat, failures: nat)
    requires attempt < m - 1 && step(post).Err? && failures + 1 < MAX_API_FAILURES
    ensures Counted(step, post, attempt, m, failures) ==
      Delayed([Backoff(Pow2(attempt))], Counted(step, post + 1, attempt + 1, m, failures + 1))
  {
  }

  // ---------------------------------------------------------------------------
  // Properties of the counted loop

  /**
   * A call makes between one and `m - attempt` requests, numbered from
   * `post` on; every request but the last failed, and the outcome is the
   * last request's: its value on success, its error otherwise.
   */
  lemma {:induction false} CountedPosts<T>(step: nat -> Result<T, ApiError>, post: nat, attempt: nat, m: nat, failures: nat)
    requires attempt < m
    ensures var r := Counted(step, post, attempt, m, failures);
      post + 1 <= r.posts <= post + (m - attempt) &&
      r.result == step(r.posts - 1) &&
      forall k :: post <= k < r.posts - 1 ==> step(k).Err?
    decreases m - attempt
  {
    var r := Counted(step, post, attempt, m, failures);
    if step(post).Err? && !(failures + 1 >= MAX_API_FAILURES || attempt == m - 1) {
      CountedPosts(step, post + 1, attempt + 1, m, failures + 1);
    }
  }

  /**
   * The failure counter: success resets it to 0, and a failed call adds one
   * per request it made. A failed call stopped either because the counter
   * reached 5 or because every attempt was used.
   */
  lemma {:induction false} CountedFailures<T>(step: nat -> Result<T, ApiError>, post: nat, attempt: nat, m: nat, failures: nat)
    requires attempt < m
    ensures var r := Counted(step, post, attempt, m, failures);
      (r.result.Ok? ==> r.failures == 0) &&
      (r.result.Err? ==>
        (r.failures == failures + (r.posts - post) &&
         (r.failures >= MAX_API_FAILURES || r.posts == post + (m - attempt))))
    decreases m - attempt
  {
    if step(post).Err? && !(failures + 1 >= MAX_API_FAILURES || attempt == m - 1) {
      CountedFailures(step, post + 1, attempt + 1, m, failures + 1);
    }
  }

  /**
   * The sleeps: one back-off between consecutive requests of the call, the
   * `i`-th lasting 2^(attempt + i) seconds.
   */
  lemma {:induction false} CountedBackoff<T>(step: nat -> Result<T, ApiError>, post: nat, attempt: nat, m: nat, failures: nat)
    requires attempt < m
    ensures var r := Counted(step, post, attempt, m, failures);
      r.posts >= post + 1 && |r.pauses| == r.posts - post - 1 &&
      forall i :: 0 <= i < |r.pauses| ==> r.pauses[i] == Backoff(Pow2(attempt + i))
    decreases m - attempt
  {
    if step(post).Err? && !(failures + 1 >= MAX_API_FAILURES || attempt == m - 1) {
      CountedBackoff(step, post + 1, attempt + 1, m, failures + 1);
      var rest := Counted(step, post + 1, attempt + 1, m, failures + 1);
      var ps := [Backoff(Pow2(attempt))] + rest.pauses;
      forall i | 0 < i < |ps|
        ensures ps[i] == Backoff(Pow2(attempt + i))
      {
        assert ps[i] == rest.pauses[i - 1];
      }
    }
  }

  /**
   * An instance that has already failed four times in a row makes a single
   * request: one more failure reaches the ceiling.
   */
  lemma CountedAtCeiling<T>(step: nat -> Result<T, ApiError>, post: nat, attempt: nat, m: nat, failures: nat)
    requires attempt < m && failures + 1 >= MAX_API_FAILURES
    ensures Counted(step, post, attempt, m, failures).posts == post + 1
    ensures Counted(step, post, attempt, m, failures).pauses == []
  {
  }

  /**
   * Far from the ceiling the counter changes nothing: the counted loop makes
   * the same requests, sleeps and outcome as the loop without it.
   */
  lemma {:induction false} CountedLikePlain<T>(step: nat -> Result<T, ApiError>, post: nat, attempt: nat, m: nat, failures: nat)
    requires failures + (m - attempt) < MAX_API_FAILURES
    ensures var c := Counted(step, post, attempt, m, failures);
      var p := Plain(step, post, attempt, m);
      c.result == p.result && c.posts == p.posts && c.pauses == p.pauses
    decreases m - attempt
  {
    if attempt < m && step(post).Err? && attempt != m - 1 {
      CountedLikePlain(step, post + 1, attempt + 1, m, failures + 1);
    }
  }

  // ---------------------------------------------------------------------------
  // The LangChain loop: a reset before the last failing step

  /**
   * A failure raised after the counter was reset: the parser returned a
   * value that is not an object, and adding the source tag to it raises.
   */
  predicate Late(e: ApiError) {
    e == NotObject
  }

  /** The counter after a failed attempt: a late failure counts from 0 again. */
  function Bumped(failures: nat, e: ApiError): nat {
    (if Late(e) then 0 else failures) + 1
  }

  /**
   * The counted loop of the LangChain classifier: as `Counted`, except that a
   * late failure leaves the counter at 1 whatever it was before.
   */
  function LateCounted<T>(step: nat -> Result<T, ApiError>, post: nat, attempt: nat, m: nat, failures: nat): Call<T>
    decreases m - attempt
  {
    if attempt >= m then Call(Err(NoAttempts), post, failures, [])
    else
      match step(post)
      case Ok(v) => Call(Ok(v), post + 1, 0, [])
      case Err(e) =>
        var f := Bumped(failures, e);
        if f >= MAX_API_FAILURES || attempt == m - 1 then Call(Err(e), post + 1, f, [])
        else Delayed([Backoff(Pow2(attempt))], LateCounted(step, post + 1, attempt + 1, m, f))
  }

  /** One attempt that succeeds, or fails and ends the loop, decides the call. */
  lemma LateStops<T>(step: nat -> Result<T, ApiError>, post: nat, attempt: nat, m: nat, failures: nat)
    requires attempt < m
    requires step(post).Ok? || Bumped(failures, step(post).error) >= MAX_API_FAILURES || attempt == m - 1
    ensures LateCounted(step, post, attempt, m, failures) ==
      Call(step(post), post + 1, if step(post).Ok? then 0 else Bumped(failures, step(post).error), [])
  {
  }

  /** Any other failed attempt backs off for 2^attempt seconds and moves on. */
  lemma LateBacksOff<T>(step: nat -> Result<T, ApiError>, post: nat, attempt: nat, m: nat, failures: nat)
    requires attempt < m - 1 && step(post).Err? && Bumped(failures, step(post).error) < MAX_API_FAILURES
    ensures LateCounted(step, post, attempt, m, failures) ==
      Delayed([Backoff(Pow2(attempt))], LateCounted(step, post + 1, attempt + 1, m, Bumped(failures, step(post).error)))
  {
  }

  /**
   * A call makes between one and `m - attempt` requests, numbered from
   * `post` on; every request but the last failed, and the outcome is the
   * last request's.
   */
  lemma {:induction false} LateCountedPosts<T>(step: nat -> Result<T, ApiError>, post: nat, attempt: nat, m: nat, failures: nat)
    requires attempt < m
    ensures var r := LateCounted(step, post, attempt, m, failures);
      post + 1 <= r.posts <= post + (m - attempt) &&
      r.result == step(r.posts - 1) &&
      forall k :: post <= k < r.posts - 1 ==> step(k).Err?
    decreases m - attempt
  {
    if step(post).Err? && !(Bumped(failures, step(post).error) >= MAX_API_FAILURES || attempt == m - 1) {
      LateCountedPosts(step, post + 1, attempt + 1, m, Bumped(failures, step(post).error));
    }
  }

  /**
   * The counter: success leaves it at 0; a failed call leaves it between 1
   * and the old count plus the requests made, at exactly 1 when the last
   * failure was late, and stopped because the counter reached 5 or because
   * every attempt was used.
   */
  lemma {:induction false} LateCountedFailures<T>(step: nat -> Result<T, ApiError>, post: nat, attempt: nat, m: nat, failures: nat)
    requires attempt < m
    ensures var r := LateCounted(step, post, attempt, m, failures);
      (r.result.Ok? ==> r.failures == 0) &&
      (r.result.Err? ==>
        (1 <= r.failures <= failures + (r.posts - post) &&
         (Late(r.result.error) ==> r.failures == 1) &&
         (r.failures >= MAX_API_FAILURES || r.posts == post + (m - attempt))))
    decreases m - attempt
  {
    if step(post).Err? && !(Bumped(failures, step(post).error) >= MAX_API_FAILURES || attempt == m - 1) {
      LateCountedFailures(step, post + 1, attempt + 1, m, Bumped(failures, step(post).error));
    }
  }

  /** The sleeps: one back-off of 2^(attempt + i) seconds between consecutive requests. */
  lemma {:induction false} LateCountedBackoff<T>(step: nat -> Result<T, ApiError>, post: nat, attempt: nat, m: nat, failures: nat)
    requires attempt < m
    ensures var r := LateCounted(step, post, attempt, m, failures);
      r.posts >= post + 1 && |r.pauses| == r.posts - post - 1 &&
      forall i :: 0 <= i < |r.pauses| ==> r.pauses[i] == Backoff(Pow2(attempt + i))
    decreases m - attempt
  {
    var f := if step(post).Err? then Bumped(failures, step(post).error) else 0;
    if step(post).Err? && !(f >= MAX_API_FAILURES || attempt == m - 1) {
      LateCountedBackoff(step, post + 1, attempt + 1, m, f);
      var rest := LateCounted(step, post + 1, attempt + 1, m, f);
      var ps := [Backoff(Pow2(attempt))] + rest.pauses;
      forall i | 0 < i < |ps|
        ensures ps[i] == Backoff(Pow2(attempt + i))
      {
        assert ps[i] == rest.pauses[i - 1];
      }
    }
  }

  /**
   * Without late failures among the requests it may make, the LangChain loop
   * is the web classifier's: same outcome, requests, counter and sleeps.
   */
  lemma {:induction false} LateLikeCounted<T>(step: nat -> Result<T, ApiError>, post: nat, attempt: nat, m: nat, failures: nat)
    requires forall k :: post <= k < post + (m - attempt) ==> step(k) != Err(NotObject)
    ensures LateCounted(step, post, attempt, m, failures) == Counted(step, post, attempt, m, failures)
    decreases m - attempt
  {
    if attempt < m {
      assert step(post) != Err(NotObject);
      if step(post).Err? && !(failures + 1 >= MAX_API_FAILURES || attempt == m - 1) {
        LateLikeCounted(step, post + 1, attempt + 1, m, failures + 1);
      }
    }
  }

  /**
   * Where the two loops part: at four failures, a reply that parses to a
   * non-object and then a good reply. The web loop gives up on the first with
   * the counter at 5; the LangChain loop, its counter back at 1, sleeps one
   * back-off and returns the second.
   */
  lemma LateRetriesAfterNonObject<T>(step: nat -> Result<T, ApiError>, post: nat, attempt: nat, m: nat)
    requires attempt < m - 1
    requires step(post) == Err(NotObject) && step(post + 1).Ok?
    ensures Counted(step, post, attempt, m, MAX_API_FAILURES - 1) == Call(Err(NotObject), post + 1, MAX_API_FAILURES, [])
    ensures LateCounted(step, post, attempt, m, MAX_API_FAILURES - 1) ==
      Call(step(post + 1), post + 2, 0, [Backoff(Pow2(attempt))])
  {
    LateBacksOff(step, post, attempt, m, MAX_API_FAILURES - 1);
    LateStops(step, post + 1, attempt + 1, m, 1);
  }

  /** One attempt of the loop without counter that succeeds, or is the last, decides the call. */
  lemma PlainStops<T>(step: nat -> Result<T, ApiError>, post: nat, attempt: nat, m: nat)
    requires attempt < m
    requires step(post).Ok? || attempt == m - 1
    ensures Plain(step, post, attempt, m) == Call(step(post), post + 1, 0, [])
  {
  }

  /** Any other failed attempt backs off for 2^attempt seconds and moves on. */
  lemma PlainBacksOff<T>(step: nat -> Result<T, ApiError>, post: nat, attempt: nat, m: nat)
    requires attempt < m - 1 && step(post).Err?
    ensures Plain(step, post, attempt, m) == Delayed([Backoff(Pow2(attempt))], Plain(step, post + 1, attempt + 1, m))
  {
  }

  // ---------------------------------------------------------------------------
  // Properties of the loop without counter

  /**
   * Without a counter a call stops only on success or after all `m - attempt`
   * requests, with one back-off of 2^(attempt + i) seconds between requests.
   */
  lemma {:induction false} PlainExhausts<T>(step: nat -> Result<T, ApiError>, post: nat, attempt: nat, m: nat)
    requires attempt < m
    ensures var r := Plain(step, post, attempt, m);
      post + 1 <= r.posts <= post + (m - attempt) &&
      r.result == step(r.posts - 1) &&
      (forall k :: post <= k < r.posts - 1 ==> step(k).Err?) &&
      (r.result.Err? ==> r.posts == post + (m - attempt)) &&
      |r.pauses| == r.posts - post - 1 &&
      forall i :: 0 <= i < |r.pauses| ==> r.pauses[i] == Backoff(Pow2(attempt + i))
    decreases m - attempt
  {
    if step(post).Err? && attempt != m - 1 {
      PlainExhausts(step, post + 1, attempt + 1, m);
      var rest := Plain(step, post + 1, attempt + 1, m);
      var ps := [Backoff(Pow2(attempt))] + rest.pauses;
      forall i | 0 < i < |ps|
        ensures ps[i] == Backoff(Pow2(attempt + i))
      {
        assert ps[i] == rest.pauses[i - 1];
      }
    }
  }
}
