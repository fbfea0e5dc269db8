/**
 The retry loop of pkg/httpclient/client.go. What each attempt meets, whether a wait is cut
 short, and the random jitter are given by an environment; durations are nanoseconds in an
 int64. A Retry-After header is modelled as its delay in seconds, if it is one (section
 10.2.3 of RFC 9110).
 */
module Retry {
  import opened GoStrings
  import opened Quota

  const MILLI := 1_000_000
  const SECOND := 1_000_000_000

  datatype Meeting =
    | BuildError
    | NetworkError(contextDone: bool)
    | ReadError
    | Answer(status: int, retryAfter: Option<int>)

  // wakes(n): the wait before attempt n ends by itself; outlasts(n): so does the Retry-After wait of attempt n.
  datatype Env = Env(meets: nat -> Meeting, wakes: nat -> bool, outlasts: nat -> bool, jitter: (nat, int) -> int)
  {
    // A draw below a positive bound is below it and not negative.
    ghost predicate Fair() {
      forall n, bound :: bound > 0 ==> 0 <= jitter(n, bound) < bound
    }
  }

  datatype Result =
    | Response(attempt: nat, status: int)
    | Cancelled
    | Timeout
    | BuildFailed
    | ReadFailed
    | Exhausted
    // rand.Int64N panics when its bound is not positive.
    | Panicked

  predicate ShouldRetry(status: int) {
    status == 429 || status == 502 || status == 503 || status == 504
  }

  function Pow2(n: nat): nat {
    if n == 0 then 1 else 2 * Pow2(n - 1)
  }

  // 1 << n in an int64.
  function Shift(n: nat): int {
    if n >= 64 then 0 else Wrap64(Pow2(n))
  }

  // The wait before attempt n, without jitter.
  function Base(n: nat): int
    requires n > 0
  {
    var base := Wrap64(Shift(n - 1) * 500 * MILLI);
    if base > 30 * SECOND then 30 * SECOND else base
  }

  // Go's division truncates.
  function Half(x: int): int {
    if x >= 0 then x / 2 else -(-x / 2)
  }

  function Backoff(env: Env, n: nat): int
    requires n > 0
  {
    Base(n) + env.jitter(n, Half(Base(n)))
  }

  lemma {:induction false} Pow2Grows(m: nat, n: nat)
    requires m <= n
    ensures 0 < Pow2(m) <= Pow2(n)
  {
    if m < n {
      Pow2Grows(m, n - 1);
    } else if m > 0 {
      Pow2Grows(m - 1, m - 1);
    }
  }

  lemma Pow2Of34()
    ensures Pow2(34) == 17_179_869_184
  {
    assert Pow2(10) == 1024;
    assert Pow2(20) == 1_048_576;
    assert Pow2(30) == 1_073_741_824;
    assert Pow2(34) == 16 * Pow2(30);
  }

  // Up to 35 retries the wait is what it is meant to be; the 36th overflows to a negative one.
  lemma {:induction false} BaseIsCappedDoubling(n: nat)
    requires n > 0
    ensures n <= 35 ==>
              var doubled := 500 * MILLI * Pow2(n - 1);
              Base(n) == if doubled > 30 * SECOND then 30 * SECOND else doubled
    ensures n <= 35 ==> 500 * MILLI <= Base(n) <= 30 * SECOND
    ensures n == 36 ==> Base(n) < 0
  {
    Pow2Of34();
    if n <= 35 {
      Pow2Grows(n - 1, 34);
      Wrap64Exact(Pow2(n - 1));
      Wrap64Exact(Pow2(n - 1) * 500 * MILLI);
    } else if n == 36 {
      assert Pow2(35) == 2 * Pow2(34) == 34_359_738_368;
      Wrap64Exact(Pow2(35));
      assert Base(36) == Wrap64(34_359_738_368 * 500 * MILLI);
    }
  }

  // Whether the loop goes on after attempt n.
  predicate GoesOn(env: Env, n: nat, maxRetries: int) {
    match env.meets(n)
    case NetworkError(done) => !done
    case Answer(status, after) => ShouldRetry(status) && n < maxRetries && (after.Some? ==> env.outlasts(n))
    case _ => false
  }

  // How an attempt that ends the loop ends it. The last one's answer is returned even when it is transient.
  function Ending(env: Env, n: nat, maxRetries: int): Result {
    match env.meets(n)
    case BuildError => BuildFailed
    case NetworkError(_) => Timeout
    case ReadError => ReadFailed
    case Answer(status, _) => if ShouldRetry(status) && n < maxRetries then Timeout else Response(n, status)
  }

  // The attempts from n on: the first that does not go on decides. Also how many requests have been sent by then.
  function Attempts(env: Env, n: nat, maxRetries: int): (Result, nat)
    decreases maxRetries - n
  {
    if n > maxRetries then (Exhausted, n)
    else if n > 0 && Half(Base(n)) <= 0 then (Panicked, n)
    else if n > 0 && !env.wakes(n) then (Cancelled, n)
    else if GoesOn(env, n, maxRetries) then Attempts(env, n + 1, maxRetries)
    else (Ending(env, n, maxRetries), if env.meets(n).BuildError? then n else n + 1)
  }

  /**
   However the attempts turn out, at most one request more than the retries allowed is sent, and
   never more than 36.
   */
  lemma {:induction false} SentIsBounded(env: Env, n: nat, maxRetries: int)
    requires n <= 36
    ensures Attempts(env, n, maxRetries).1 <= (if n > maxRetries then n else maxRetries + 1)
    ensures Attempts(env, n, maxRetries).1 <= 36
    decreases maxRetries - n
  {
    hide GoesOn, Ending;
    if n == 36 {
      BaseIsCappedDoubling(n);
    }
    if n < 36 && n <= maxRetries {
      hide Base;
      SentIsBounded(env, n + 1, maxRetries);
    }
  }

  /** The loop decides as the first attempt that does not go on, and sends one request an attempt. */
  method Do(env: Env, maxRetries: int) returns (r: Result, sent: nat, slept: seq<int>)
    ensures (r, sent) == Attempts(env, 0, maxRetries)
    ensures sent <= 36 && sent <= (if maxRetries < 0 then 0 else maxRetries + 1)
    ensures |slept| <= sent && |slept| <= 35
    ensures forall i :: 0 <= i < |slept| ==> slept[i] == Backoff(env, i + 1)
  {
    hide Base, Pow2;
    sent, slept := 0, [];
    var attempt := 0;
    while attempt <= maxRetries
      invariant 0 <= attempt && sent == attempt <= 36
      invariant attempt <= maxRetries + 1 || attempt == 0
      invariant |slept| == (if attempt == 0 then 0 else attempt - 1)
      invariant forall i :: 0 <= i < |slept| ==> slept[i] == Backoff(env, i + 1)
      invariant Attempts(env, 0, maxRetries) == Attempts(env, attempt, maxRetries)
      decreases maxRetries - attempt
    {
      if attempt > 0 {
        BaseIsCappedDoubling(attempt);
        var base := Base(attempt);
        if Half(base) <= 0 {
          return Panicked, sent, slept;
        }
        slept := slept + [base + env.jitter(attempt, Half(base))];
        if !env.wakes(attempt) {
          return Cancelled, sent, slept;
        }
      }
      var met := env.meets(attempt);
      if met.BuildError? {
        return BuildFailed, sent, slept;
      }
      sent := sent + 1;
      if met.NetworkError? {
        if met.contextDone {
          return Timeout, sent, slept;
        }
        attempt := attempt + 1;
        continue;
      }
      if met.ReadError? {
        return ReadFailed, sent, slept;
      }
      if ShouldRetry(met.status) && attempt < maxRetries {
        if met.retryAfter.Some? {
          if !env.outlasts(attempt) {
            return Timeout, sent, slept;
          }
        }
        attempt := attempt + 1;
        continue;
      }
      return Response(attempt, met.status), sent, slept;
    }
    return Exhausted, sent, slept;
  }

  // The loop gets past attempt n.
  predicate Passes(env: Env, n: nat, maxRetries: int) {
    (n > 0 ==> Half(Base(n)) > 0 && env.wakes(n)) && GoesOn(env, n, maxRetries)
  }

  // The first attempt the loop does not get past, if there is one.
  lemma {:induction false} Decisive(env: Env, n: nat, maxRetries: int) returns (m: nat)
    ensures n <= m && (m <= maxRetries + 1 || m == n)
    ensures forall k :: n <= k < m ==> Passes(env, k, maxRetries)
    ensures m <= maxRetries ==> !Passes(env, m, maxRetries)
    ensures Attempts(env, n, maxRetries) == Attempts(env, m, maxRetries)
    decreases maxRetries - n
  {
    hide Base, GoesOn;
    if n > maxRetries || !Passes(env, n, maxRetries) {
      m := n;
    } else {
      m := Decisive(env, n + 1, maxRetries);
    }
  }

  /**
   A returned answer is the first that is not transient, or the last attempt's: every earlier
   attempt was a network failure or a transient answer, and one request was sent for each.
   */
  lemma ResponseIsFirstSettled(env: Env, maxRetries: int)
    requires Attempts(env, 0, maxRetries).0.Response?
    ensures var (r, sent) := Attempts(env, 0, maxRetries);
            && sent == r.attempt + 1 <= maxRetries + 1
            && env.meets(r.attempt).Answer? && env.meets(r.attempt).status == r.status
            && (ShouldRetry(r.status) ==> r.attempt == maxRetries)
            && forall k :: 0 <= k < r.attempt ==>
                 env.meets(k).NetworkError? || (env.meets(k).Answer? && ShouldRetry(env.meets(k).status))
  {
    hide Base;
    var m := Decisive(env, 0, maxRetries);
    forall k | 0 <= k < m
      ensures env.meets(k).NetworkError? || (env.meets(k).Answer? && ShouldRetry(env.meets(k).status))
    {
      assert Passes(env, k, maxRetries);
    }
  }

  /**
   Exhaustion is reported exactly when no attempt is allowed, or every attempt was passed; the
   last one was then a network failure, so a transient answer is never turned into an error.
   */
  lemma ExhaustedExactly(env: Env, maxRetries: int)
    ensures Attempts(env, 0, maxRetries).0 == Exhausted
       <==> maxRetries < 0 || (forall k :: 0 <= k <= maxRetries ==> Passes(env, k, maxRetries))
    ensures Attempts(env, 0, maxRetries).0 == Exhausted && maxRetries >= 0 ==> env.meets(maxRetries).NetworkError?
  {
    hide Base;
    var m := Decisive(env, 0, maxRetries);
    if maxRetries >= 0 && m > maxRetries {
      assert Passes(env, maxRetries, maxRetries);
    }
  }

  /** The jitter panics exactly when more than 35 retries are allowed and the first 36 attempts are passed. */
  lemma PanicsExactly(env: Env, maxRetries: int)
    ensures Attempts(env, 0, maxRetries).0 == Panicked
       <==> maxRetries >= 36 && forall k :: 0 <= k < 36 ==> Passes(env, k, maxRetries)
  {
    var m := Decisive(env, 0, maxRetries);
    hide Base;
    if 0 < m <= 36 {
      BaseIsCappedDoubling(m);
    }
    if m > 36 {
      assert Passes(env, 36, maxRetries);
      BaseIsCappedDoubling(36);
    }
  }

  /** Against a host that cannot be reached, a client panics exactly when it may retry 36 times or more. */
  lemma {:induction false} UnreachableHostPanics(env: Env, maxRetries: int)
    requires forall k :: env.meets(k) == NetworkError(false) && env.wakes(k)
    ensures Attempts(env, 0, maxRetries).0 == Panicked <==> maxRetries >= 36
  {
    hide Base, Attempts;
    PanicsExactly(env, maxRetries);
    forall k: nat | k < 36
      ensures Passes(env, k, maxRetries)
    {
      assert env.meets(k) == NetworkError(false);
      if k > 0 {
        BaseIsCappedDoubling(k);
      }
    }
  }

  // The backoff slept before the first r retries.
  function Slept(env: Env, r: nat): int {
    if r == 0 then 0 else Slept(env, r - 1) + Backoff(env, r)
  }

  lemma BackoffBounds(env: Env, n: nat)
    requires env.Fair() && 0 < n <= 35
    ensures 500 * MILLI <= Backoff(env, n) < 45 * SECOND
    ensures Backoff(env, n) < 750 * MILLI * Pow2(n - 1)
  {
    hide Base;
    BaseIsCappedDoubling(n);
    assert Half(Base(n)) > 0;
  }

  /** r retries sleep at least r/2 seconds and less than 45 r seconds, and less than 750 (2^r - 1) milliseconds. */
  lemma {:induction false} SleptIsBounded(env: Env, r: nat)
    requires env.Fair() && r <= 35
    ensures 500 * MILLI * r <= Slept(env, r) <= 45 * SECOND * r
    ensures r > 0 ==> Slept(env, r) < 45 * SECOND * r && Slept(env, r) < 750 * MILLI * (Pow2(r) - 1)
  {
    hide Backoff;
    if r > 0 {
      SleptIsBounded(env, r - 1);
      BackoffBounds(env, r);
    }
  }
}
