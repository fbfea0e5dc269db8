/**
 The in-memory fixed-window rate limiter of pkg/ratelimit and its whole-run bound.
 Times and the period are integers (nanoseconds); the clock is a parameter of Allow.
 */
module RateLimit {
  import opened GoStrings

  datatype Window = Window(count: int, resetAt: int)

  datatype Call = Call(key: string, at: int)

  function Look(windows: map<string, Window>, key: string): Option<Window> {
    if key in windows then Some(windows[key]) else None
  }

  predicate Expired(w: Option<Window>, now: int) {
    w.None? || now > w.value.resetAt
  }

  // The state of the limiter after a whole history of calls, oldest first.
  function WindowsAfter(history: seq<Call>, period: int): map<string, Window> {
    if history == [] then map[]
    else
      var last := history[|history| - 1];
      var before := WindowsAfter(history[..|history| - 1], period);
      var w := Look(before, last.key);
      before[last.key := if Expired(w, last.at)
                         then Window(1, last.at + period)
                         else Window(w.value.count + 1, w.value.resetAt)]
  }

  // Whether call was admitted when it arrived after history.
  predicate Admitted(history: seq<Call>, call: Call, maxCalls: int, period: int) {
    var w := Look(WindowsAfter(history, period), call.key);
    Expired(w, call.at) || w.value.count + 1 <= maxCalls
  }

  class InMemory {
    var windows: map<string, Window>
    const maxCalls: int
    const period: int
    ghost var history: seq<Call>

    ghost predicate Valid()
      reads this
    {
      windows == WindowsAfter(history, period)
    }

    constructor (maxCalls: int, period: int)
      ensures Valid() && history == []
      ensures this.maxCalls == maxCalls && this.period == period
    {
      windows := map[];
      history := [];
      this.maxCalls := maxCalls;
      this.period := period;
    }

    method Allow(key: string, now: int) returns (ok: bool)
      requires Valid()
      modifies this
      ensures Valid()
      ensures history == old(history) + [Call(key, now)]
      ensures ok == Admitted(old(history), Call(key, now), maxCalls, period)
    {
      ghost var called := history + [Call(key, now)];
      assert called[..|called| - 1] == history;
      history := called;
      if key !in windows || now > windows[key].resetAt {
        windows := windows[key := Window(1, now + period)];
        return true;
      }
      var w := windows[key];
      w := w.(count := w.count + 1);
      windows := windows[key := w];
      return w.count <= maxCalls;
    }
  }

  // The clock never goes backwards.
  ghost predicate Monotone(history: seq<Call>) {
    forall i, j :: 0 <= i < j < |history| ==> history[i].at <= history[j].at
  }

  // How many calls of key were admitted at a time in the closed interval [a, b].
  function AdmittedIn(history: seq<Call>, key: string, a: int, b: int, maxCalls: int, period: int): nat {
    if history == [] then 0
    else
      var last := history[|history| - 1];
      var before := history[..|history| - 1];
      AdmittedIn(before, key, a, b, maxCalls, period) +
      if last.key == key && a <= last.at <= b && Admitted(before, last, maxCalls, period) then 1 else 0
  }

  // The calls of one key.
  function Only(history: seq<Call>, key: string): seq<Call> {
    if history == [] then []
    else
      var last := history[|history| - 1];
      var before := Only(history[..|history| - 1], key);
      if last.key == key then before + [last] else before
  }

  // The other keys' calls never change a key's window, hence none of its answers.
  lemma {:induction false} KeysAreIndependent(history: seq<Call>, key: string, now: int, maxCalls: int, period: int)
    ensures Look(WindowsAfter(history, period), key) == Look(WindowsAfter(Only(history, key), period), key)
    ensures Admitted(history, Call(key, now), maxCalls, period)
         == Admitted(Only(history, key), Call(key, now), maxCalls, period)
  {
    if history != [] {
      var last := history[|history| - 1];
      var before := history[..|history| - 1];
      KeysAreIndependent(before, key, now, maxCalls, period);
      if last.key == key {
        var o := Only(history, key);
        assert o[..|o| - 1] == Only(before, key);
      }
    }
  }

  // The effective number of calls one window admits: its first call is always admitted.
  function PerWindow(maxCalls: int): int {
    if maxCalls < 1 then 1 else maxCalls
  }

  function Min(x: int, y: int): int {
    if x < y then x else y
  }

  /**
   What the current window of key says about the admitted calls so far: `full` full
   windows lie before it, and the first of all counted windows was full before `a`
   (early) or inside the interval.
   */
  ghost predicate Tracks(history: seq<Call>, key: string, a: int, b: int, maxCalls: int, period: int, full: nat,
                         early: bool)
  {
    var w := Look(WindowsAfter(history, period), key);
    var n := AdmittedIn(history, key, a, b, maxCalls, period);
    var m := PerWindow(maxCalls);
    && (w.Some? ==> w.value.count >= 1 && w.value.resetAt - period <= b)
    && (n > 0 ==>
      && w.Some? && w.value.resetAt >= a && history != [] && history[|history| - 1].at >= a
      && (early ==> n <= full * m + Min(w.value.count, m) - 1)
      && (!early ==> n <= full * m + Min(w.value.count, m))
      && (early && full >= 1 ==> w.value.resetAt - period > a + (full - 1) * period)
      && (!early ==> w.value.resetAt - period >= a)
      && (!early && full >= 1 ==> w.value.resetAt - period > a + full * period))
  }

  // One more call of key keeps the tracking invariant, possibly with one more window full.
  lemma TrackCall(history: seq<Call>, key: string, a: int, b: int, maxCalls: int, period: int, full: nat,
                  early: bool, at: int)
    returns (full': nat, early': bool)
    requires Monotone(history + [Call(key, at)]) && period >= 0 && at <= b
    requires Tracks(history, key, a, b, maxCalls, period, full, early)
    ensures Tracks(history + [Call(key, at)], key, a, b, maxCalls, period, full', early')
  {
    var after := history + [Call(key, at)];
    assert after[..|after| - 1] == history;
    assert history != [] ==> after[|history| - 1] == history[|history| - 1] && after[|history|].at == at;
    var w := Look(WindowsAfter(history, period), key);
    var m := PerWindow(maxCalls);
    if AdmittedIn(history, key, a, b, maxCalls, period) == 0 {
      full', early' := 0, !Expired(w, at) && w.value.resetAt - period < a;
    } else if Expired(w, at) {
      full', early' := full + 1, early;
      assert (full + 1) * m == full * m + m;
      assert (full + 1) * period == full * period + period;
      assert (full - 1) * period + period == full * period;
    } else {
      full', early' := full, early;
    }
  }

  lemma {:induction false} Track(history: seq<Call>, key: string, a: int, b: int, maxCalls: int, period: int)
    returns (full: nat, early: bool)
    requires Monotone(history) && period >= 0
    requires forall i :: 0 <= i < |history| ==> history[i].at <= b
    ensures Tracks(history, key, a, b, maxCalls, period, full, early)
  {
    if history == [] {
      return 0, false;
    }
    hide Tracks;
    var last := history[|history| - 1];
    var before := history[..|history| - 1];
    full, early := Track(before, key, a, b, maxCalls, period);
    if last.key == key {
      assert before + [Call(key, last.at)] == history;
      full, early := TrackCall(before, key, a, b, maxCalls, period, full, early, last.at);
    } else {
      assert before != [] ==> before[|before| - 1].at <= last.at;
    }
  }

  // The most calls of one key that any closed interval of length at most k periods admits.
  function IntervalBound(maxCalls: int, k: nat): int {
    if k == 0 then PerWindow(maxCalls) else (k + 1) * PerWindow(maxCalls) - 1
  }

  // The whole-run bound: it holds of every history, key and interval.
  lemma {:induction false} IntervalIsBounded(history: seq<Call>, key: string, a: int, b: int, maxCalls: int,
                                             period: int, k: nat)
    requires Monotone(history) && period >= 0 && b - a <= k * period
    ensures AdmittedIn(history, key, a, b, maxCalls, period) <= IntervalBound(maxCalls, k)
  {
    if history != [] && history[|history| - 1].at > b {
      IntervalIsBounded(history[..|history| - 1], key, a, b, maxCalls, period, k);
    } else {
      var full, early := Track(history, key, a, b, maxCalls, period);
      var n := AdmittedIn(history, key, a, b, maxCalls, period);
      if n > 0 {
        var w := Look(WindowsAfter(history, period), key).value;
        CountWindows(n, w.count, full, early, PerWindow(maxCalls), k, period, w.resetAt - period - a);
      } else {
        MulMonotone(0, k, PerWindow(maxCalls));
      }
    }
  }

  // The arithmetic of the bound: offset is where the current window starts in the interval.
  lemma CountWindows(n: nat, count: int, full: nat, early: bool, m: int, k: nat, period: int, offset: int)
    requires m >= 1 && period >= 0 && offset <= k * period
    requires n <= full * m + Min(count, m) - (if early then 1 else 0)
    requires early && full >= 1 ==> offset > (full - 1) * period
    requires !early && full >= 1 ==> offset > full * period
    ensures n <= if k == 0 then m else (k + 1) * m - 1
  {
    assert (full + 1) * m == full * m + m;
    if full >= 1 {
      StartsFit(if early then full - 1 else full, k, period, offset);
      MulMonotone(if early then full + 1 else full + 2, k + 1, m);
      assert (full + 2) * m == (full + 1) * m + m;
    } else if k >= 1 {
      MulMonotone(2, k + 1, m);
    }
  }

  // A window that starts after i periods of an interval of at most k periods has i < k.
  lemma StartsFit(i: nat, k: nat, period: int, offset: int)
    requires period >= 0 && i * period < offset <= k * period
    ensures i < k
  {
    if i >= k {
      MulMonotone(k, i, period);
    }
  }

  lemma MulMonotone(i: nat, k: nat, m: int)
    requires i <= k && m >= 0
    ensures i * m <= k * m
  {
    assert (k - i) * m >= 0;
  }

  // What the limiter's users read into "at most maxCalls per period": (k + 1) * maxCalls
  // calls of a key in any closed interval of at most k periods.
  ghost predicate WithinPromise(history: seq<Call>, key: string, a: int, b: int, k: nat, maxCalls: int, period: int) {
    b - a <= k * period ==> AdmittedIn(history, key, a, b, maxCalls, period) <= (k + 1) * maxCalls
  }

  ghost predicate KeepsPromise(maxCalls: int, period: int) {
    forall history: seq<Call>, key: string, a: int, b: int, k: nat ::
      Monotone(history) ==> WithinPromise(history, key, a, b, k, maxCalls, period)
  }

  // n calls of one key at one instant.
  function Burst(n: nat, key: string, at: int): seq<Call> {
    seq(n, i => Call(key, at))
  }

  // With a negative period every call opens a window and all of them are admitted.
  lemma {:induction false} NegativePeriodAdmitsAll(n: nat, key: string, maxCalls: int, period: int)
    requires period < 0
    ensures AdmittedIn(Burst(n, key, 0), key, 0, 0, maxCalls, period) == n
    ensures n > 0 ==> Look(WindowsAfter(Burst(n, key, 0), period), key) == Some(Window(1, period))
  {
    if n > 0 {
      NegativePeriodAdmitsAll(n - 1, key, maxCalls, period);
      assert Burst(n, key, 0)[..n - 1] == Burst(n - 1, key, 0);
    }
  }

  // The promise is kept exactly for a positive maxCalls and a non-negative period.
  lemma PromiseExactly(maxCalls: int, period: int)
    ensures KeepsPromise(maxCalls, period) <==> maxCalls >= 1 && period >= 0
  {
    if maxCalls >= 1 && period >= 0 {
      forall history: seq<Call>, key: string, a: int, b: int, k: nat | Monotone(history)
        ensures WithinPromise(history, key, a, b, k, maxCalls, period)
      {
        if b - a <= k * period {
          IntervalIsBounded(history, key, a, b, maxCalls, period, k);
        }
      }
    } else if maxCalls < 1 {
      var history := [Call("", 0)];
      assert history[..0] == [];
      assert AdmittedIn(history, "", 0, 0, maxCalls, period) == 1;
      assert Monotone(history) && !WithinPromise(history, "", 0, 0, 0, maxCalls, period);
    } else {
      var history := Burst(maxCalls + 1, "", 0);
      NegativePeriodAdmitsAll(maxCalls + 1, "", maxCalls, period);
      assert Monotone(history) && !WithinPromise(history, "", 0, 0, 0, maxCalls, period);
    }
  }

  // The worst case: one call opens a window early, the rest of that window's calls come at
  // its very end, and each of the next k windows is used up at once.
  function WorstCase(maxCalls: nat, period: nat, k: nat): seq<Call>
    requires maxCalls >= 1
  {
    if k == 0 then [Call("", 0)] + Burst(maxCalls - 1, "", period)
    else WorstCase(maxCalls, period, k - 1) + Burst(maxCalls, "", k * (period + 1))
  }

  // n more calls at one instant of an open window, none beyond maxCalls.
  lemma {:induction false} BurstInWindow(history: seq<Call>, n: nat, at: int, a: int, b: int, maxCalls: int,
                                         period: int)
    requires a <= at <= b
    requires var w := Look(WindowsAfter(history, period), "");
             w.Some? && at <= w.value.resetAt && w.value.count + n <= maxCalls
    ensures var w := Look(WindowsAfter(history, period), "").value;
            Look(WindowsAfter(history + Burst(n, "", at), period), "") == Some(Window(w.count + n, w.resetAt))
    ensures AdmittedIn(history + Burst(n, "", at), "", a, b, maxCalls, period)
         == AdmittedIn(history, "", a, b, maxCalls, period) + n
  {
    hide *;
    if n == 0 {
      NoBurst(history, at);
    } else {
      BurstInWindow(history, n - 1, at, a, b, maxCalls, period);
      OneMoreCall(history + Burst(n - 1, "", at), at, a, b, maxCalls, period);
      BurstNext(history, n, at);
    }
  }

  lemma NoBurst(history: seq<Call>, at: int)
    ensures history + Burst(0, "", at) == history
  {
  }

  lemma BurstNext(history: seq<Call>, n: nat, at: int)
    requires n > 0
    ensures history + Burst(n, "", at) == history + Burst(n - 1, "", at) + [Call("", at)]
  {
  }

  // One more call of an open window that is not full.
  lemma OneMoreCall(before: seq<Call>, at: int, a: int, b: int, maxCalls: int, period: int)
    requires a <= at <= b
    requires var w := Look(WindowsAfter(before, period), "");
             w.Some? && at <= w.value.resetAt && w.value.count + 1 <= maxCalls
    ensures var w := Look(WindowsAfter(before, period), "").value;
            Look(WindowsAfter(before + [Call("", at)], period), "") == Some(Window(w.count + 1, w.resetAt))
    ensures AdmittedIn(before + [Call("", at)], "", a, b, maxCalls, period)
         == AdmittedIn(before, "", a, b, maxCalls, period) + 1
  {
    var after := before + [Call("", at)];
    assert after[..|after| - 1] == before;
  }

  lemma {:induction false} WorstCaseTimes(maxCalls: nat, period: nat, k: nat)
    requires maxCalls >= 1
    ensures var h := WorstCase(maxCalls, period, k);
            && Monotone(h)
            && forall i :: 0 <= i < |h| ==> h[i].at <= if k == 0 then period else k * (period + 1)
  {
    if k > 0 {
      WorstCaseTimes(maxCalls, period, k - 1);
      assert k * (period + 1) == (k - 1) * (period + 1) + period + 1 >= period;
      BurstIsLast(WorstCase(maxCalls, period, k - 1), maxCalls, k * (period + 1));
    } else {
      BurstIsLast([Call("", 0)], maxCalls - 1, period);
    }
  }

  // A burst after everything else keeps the times in order.
  lemma BurstIsLast(before: seq<Call>, n: nat, at: int)
    requires Monotone(before) && forall i :: 0 <= i < |before| ==> before[i].at <= at
    ensures Monotone(before + Burst(n, "", at))
    ensures forall i :: 0 <= i < |before + Burst(n, "", at)| ==> (before + Burst(n, "", at))[i].at <= at
  {
  }

  // The start of the current window and the count of the worst case.
  ghost predicate WorstCaseAt(history: seq<Call>, start: int, n: int, b: int, maxCalls: nat, period: nat) {
    && Look(WindowsAfter(history, period), "") == Some(Window(maxCalls, start + period))
    && AdmittedIn(history, "", period, b, maxCalls, period) == n
  }

  lemma FirstBurst(maxCalls: nat, period: nat, b: int)
    requires maxCalls >= 1 && period >= 1 && b >= period
    ensures WorstCaseAt(WorstCase(maxCalls, period, 0), 0, maxCalls - 1, b, maxCalls, period)
  {
    var one := [Call("", 0)];
    assert one[..0] == [];
    BurstInWindow(one, maxCalls - 1, period, period, b, maxCalls, period);
  }

  lemma {:induction false} WorstCaseCounts(maxCalls: nat, period: nat, k: nat, b: int)
    requires maxCalls >= 1 && period >= 1 && b >= k * (period + 1) && b >= period
    ensures WorstCaseAt(WorstCase(maxCalls, period, k), k * (period + 1), (k + 1) * maxCalls - 1, b, maxCalls, period)
  {
    hide *;
    if k == 0 {
      FirstBurst(maxCalls, period, b);
    } else {
      var at, start := k * (period + 1), (k - 1) * (period + 1);
      OneMoreTurn(k, period + 1);
      OneMoreTurn(k + 1, maxCalls);
      var n, m := (k + 1) * maxCalls - 1, k * maxCalls - 1;
      assert at == start + period + 1 && start >= 0 && n == m + maxCalls;
      WorstCaseCounts(maxCalls, period, k - 1, b);
      NextTurn(maxCalls, period, k, start, m, at, b);
    }
  }

  // One more turn of the worst case.
  lemma NextTurn(maxCalls: nat, period: nat, k: nat, start: int, n: int, at: int, b: int)
    requires maxCalls >= 1 && k > 0 && start + period < at && period <= at <= b && at == k * (period + 1)
    requires WorstCaseAt(WorstCase(maxCalls, period, k - 1), start, n, b, maxCalls, period)
    ensures WorstCaseAt(WorstCase(maxCalls, period, k), at, n + maxCalls, b, maxCalls, period)
  {
    hide WorstCaseAt, Burst;
    Reopen(WorstCase(maxCalls, period, k - 1), start, n, at, b, maxCalls, period);
  }

  lemma OneMoreTurn(k: nat, m: nat)
    requires k > 0
    ensures k * m == (k - 1) * m + m && (k - 1) * m >= 0
  {
    MulMonotone(0, k - 1, m);
  }

  // A full burst just after a window has expired is admitted whole.
  lemma Reopen(before: seq<Call>, start: int, n: int, at: int, b: int, maxCalls: nat, period: nat)
    requires maxCalls >= 1 && start + period < at && period <= at <= b
    requires WorstCaseAt(before, start, n, b, maxCalls, period)
    ensures WorstCaseAt(before + Burst(maxCalls, "", at), at, n + maxCalls, b, maxCalls, period)
  {
    var reopened := before + [Call("", at)];
    assert reopened[..|reopened| - 1] == before;
    BurstInWindow(reopened, maxCalls - 1, at, period, b, maxCalls, period);
    assert before + Burst(maxCalls, "", at) == reopened + Burst(maxCalls - 1, "", at);
  }

  // The bound cannot be improved: some history reaches it, for every k up to the period.
  lemma BoundIsReached(maxCalls: nat, period: nat, k: nat) returns (history: seq<Call>, a: int, b: int)
    requires maxCalls >= 1 && 1 <= k <= period
    ensures Monotone(history) && b - a <= k * period
    ensures AdmittedIn(history, "", a, b, maxCalls, period) == IntervalBound(maxCalls, k)
  {
    history, a, b := WorstCase(maxCalls, period, k), period, period + k * period;
    assert k * (period + 1) == k * period + k;
    WorstCaseTimes(maxCalls, period, k);
    MulMonotone(1, k, period);
    WorstCaseCounts(maxCalls, period, k, b);
  }
}
