/** The API's fixed-window request counter per (tenant, tier). */
module RateLimiter {

  type Id = nat

  const WINDOW_SECONDS := 60.0

  datatype Key = Key(tenant: Id, tier: string)
  datatype Window = Window(start: real, count: int)
  datatype Verdict = Accepted | Rejected(retryAfter: real)

  datatype Limits = Limits(freemium: int, paidSme: int, enterprise: int, integrator: int)

  /** An unknown tier gets the freemium limit, though a counter of its own. */
  function LimitForTier(limits: Limits, tier: string): int {
    if tier == "paid_sme" then limits.paidSme
    else if tier == "enterprise" then limits.enterprise
    else if tier == "integrator" then limits.integrator
    else limits.freemium
  }

  function WindowOf(windows: map<Key, Window>, key: Key): Window {
    if key in windows then windows[key] else Window(0.0, 0)
  }

  /** One request at time now: an expired window is replaced, then the request is counted. */
  function Touch(w: Window, now: real): Window {
    if now - w.start >= WINDOW_SECONDS then Window(now, 1) else w.(count := w.count + 1)
  }

  function VerdictOf(w: Window, now: real, limit: int): Verdict {
    if w.count <= limit then Accepted
    else
      var retryAfter := WINDOW_SECONDS - (now - w.start);
      Rejected(if retryAfter > 0.0 then retryAfter else 0.0)
  }

  class TenantRateLimiter {
    const limits: Limits
    var windows: map<Key, Window>

    constructor (limits: Limits)
      ensures this.limits == limits && windows == map[]
    {
      this.limits := limits;
      windows := map[];
    }

    method Check(now: real, tenant: Id, tier: string) returns (verdict: Verdict)
      modifies this
      ensures windows == old(windows)[Key(tenant, tier) := Touch(WindowOf(old(windows), Key(tenant, tier)), now)]
      ensures verdict == VerdictOf(WindowOf(windows, Key(tenant, tier)), now, LimitForTier(limits, tier))
      ensures var counted := WindowOf(windows, Key(tenant, tier)).count;
              && (tier == "paid_sme" ==> (verdict == Accepted <==> counted <= limits.paidSme))
              && (tier == "enterprise" ==> (verdict == Accepted <==> counted <= limits.enterprise))
              && (tier == "integrator" ==> (verdict == Accepted <==> counted <= limits.integrator))
              && (tier !in {"paid_sme", "enterprise", "integrator"} ==>
                    (verdict == Accepted <==> counted <= limits.freemium))
    {
      var limit := LimitForTier(limits, tier);
      var key := Key(tenant, tier);
      var current := WindowOf(windows, key);
      var start, count := current.start, current.count;
      if now - start >= WINDOW_SECONDS {
        start, count := now, 0;
      }
      count := count + 1;
      windows := windows[key := Window(start, count)];
      if count > limit {
        var retryAfter := WINDOW_SECONDS - (now - start);
        return Rejected(if retryAfter > 0.0 then retryAfter else 0.0);
      }
      return Accepted;
    }
  }

  // ---------------------------------------------------------------- runs

  datatype Request = Request(key: Key, now: real)

  function After(windows: map<Key, Window>, requests: seq<Request>): map<Key, Window> {
    if requests == [] then windows
    else
      var before, last := After(windows, requests[..|requests| - 1]), requests[|requests| - 1];
      before[last.key := Touch(WindowOf(before, last.key), last.now)]
  }

  /** The instants at which one key was requested. */
  function TimesOf(requests: seq<Request>, key: Key): seq<real> {
    if requests == [] then []
    else TimesOf(requests[..|requests| - 1], key)
         + (if requests[|requests| - 1].key == key then [requests[|requests| - 1].now] else [])
  }

  /** The window of one key as a function of its own requests. */
  function WindowAfter(times: seq<real>): Window {
    if times == [] then Window(0.0, 0) else Touch(WindowAfter(times[..|times| - 1]), times[|times| - 1])
  }

  lemma WindowAfterAppend(times: seq<real>, now: real)
    ensures WindowAfter(times + [now]) == Touch(WindowAfter(times), now)
  {
    assert (times + [now])[..|times|] == times;
  }

  /** Keys never interfere: each window depends on that key's requests alone. */
  lemma {:induction false} KeysAreIndependent(requests: seq<Request>, key: Key)
    ensures WindowOf(After(map[], requests), key) == WindowAfter(TimesOf(requests, key))
  {
    if requests != [] {
      var front, last := requests[..|requests| - 1], requests[|requests| - 1];
      KeysAreIndependent(front, key);
      if last.key == key {
        WindowAfterAppend(TimesOf(front, key), last.now);
      } else {
        assert TimesOf(front, key) + [] == TimesOf(front, key);
      }
    }
  }

  ghost predicate NonDecreasing(times: seq<real>) {
    forall i, j | 0 <= i < j < |times| :: times[i] <= times[j]
  }

  ghost predicate ClockRuns(requests: seq<Request>) {
    forall i, j | 0 <= i < j < |requests| :: requests[i].now <= requests[j].now
  }

  lemma {:induction false} TimesNonDecreasing(requests: seq<Request>, key: Key)
    requires ClockRuns(requests)
    ensures NonDecreasing(TimesOf(requests, key))
    ensures forall t | t in TimesOf(requests, key) :: exists i :: 0 <= i < |requests| && requests[i].now == t
  {
    if requests != [] {
      var front, last := requests[..|requests| - 1], requests[|requests| - 1];
      TimesNonDecreasing(front, key);
      var times := TimesOf(front, key);
      forall t | t in times ensures t <= last.now && exists i :: 0 <= i < |requests| && requests[i].now == t {
        var i :| 0 <= i < |front| && front[i].now == t;
        assert requests[i].now == t;
      }
      assert forall i | 0 <= i < |times| :: times[i] in times;
    }
  }

  predicate Accepts(times: seq<real>, now: real, limit: int) {
    Touch(WindowAfter(times), now).count <= limit
  }

  /** The verdict a request receives in a run is decided by that key's own earlier requests. */
  lemma VerdictInRun(requests: seq<Request>, key: Key, now: real, limit: int)
    ensures var windows := After(map[], requests + [Request(key, now)]);
            VerdictOf(WindowOf(windows, key), now, limit) == Accepted <==> Accepts(TimesOf(requests, key), now, limit)
  {
    KeysAreIndependent(requests, key);
    assert (requests + [Request(key, now)])[..|requests|] == requests;
  }

  // ---------------------------------------------------------------- how much gets through

  /** Accepted requests with an instant in [a, a + 60). */
  function CountAccepted(times: seq<real>, limit: int, a: real): nat {
    if times == [] then 0
    else
      var front, last := times[..|times| - 1], times[|times| - 1];
      CountAccepted(front, limit, a)
      + (if a <= last < a + WINDOW_SECONDS && Accepts(front, last, limit) then 1 else 0)
  }

  /** Accepted requests counted in the window that started at s. */
  function CountInWindow(times: seq<real>, limit: int, s: real): nat {
    if times == [] then 0
    else
      var front, last := times[..|times| - 1], times[|times| - 1];
      CountInWindow(front, limit, s)
      + (if WindowAfter(times).start == s && Accepts(front, last, limit) then 1 else 0)
  }

  function Allowance(limit: int): nat { if limit > 0 then limit else 0 }

  /** What a window with this count has let through. */
  function Let(count: int, limit: int): nat {
    if count <= 0 then 0 else if count <= Allowance(limit) then count else Allowance(limit)
  }

  lemma {:induction false} CountPositive(times: seq<real>)
    ensures WindowAfter(times).count >= 0 && (times != [] ==> WindowAfter(times).count >= 1)
  {
    if times != [] {
      CountPositive(times[..|times| - 1]);
    }
  }

  lemma {:induction false} InsideInterval(times: seq<real>, limit: int, a: real)
    requires NonDecreasing(times)
    ensures var w, f := WindowAfter(times), CountAccepted(times, limit, a);
            && (times == [] || times[|times| - 1] < a ==> f == 0)
            && (|| f <= Let(w.count, limit)
                || (w.start >= a && f <= Allowance(limit) + Let(w.count, limit))
                || (times != [] && times[|times| - 1] >= a + WINDOW_SECONDS && f <= 2 * Allowance(limit)))
  {
    if times != [] {
      InsideInterval(times[..|times| - 1], limit, a);
      CountPositive(times[..|times| - 1]);
    }
  }

  /** Any 60 second interval lets at most twice the limit of one key through. */
  lemma AtMostTwiceTheLimit(requests: seq<Request>, key: Key, limit: int, a: real)
    requires ClockRuns(requests)
    ensures CountAccepted(TimesOf(requests, key), limit, a) <= 2 * Allowance(limit)
  {
    TimesNonDecreasing(requests, key);
    InsideInterval(TimesOf(requests, key), limit, a);
  }

  lemma {:induction false} WindowCounts(times: seq<real>, limit: int, s: real)
    ensures var w, f := WindowAfter(times), CountInWindow(times, limit, s);
            && (s == w.start ==> f == Let(w.count, limit))
            && (s > w.start ==> f == 0)
            && f <= Allowance(limit)
  {
    if times != [] {
      WindowCounts(times[..|times| - 1], limit, s);
      CountPositive(times[..|times| - 1]);
    }
  }

  // ---------------------------------------------------------------- the bound is attained

  function Burst(now: real, n: nat): (times: seq<real>)
    ensures |times| == n
  {
    if n == 0 then [] else Burst(now, n - 1) + [now]
  }

  lemma {:induction false} FirstBurst(n: nat, limit: int)
    requires n <= limit
    ensures WindowAfter(Burst(59.0, n)) == Window(0.0, n)
    ensures CountAccepted(Burst(59.0, n), limit, 59.0) == n
  {
    if n > 0 {
      FirstBurst(n - 1, limit);
      WindowAfterAppend(Burst(59.0, n - 1), 59.0);
      assert Burst(59.0, n)[..n - 1] == Burst(59.0, n - 1);
    }
  }

  lemma {:induction false} SecondBurst(n: nat, limit: nat)
    requires n <= limit
    ensures var times := Burst(59.0, limit) + Burst(60.0, n);
            && (n > 0 ==> WindowAfter(times) == Window(60.0, n))
            && CountAccepted(times, limit, 59.0) == limit + n
  {
    if n == 0 {
      FirstBurst(limit, limit);
      assert Burst(59.0, limit) + Burst(60.0, 0) == Burst(59.0, limit);
    } else {
      SecondBurst(n - 1, limit);
      var front := Burst(59.0, limit) + Burst(60.0, n - 1);
      var times := Burst(59.0, limit) + Burst(60.0, n);
      assert times == front + [60.0];
      assert times[..|times| - 1] == front;
      if n == 1 {
        FirstBurst(limit, limit);
        assert front == Burst(59.0, limit);
      }
      WindowAfterAppend(front, 60.0);
    }
  }

  /** A burst at second 59 and another at second 60 get exactly twice the limit through within the interval. */
  lemma TwiceTheLimitIsReached(limit: nat)
    ensures CountAccepted(Burst(59.0, limit) + Burst(60.0, limit), limit, 59.0) == 2 * limit
  {
    SecondBurst(limit, limit);
  }

  // ---------------------------------------------------------------- retrying

  lemma {:induction false} WindowHolds(w: Window, waiting: seq<real>)
    requires forall t | t in waiting :: t - w.start < WINDOW_SECONDS
    ensures WindowFrom(w, waiting) == w.(count := w.count + |waiting|)
  {
    if waiting != [] {
      var front := waiting[..|waiting| - 1];
      assert forall t | t in front :: t in waiting;
      assert waiting[|waiting| - 1] in waiting;
      WindowHolds(w, front);
    }
  }

  function WindowFrom(w: Window, times: seq<real>): Window {
    if times == [] then w else Touch(WindowFrom(w, times[..|times| - 1]), times[|times| - 1])
  }

  /**
   After a rejection, and whatever further attempts are made meanwhile, the first request at or
   after the announced instant is accepted exactly when the limit allows any request at all.
   */
  lemma RetryAfterIsHonoured(w: Window, now: real, limit: int, waiting: seq<real>, retry: real)
    requires now - w.start < WINDOW_SECONDS && VerdictOf(w, now, limit).Rejected?
    requires forall t | t in waiting :: t < now + VerdictOf(w, now, limit).retryAfter
    requires retry >= now + VerdictOf(w, now, limit).retryAfter
    ensures VerdictOf(Touch(WindowFrom(w, waiting), retry), retry, limit) == Accepted <==> limit >= 1
  {
    WindowHolds(w, waiting);
  }
}
