/** The fixed-window counter: INCR, EXPIRE on the first hit, refuse above the limit. */
module RateLimit {
  import opened Common

  /** The counter key in redis and when it expires. */
  datatype Counter = Counter(count: nat, expiresAt: int)

  /** What redis still holds at `now`. */
  function Live(c: Option<Counter>, now: int): Option<Counter> {
    if c.Some? && now < c.value.expiresAt then c else None
  }

  function Hit(c: Option<Counter>, now: int, window: int): Counter {
    var live := Live(c, now);
    if live.None? then Counter(1, now + window) else Counter(live.value.count + 1, live.value.expiresAt)
  }

  predicate Allowed(c: Counter, limit: int) {
    c.count == 1 || c.count <= limit
  }

  class Limiter {
    var counters: map<string, Counter>

    constructor ()
      ensures counters == map[]
    {
      counters := map[];
    }

    function Held(key: string): Option<Counter>
      reads this
    {
      if key in counters then Some(counters[key]) else None
    }

    /** Counts one hit on a key; a refusal says how long until the window resets. */
    method Allow(key: string, now: int, limit: int, window: int) returns (ok: bool, retryAfter: int)
      modifies this
      ensures counters == old(counters)[key := Hit(old(Held(key)), now, window)]
      ensures ok <==> Allowed(counters[key], limit)
      ensures var live := key in old(counters) && now < old(counters)[key].expiresAt;
              && counters[key] == (if live then Counter(old(counters)[key].count + 1, old(counters)[key].expiresAt)
                                   else Counter(1, now + window))
              && counters - {key} == old(counters) - {key}
              && (ok <==> !live || counters[key].count <= limit || counters[key].count == 1)
      ensures !ok ==> 0 < retryAfter && Live(Some(counters[key]), now + retryAfter - 1).Some?
                      && Live(Some(counters[key]), now + retryAfter).None?
      ensures ok ==> retryAfter == window
    {
      var count := 1;
      if key in counters && now < counters[key].expiresAt {
        count := counters[key].count + 1;
        counters := counters[key := counters[key].(count := count)];
      } else {
        counters := counters[key := Counter(1, now + window)];
      }
      if count == 1 {
        return true, window;
      }
      if count > limit {
        return false, counters[key].expiresAt - now;
      }
      return true, window;
    }
  }

  // ----------------------------------------------------------- traces of calls

  ghost predicate InOrder(calls: seq<int>) {
    forall i, j :: 0 <= i < j < |calls| ==> calls[i] <= calls[j]
  }

  /** The counter after a sequence of calls on one key. */
  function After(calls: seq<int>, window: int): Option<Counter> {
    if calls == [] then None
    else Some(Hit(After(calls[..|calls| - 1], window), calls[|calls| - 1], window))
  }

  /** How many of the calls with a time in [from, to) were allowed. */
  function AllowedIn(calls: seq<int>, limit: int, window: int, from: int, to: int): nat {
    if calls == [] then 0
    else AllowedIn(calls[..|calls| - 1], limit, window, from, to)
         + (if from <= calls[|calls| - 1] < to && Allowed(After(calls, window).value, limit) then 1 else 0)
  }

  /** Where the current window stands against the interval [a, a + window), and what that leaves room for. */
  ghost predicate Bounded(calls: seq<int>, limit: int, window: int, a: int) {
    var c := After(calls, window);
    var n, m := AllowedIn(calls, limit, window, a, a + window), Max(1, limit);
    if c.None? then n == 0
    else
      var start := c.value.expiresAt - window;
      && 1 <= c.value.count && calls != [] && start <= calls[|calls| - 1] < c.value.expiresAt
      && (if start + window <= a then n == 0
          else if start < a then n <= Min(c.value.count, m) - 1
          else if start == a then n <= Min(c.value.count, m)
          else if start < a + window then n <= m - 1 + Min(c.value.count, m)
          else n <= 2 * m - 1)
  }

  lemma {:induction false} AlwaysBounded(calls: seq<int>, limit: int, window: int, a: int)
    requires InOrder(calls) && 0 < window
    ensures Bounded(calls, limit, window, a)
    decreases |calls|
  {
    if calls != [] {
      AlwaysBounded(calls[..|calls| - 1], limit, window, a);
    }
  }

  /** For every trace of calls, fewer than 2 * limit are allowed in any half-open interval as long as the
      window: the factor of two at the seam. With a limit below 1 the first call of each window still
      passes, so the bound counts it. */
  lemma AtMostTwiceTheLimit(calls: seq<int>, limit: int, window: int, a: int)
    requires InOrder(calls)
    ensures AllowedIn(calls, limit, window, a, a + window) <= 2 * Max(1, limit) - 1
  {
    if 0 < window {
      AlwaysBounded(calls, limit, window, a);
    } else {
      NothingInNothing(calls, limit, window, a, a + window);
    }
  }

  lemma {:induction false} NothingInNothing(calls: seq<int>, limit: int, window: int, from: int, to: int)
    requires to <= from
    ensures AllowedIn(calls, limit, window, from, to) == 0
    decreases |calls|
  {
    if calls != [] {
      NothingInNothing(calls[..|calls| - 1], limit, window, from, to);
    }
  }

  /** How many were allowed in the window that is current after the calls. */
  function AllowedNow(calls: seq<int>, limit: int, window: int): nat
    requires calls != []
  {
    var end := After(calls, window).value.expiresAt;
    AllowedIn(calls, limit, window, end - window, end)
  }

  /** Within the window that is current after the calls, at most `limit` were allowed; while nothing of it
      was refused that is every call counted. */
  lemma {:induction false} AtMostTheLimitPerWindow(calls: seq<int>, limit: int, window: int)
    requires InOrder(calls) && 0 < window && calls != []
    ensures var c := After(calls, window).value;
            && c.expiresAt - window <= calls[|calls| - 1] < c.expiresAt && 1 <= c.count
            && AllowedNow(calls, limit, window) == Min(c.count, Max(1, limit))
    decreases |calls|
  {
    var n := |calls| - 1;
    var before := calls[..n];
    var end := After(calls, window).value.expiresAt;
    assert AllowedNow(calls, limit, window) == AllowedIn(calls, limit, window, end - window, end);
    if before != [] {
      AtMostTheLimitPerWindow(before, limit, window);
      if Live(After(before, window), calls[n]).None? {
        NoneBeyond(before, limit, window, calls[n], calls[n] + window);
      }
    }
  }

  lemma {:induction false} NoneBeyond(calls: seq<int>, limit: int, window: int, from: int, to: int)
    requires InOrder(calls) && (calls != [] ==> calls[|calls| - 1] < from)
    ensures AllowedIn(calls, limit, window, from, to) == 0
    decreases |calls|
  {
    if calls != [] {
      NoneBeyond(calls[..|calls| - 1], limit, window, from, to);
    }
  }

  /** The documented limit is met exactly when it is at least 1: with 0 the first call still gets through. */
  lemma LimitMetIff(limit: int, window: int)
    requires 0 < window
    ensures (forall calls :: InOrder(calls) && calls != [] ==> AllowedNow(calls, limit, window) <= limit)
            <==> 1 <= limit
  {
    if 1 <= limit {
      forall calls | InOrder(calls) && calls != [] ensures AllowedNow(calls, limit, window) <= limit {
        AtMostTheLimitPerWindow(calls, limit, window);
      }
    } else {
      AtMostTheLimitPerWindow([0], limit, window);
    }
  }

  function Repeat(t: int, n: nat): seq<int> {
    if n == 0 then [] else [t] + Repeat(t, n - 1)
  }

  lemma OneMore(calls: seq<int>, t: int, limit: int, window: int, from: int, to: int)
    requires InOrder(calls) && (calls != [] ==> calls[|calls| - 1] <= t)
    ensures var c := Hit(After(calls, window), t, window);
            && InOrder(calls + [t]) && After(calls + [t], window) == Some(c)
            && AllowedIn(calls + [t], limit, window, from, to)
               == AllowedIn(calls, limit, window, from, to) + (if from <= t < to && Allowed(c, limit) then 1 else 0)
  {
    assert (calls + [t])[..|calls|] == calls;
  }

  /** n more calls at one moment of the current window are all allowed while it has room. */
  lemma {:induction false} Burst(calls: seq<int>, c: Counter, t: int, n: nat, limit: nat, window: int,
                                 from: int, to: int)
    requires InOrder(calls) && calls != [] && calls[|calls| - 1] <= t && from <= t < to
    requires After(calls, window) == Some(c) && t < c.expiresAt && c.count + n <= limit
    ensures var more := calls + Repeat(t, n);
            && InOrder(more) && more[|more| - 1] <= t
            && After(more, window) == Some(Counter(c.count + n, c.expiresAt))
            && AllowedIn(more, limit, window, from, to) == AllowedIn(calls, limit, window, from, to) + n
    decreases n
  {
    if n == 0 {
      assert calls + Repeat(t, 0) == calls;
    } else {
      OneMore(calls, t, limit, window, from, to);
      Burst(calls + [t], Counter(c.count + 1, c.expiresAt), t, n - 1, limit, window, from, to);
      assert calls + Repeat(t, n) == (calls + [t]) + Repeat(t, n - 1);
    }
  }

  lemma OneCall(t: int, limit: int, window: int, from: int, to: int)
    ensures InOrder([t]) && After([t], window) == Some(Counter(1, t + window))
    ensures AllowedIn([t], limit, window, from, to) == if from <= t < to then 1 else 0
  {
    var calls := [t];
    assert calls[..|calls| - 1] == [];
    assert After([], window).None?;
  }

  /** One early call, then the rest of the allowance just before the seam. */
  lemma BeforeSeam(window: int, limit: nat) returns (calls: seq<int>)
    requires 1 < window && 1 <= limit
    ensures InOrder(calls) && calls != [] && calls[|calls| - 1] < window
    ensures After(calls, window) == Some(Counter(limit, window))
    ensures AllowedIn(calls, limit, window, 1, 1 + window) == limit - 1
  {
    OneCall(0, limit, window, 1, 1 + window);
    Burst([0], Counter(1, window), window - 1, limit - 1, limit, window, 1, 1 + window);
    calls := [0] + Repeat(window - 1, limit - 1);
  }

  /** The bound is reached: after those calls a full allowance is spent just behind the seam. */
  lemma SeamIsReached(window: int, limit: nat) returns (calls: seq<int>)
    requires 1 < window && 1 <= limit
    ensures InOrder(calls) && AllowedIn(calls, limit, window, 1, 1 + window) == 2 * limit - 1
  {
    var first := BeforeSeam(window, limit);
    OneMore(first, window, limit, window, 1, 1 + window);
    Burst(first + [window], Counter(1, 2 * window), window, limit - 1, limit, window, 1, 1 + window);
    calls := (first + [window]) + Repeat(window, limit - 1);
  }
}
