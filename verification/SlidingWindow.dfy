/** The rate limiter that guards rejoins and migrations
    (internal/ratelimit/sliding_window.go): at most `limit` events in any period of
    length `window`. */
module SlidingWindow {

  // ---- what the limiter computes ----

  /** Drop the leading events at or before the cutoff. */
  function Evict(events: seq<int>, cutoff: int): seq<int> {
    if events == [] || events[0] > cutoff then events else Evict(events[1..], cutoff)
  }

  datatype Admission = Admission(ok: bool, events: seq<int>)

  /** Allow, with its two readings of the clock. A limit of zero or less allows
      everything and records nothing. */
  function Admit(limit: int, window: int, events: seq<int>, now: int, stamp: int): Admission {
    if limit <= 0 then Admission(true, events)
    else
      var live := Evict(events, now - window);
      if |live| >= limit then Admission(false, live) else Admission(true, live + [stamp])
  }

  // ---- the reference: every grant since the last reset ----

  ghost predicate Sorted(s: seq<int>) { forall i, j :: 0 <= i < j < |s| ==> s[i] <= s[j] }

  /** How many of s lie in (low, high]. */
  function Within(s: seq<int>, low: int, high: int): nat {
    if s == [] then 0 else (if low < s[0] <= high then 1 else 0) + Within(s[1..], low, high)
  }

  /** How many of s lie in the window that ends at t. */
  function InWindow(s: seq<int>, window: int, t: int): nat { Within(s, t - window, t) }

  /** Events is what is left of the grants, and whatever was forgotten is at least a
      window older than the clock. */
  ghost predicate Tracks(events: seq<int>, grants: seq<int>, window: int, clock: int) {
    && Sorted(grants)
    && (forall i :: 0 <= i < |grants| ==> grants[i] <= clock)
    && |events| <= |grants|
    && events == grants[|grants| - |events|..]
    && (forall i :: 0 <= i < |grants| - |events| ==> grants[i] <= clock - window)
  }

  /** Grants that are `limit` apart in number are a window apart in time. */
  ghost predicate Spaced(grants: seq<int>, limit: int, window: int) {
    limit > 0 ==> forall i, j :: 0 <= i && j == i + limit < |grants| ==> grants[j] - grants[i] >= window
  }

  // ---- eviction ----

  lemma {:induction false} EvictSuffix(events: seq<int>, cutoff: int)
    requires Sorted(events)
    ensures |Evict(events, cutoff)| <= |events|
    ensures Evict(events, cutoff) == events[|events| - |Evict(events, cutoff)|..]
    ensures forall i :: 0 <= i < |events| ==> (events[i] > cutoff <==> i >= |events| - |Evict(events, cutoff)|)
    decreases |events|
  {
    if events != [] && events[0] <= cutoff {
      var rest := events[1..];
      EvictSuffix(rest, cutoff);
      var k := |rest| - |Evict(rest, cutoff)|;
      assert Evict(events, cutoff) == Evict(rest, cutoff);
      assert rest[k..] == events[k + 1..];
      forall i | 0 <= i < |events| ensures events[i] > cutoff <==> i >= k + 1 {
        if i > 0 { assert events[i] == rest[i - 1]; }
      }
    }
  }

  lemma {:induction false} EvictAll(events: seq<int>, cutoff: int)
    requires forall i :: 0 <= i < |events| ==> events[i] <= cutoff
    ensures Evict(events, cutoff) == []
    decreases |events|
  {
    if events != [] { EvictAll(events[1..], cutoff); }
  }

  lemma {:induction false} WithinSuffix(s: seq<int>, low: int, high: int, k: nat)
    requires k <= |s|
    requires forall i :: 0 <= i < |s| ==> s[i] <= high && (s[i] > low <==> i >= k)
    ensures Within(s, low, high) == |s| - k
    decreases |s|
  {
    if s != [] {
      WithinSuffix(s[1..], low, high, if k == 0 then 0 else k - 1);
    }
  }

  /** Eviction leaves the grants after its cutoff, and no others. */
  lemma LiveSuffix(window: int, events: seq<int>, grants: seq<int>, clock: int, now: int)
    requires Tracks(events, grants, window, clock) && clock <= now
    ensures var live := Evict(events, now - window);
            && |live| <= |events| && live == grants[|grants| - |live|..]
            && forall i :: 0 <= i < |grants| ==> (grants[i] > now - window <==> i >= |grants| - |live|)
  {
    hide Evict;
    var k := |grants| - |events|;
    var live := Evict(events, now - window);
    EvictSuffix(events, now - window);
    forall i | 0 <= i < |grants| ensures grants[i] > now - window <==> i >= |grants| - |live| {
      if i >= k { assert events[i - k] == grants[i]; }
    }
    SuffixOfSuffix(grants, k, |events| - |live|);
  }

  lemma SuffixOfSuffix(s: seq<int>, j: nat, k: nat)
    requires j + k <= |s|
    ensures s[j..][k..] == s[j + k..]
  {
  }

  lemma LiveTracked(window: int, events: seq<int>, grants: seq<int>, clock: int, now: int)
    requires Tracks(events, grants, window, clock) && clock <= now
    ensures Tracks(Evict(events, now - window), grants, window, now)
  {
    hide Evict;
    LiveSuffix(window, events, grants, clock, now);
  }

  lemma LiveCount(window: int, events: seq<int>, grants: seq<int>, clock: int, now: int)
    requires Tracks(events, grants, window, clock) && clock <= now
    ensures |Evict(events, now - window)| == InWindow(grants, window, now)
  {
    hide Evict, Within;
    LiveSuffix(window, events, grants, clock, now);
    WithinSuffix(grants, now - window, now, |grants| - |Evict(events, now - window)|);
  }

  /** What eviction leaves is what the whole history has in the window. */
  lemma LiveGrants(window: int, events: seq<int>, grants: seq<int>, clock: int, now: int)
    requires Tracks(events, grants, window, clock) && clock <= now
    ensures var live := Evict(events, now - window);
            && Tracks(live, grants, window, now)
            && |live| == InWindow(grants, window, now)
  {
    hide Evict, Tracks, InWindow;
    LiveTracked(window, events, grants, clock, now);
    LiveCount(window, events, grants, clock, now);
  }

  lemma RecordKeeps(limit: int, window: int, live: seq<int>, grants: seq<int>, now: int, stamp: int)
    requires Tracks(live, grants, window, now) && now <= stamp && |live| < limit
    requires Spaced(grants, limit, window)
    ensures Tracks(live + [stamp], grants + [stamp], window, stamp)
    ensures Spaced(grants + [stamp], limit, window)
  {
    var more := grants + [stamp];
    assert live + [stamp] == more[|grants| - |live|..];
    forall i, j | 0 <= i && j == i + limit < |more| ensures more[j] - more[i] >= window {
      if j == |grants| {
        assert i < |grants| - |live|;
        assert grants[i] <= now - window;
      }
    }
  }

  /** The pruned list decides exactly as the whole history would: a request is granted
      if and only if fewer than `limit` grants lie in the window that ends now; and the
      grants stay spaced. */
  lemma AdmitRefines(limit: int, window: int, events: seq<int>, grants: seq<int>, clock: int, now: int, stamp: int)
    requires Tracks(events, grants, window, clock) && clock <= now <= stamp
    requires limit > 0 && Spaced(grants, limit, window)
    ensures var a := Admit(limit, window, events, now, stamp);
            && (a.ok <==> InWindow(grants, window, now) < limit)
            && (a.ok ==> Tracks(a.events, grants + [stamp], window, stamp))
            && (a.ok ==> Spaced(grants + [stamp], limit, window))
            && (!a.ok ==> Tracks(a.events, grants, window, now))
  {
    hide Tracks, Spaced, Evict, InWindow;
    LiveGrants(window, events, grants, clock, now);
    var live := Evict(events, now - window);
    if |live| < limit {
      RecordKeeps(limit, window, live, grants, now, stamp);
    }
  }

  // ---- the documented promise ----

  lemma {:induction false} WithinRun(s: seq<int>, low: int, high: int, i: nat, j: nat)
    requires Sorted(s) && i <= j < |s| && low < s[i] && s[j] <= high
    ensures Within(s, low, high) >= j - i + 1
    decreases |s|
  {
    var rest := s[1..];
    assert forall a :: 0 <= a < |rest| ==> rest[a] == s[a + 1];
    if i > 0 {
      WithinRun(rest, low, high, i - 1, j - 1);
    } else if j > 0 {
      assert low < s[0] <= s[1];
      WithinRun(rest, low, high, 0, j - 1);
    }
  }

  lemma {:induction false} WithinAtMost(s: seq<int>, low: int, high: int, n: nat)
    requires Sorted(s)
    requires forall i, j :: 0 <= i && j == i + n < |s| ==> !(low < s[i] && s[j] <= high)
    ensures Within(s, low, high) <= n
    decreases |s|
  {
    if s != [] {
      var rest := s[1..];
      assert forall a :: 0 <= a < |rest| ==> rest[a] == s[a + 1];
      if low < s[0] <= high {
        if |s| <= n {
          WithinLength(s, low, high);
        } else {
          assert s[0 + n] > high;
          WithinFirst(s, low, high, n);
        }
      } else {
        forall i, j | 0 <= i && j == i + n < |rest| ensures !(low < rest[i] && rest[j] <= high) {
          assert rest[i] == s[i + 1] && rest[j] == s[j + 1];
        }
        WithinAtMost(rest, low, high, n);
      }
    }
  }

  lemma {:induction false} WithinLength(s: seq<int>, low: int, high: int)
    ensures Within(s, low, high) <= |s|
    decreases |s|
  {
    if s != [] { WithinLength(s[1..], low, high); }
  }

  lemma {:induction false} WithinFirst(s: seq<int>, low: int, high: int, n: nat)
    requires Sorted(s) && n < |s| && s[n] > high
    ensures Within(s, low, high) <= n
    decreases |s|
  {
    var rest := s[1..];
    assert forall a :: 0 <= a < |rest| ==> rest[a] == s[a + 1];
    if n > 0 {
      WithinFirst(rest, low, high, n - 1);
    } else if rest != [] {
      assert s[0] <= s[1];
      WithinFirst(rest, low, high, 0);
    }
  }

  /** Spacing is exactly the promise: no period of length `window`, wherever it lies,
      holds more than `limit` grants. */
  lemma SpacedIff(grants: seq<int>, limit: int, window: int)
    requires Sorted(grants) && limit > 0
    ensures Spaced(grants, limit, window) <==> forall t :: InWindow(grants, window, t) <= limit
  {
    if Spaced(grants, limit, window) {
      forall t ensures InWindow(grants, window, t) <= limit {
        WithinAtMost(grants, t - window, t, limit);
      }
    } else {
      var i, j :| 0 <= i && j == i + limit < |grants| && grants[j] - grants[i] < window;
      WithinRun(grants, grants[j] - window, grants[j], i, j);
      assert InWindow(grants, window, grants[j]) > limit;
    }
  }

  // ---- the class ----

  class Limiter {
    const limit: int
    const window: int
    var events: seq<int>

    /** Every grant since the last reset, and the last reading of the clock. */
    ghost var grants: seq<int>
    ghost var clock: int

    ghost predicate Valid()
      reads this
    {
      limit > 0 ==> Tracks(events, grants, window, clock) && Spaced(grants, limit, window)
    }

    constructor (limit: int, window: int)
      ensures Valid() && this.limit == limit && this.window == window
      ensures events == [] && grants == [] && clock == 0
    {
      this.limit, this.window := limit, window;
      events, grants, clock := [], [], 0;
    }

    method EvictLocked(now: int)
      modifies this`events
      ensures events == Evict(old(events), now - window)
    {
      var cutoff := now - window;
      var keep := 0;
      while keep < |events| && events[keep] <= cutoff
        invariant 0 <= keep <= |events|
        invariant Evict(events[keep..], cutoff) == Evict(events, cutoff)
      {
        assert events[keep..][1..] == events[keep + 1..];
        keep := keep + 1;
      }
      if keep > 0 {
        events := events[keep..];
      }
    }

    /** Granted exactly when fewer than `limit` of all grants lie in the window. */
    method Allow(now: int, stamp: int) returns (ok: bool)
      requires Valid() && clock <= now <= stamp
      modifies this
      ensures Valid() && clock == if ok then stamp else now
      ensures Admission(ok, events) == Admit(limit, window, old(events), now, stamp)
      ensures limit <= 0 ==> ok && grants == old(grants)
      ensures limit > 0 ==> (ok <==> InWindow(old(grants), window, now) < limit)
      ensures limit > 0 ==> grants == if ok then old(grants) + [stamp] else old(grants)
    {
      hide Tracks, Spaced, Evict, InWindow;
      clock := stamp;
      if limit <= 0 { return true; }
      AdmitRefines(limit, window, events, grants, old(clock), now, stamp);
      EvictLocked(now);
      if |events| >= limit {
        clock := now;
        return false;
      }
      events := events + [stamp];
      grants := grants + [stamp];
      ok := true;
    }

    /** How many more would be allowed now; -1 without a limit. */
    method Remaining(now: int) returns (n: int)
      requires Valid() && clock <= now
      modifies this
      ensures Valid() && clock == now && grants == old(grants)
      ensures limit <= 0 ==> n == -1
      ensures limit > 0 ==>
              n == if InWindow(grants, window, now) < limit then limit - InWindow(grants, window, now) else 0
      ensures n != 0 <==> Admit(limit, window, old(events), now, now).ok
    {
      hide Tracks, Spaced, Evict, InWindow;
      clock := now;
      if limit <= 0 { return -1; }
      LiveGrants(window, events, grants, old(clock), now);
      EvictLocked(now);
      n := 0;
      if limit - |events| > 0 { n := limit - |events|; }
    }

    method Reset()
      modifies this`events, this`grants
      ensures Valid() && events == [] && grants == []
    {
      events, grants := [], [];
    }
  }
}
