/** The per-key sliding-window limiter in front of costly inspections. */
module RateLimiter {
  datatype Attempt = Attempt(key: string, now: real)

  type Calls = map<string, seq<real>>

  /** The calls younger than the window, in order. */
  function Recent(bucket: seq<real>, now: real, window: real): seq<real> {
    if bucket == [] then []
    else
      var n := |bucket| - 1;
      Recent(bucket[..n], now, window) + (if now - bucket[n] < window then [bucket[n]] else [])
  }

  function Bucket(calls: Calls, key: string): seq<real> {
    if key in calls then calls[key] else []
  }

  function Allowed(calls: Calls, max: int, window: real, a: Attempt): bool {
    |Recent(Bucket(calls, a.key), a.now, window)| < max
  }

  function After(calls: Calls, max: int, window: real, a: Attempt): Calls {
    var bucket := Recent(Bucket(calls, a.key), a.now, window);
    calls[a.key := if Allowed(calls, max, window, a) then bucket + [a.now] else bucket]
  }

  class Limiter {
    const max: int
    const window: real
    var calls: Calls

    constructor (max: int := 100, window: real := 60.0)
      ensures this.max == max && this.window == window && calls == map[]
    {
      this.max, this.window, calls := max, window, map[];
    }

    method Allow(key: string, now: real) returns (ok: bool)
      modifies this`calls
      ensures ok == Allowed(old(calls), max, window, Attempt(key, now))
      ensures calls == After(old(calls), max, window, Attempt(key, now))
    {
      var all := if key in calls then calls[key] else [];
      var bucket := [];
      for i := 0 to |all|
        invariant bucket == Recent(all[..i], now, window)
      {
        assert all[..i + 1][..i] == all[..i];
        if now - all[i] < window {
          bucket := bucket + [all[i]];
        }
      }
      assert all[..|all|] == all;
      if |bucket| >= max {
        calls := calls[key := bucket];
        return false;
      }
      bucket := bucket + [now];
      calls := calls[key := bucket];
      return true;
    }
  }

  // ---------- Whole runs ----------

  function Run(max: int, window: real, attempts: seq<Attempt>): Calls {
    if attempts == [] then map[]
    else
      var n := |attempts| - 1;
      After(Run(max, window, attempts[..n]), max, window, attempts[n])
  }

  /** Whether the limiter allowed attempt `i` of a run. */
  function AllowedAt(max: int, window: real, attempts: seq<Attempt>, i: nat): bool
    requires i < |attempts|
  {
    Allowed(Run(max, window, attempts[..i]), max, window, attempts[i])
  }

  /** The times of all calls that a run allowed for a key. */
  function Granted(max: int, window: real, attempts: seq<Attempt>, key: string): seq<real> {
    if attempts == [] then []
    else
      var n := |attempts| - 1;
      Granted(max, window, attempts[..n], key) +
      (if attempts[n].key == key && AllowedAt(max, window, attempts, n) then [attempts[n].now] else [])
  }

  /** How many times lie in the window `(t - window, t]`. */
  function InWindow(ts: seq<real>, t: real, window: real): nat {
    if ts == [] then 0
    else
      var n := |ts| - 1;
      InWindow(ts[..n], t, window) + (if t - window < ts[n] && ts[n] <= t then 1 else 0)
  }

  predicate InOrder(attempts: seq<Attempt>) {
    forall i, j :: 0 <= i < j < |attempts| ==> attempts[i].now <= attempts[j].now
  }

  lemma {:induction false} RecentTwice(ts: seq<real>, now: real, later: real, window: real)
    requires now <= later
    ensures Recent(Recent(ts, now, window), later, window) == Recent(ts, later, window)
  {
    if ts != [] {
      var n := |ts| - 1;
      RecentTwice(ts[..n], now, later, window);
      var r := Recent(ts[..n], now, window);
      assert now - ts[n] < window ==> (r + [ts[n]])[..|r|] == r;
      assert r + [] == r && Recent(ts[..n], later, window) + [] == Recent(ts[..n], later, window);
    }
  }

  lemma {:induction false} RecentSnoc(ts: seq<real>, t: real, now: real, window: real)
    ensures Recent(ts + [t], now, window) == Recent(ts, now, window) + (if now - t < window then [t] else [])
  {
    assert (ts + [t])[..|ts|] == ts;
  }

  /** The stored bucket is enough: pruning it at any later moment leaves what pruning all granted calls leaves. */
  lemma {:induction false} BucketIsEnough(max: int, window: real, attempts: seq<Attempt>, key: string, now: real)
    requires InOrder(attempts) && (attempts == [] || attempts[|attempts| - 1].now <= now)
    ensures Recent(Bucket(Run(max, window, attempts), key), now, window) ==
      Recent(Granted(max, window, attempts, key), now, window)
  {
    if attempts != [] {
      var n := |attempts| - 1;
      var a, before := attempts[n], attempts[..n];
      if n > 0 { assert attempts[n - 1].now <= attempts[n].now; }
      var g, b := Granted(max, window, before, key), Bucket(Run(max, window, before), key);
      BucketIsEnough(max, window, before, key, now);
      if a.key == key {
        RecentTwice(b, a.now, now, window);
        RecentSnoc(Recent(b, a.now, window), a.now, now, window);
        RecentSnoc(g, a.now, now, window);
      }
      assert g + [] == g;
      hide Recent, InOrder;
    }
  }

  predicate AllBy(ts: seq<real>, now: real) {
    forall i :: 0 <= i < |ts| ==> ts[i] <= now
  }

  lemma {:induction false} GrantedBefore(max: int, window: real, attempts: seq<Attempt>, key: string, now: real)
    requires forall i :: 0 <= i < |attempts| ==> attempts[i].now <= now
    ensures AllBy(Granted(max, window, attempts, key), now)
  {
    if attempts != [] {
      GrantedBefore(max, window, attempts[..|attempts| - 1], key, now);
      hide AllowedAt;
    }
  }

  /** Seen from `now`, the recent calls are those in the window; a later window holds no more of them. */
  lemma {:induction false} RecentIsWindow(ts: seq<real>, now: real, t: real, window: real)
    requires AllBy(ts, now) && now <= t
    ensures |Recent(ts, now, window)| == InWindow(ts, now, window) >= InWindow(ts, t, window)
  {
    if ts != [] { RecentIsWindow(ts[..|ts| - 1], now, t, window); }
  }

  /** An attempt is allowed exactly when fewer than the maximum of allowed calls lie in the window that ends with it. */
  lemma {:induction false} AllowedIff(max: int, window: real, attempts: seq<Attempt>, i: nat)
    requires InOrder(attempts) && i < |attempts|
    ensures AllowedAt(max, window, attempts, i) <==>
            InWindow(Granted(max, window, attempts[..i], attempts[i].key), attempts[i].now, window) < max
  {
    var before, a := attempts[..i], attempts[i];
    assert i > 0 ==> attempts[i - 1].now <= attempts[i].now;
    BucketIsEnough(max, window, before, a.key, a.now);
    GrantedBefore(max, window, before, a.key, a.now);
    RecentIsWindow(Granted(max, window, before, a.key), a.now, a.now, window);
  }

  lemma {:induction false} OneMoreInWindow(ts: seq<real>, now: real, t: real, window: real)
    ensures InWindow(ts + [now], t, window) == InWindow(ts, t, window) + (if t - window < now && now <= t then 1 else 0)
  {
    assert (ts + [now])[..|ts|] == ts;
  }

  /** In every run with a clock that does not run backwards, every window `(t - window, t]` holds at most the
      maximum of allowed calls. */
  lemma {:induction false} NeverOverMaximum(max: nat, window: real, attempts: seq<Attempt>, key: string, t: real)
    requires InOrder(attempts)
    ensures InWindow(Granted(max, window, attempts, key), t, window) <= max
  {
    if attempts != [] {
      var n := |attempts| - 1;
      var a, g := attempts[n], Granted(max, window, attempts[..n], key);
      NeverOverMaximum(max, window, attempts[..n], key, t);
      AllowedIff(max, window, attempts, n);
      GrantedBefore(max, window, attempts[..n], key, a.now);
      if n > 0 { assert attempts[n - 1].now <= attempts[n].now; }
      if a.now <= t { RecentIsWindow(g, a.now, t, window); }
      OneMoreInWindow(g, a.now, t, window);
      assert g + [] == g;
      assert Granted(max, window, attempts, key) ==
             if a.key == key && AllowedAt(max, window, attempts, n) then g + [a.now] else g;
      hide AllowedAt, Recent, InOrder, InWindow, Granted, AllBy;
    }
  }
}
