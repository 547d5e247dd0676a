/** Attack failover: a per-client sliding window of attacks, with blocking of the source and a provider
    override once enough attacks fall into it. */
module AttackWindow {
  import opened Wrappers

  datatype Failover = Failover(enabled: bool, count: nat, window: nat, minSeverity: string, switchTo: Option<string>,
                               blockSource: bool, blockTtl: nat, cooldown: nat)

  function SeverityRank(name: string): nat {
    if name == "medium" then 1 else if name == "high" then 2 else if name == "critical" then 3 else 0
  }

  /** Recent attacks per client, until when each client is blocked, and the override with its end. */
  datatype Alarms = Alarms(times: map<string, seq<real>>, blocked: map<string, real>, override: Option<(string, real)>)

  const QUIET := Alarms(map[], map[], None)

  datatype Attack = Attack(severity: string, client: string, now: real)

  function Qualifies(f: Failover, severity: string): bool {
    f.enabled && SeverityRank(severity) >= SeverityRank(f.minSeverity)
  }

  /** The times not older than `from`, in order. */
  function Since(ts: seq<real>, from: real): seq<real> {
    if ts == [] then []
    else if ts[|ts| - 1] >= from then Since(ts[..|ts| - 1], from) + [ts[|ts| - 1]]
    else Since(ts[..|ts| - 1], from)
  }

  function TimesOf(a: Alarms, client: string): seq<real> {
    if client in a.times then a.times[client] else []
  }

  /** What one detected attack does. */
  function Detected(f: Failover, a: Alarms, e: Attack): Alarms {
    if !Qualifies(f, e.severity) then a
    else
      var entry := Since(TimesOf(a, e.client), e.now - f.window as real) + [e.now];
      if |entry| < f.count then a.(times := a.times[e.client := entry])
      else
        Alarms(a.times[e.client := []],
               if f.blockSource && e.client != "" then a.blocked[e.client := e.now + f.blockTtl as real] else a.blocked,
               if f.switchTo.Some? then Some((f.switchTo.value, e.now + f.cooldown as real)) else a.override)
  }

  function DetectedAll(f: Failover, a: Alarms, es: seq<Attack>): Alarms {
    if es == [] then a else Detected(f, DetectedAll(f, a, es[..|es| - 1]), es[|es| - 1])
  }

  predicate IsBlocked(a: Alarms, client: string, now: real) {
    (if client in a.blocked then a.blocked[client] else 0.0) > now
  }

  predicate OverrideActive(a: Alarms, now: real) {
    a.override.Some? && now < a.override.value.1
  }

  const SEVERITIES := ["low", "medium", "high", "critical"]

  /** An attack qualifies when failover is on and its severity is at least the configured one; unknown names count
      as the lowest. */
  lemma {:induction false} QualifiesIff(f: Failover, severity: string, i: nat, j: nat)
    requires i < 4 && j < 4 && f.minSeverity == SEVERITIES[j]
    requires severity == SEVERITIES[i] || (severity !in SEVERITIES && i == 0)
    ensures Qualifies(f, severity) <==> f.enabled && j <= i
  {
    assert forall k :: 0 <= k < 4 ==> SEVERITIES[k] in SEVERITIES;
    assert SEVERITIES[0] == "low" && SEVERITIES[1] == "medium" && SEVERITIES[2] == "high";
    assert SEVERITIES[3] == "critical";
  }

  /** Pruning keeps exactly the times from `from` on, as often and in the order in which they came. */
  lemma {:induction false} SinceKeeps(ts: seq<real>, us: seq<real>, from: real, t: real)
    ensures multiset(Since(ts, from))[t] == if t >= from then multiset(ts)[t] else 0
    ensures Since(ts + us, from) == Since(ts, from) + Since(us, from)
  {
    SinceSplits(ts, us, from);
    SinceCounts(ts, from, t);
  }

  lemma {:induction false} SinceSplits(ts: seq<real>, us: seq<real>, from: real)
    ensures Since(ts + us, from) == Since(ts, from) + Since(us, from)
  {
    if us == [] {
      assert ts + us == ts && Since(ts, from) + [] == Since(ts, from);
    } else {
      var n := |us| - 1;
      SinceSplits(ts, us[..n], from);
      assert (ts + us)[..|ts + us| - 1] == ts + us[..n];
    }
  }

  lemma {:induction false} SinceCounts(ts: seq<real>, from: real, t: real)
    ensures multiset(Since(ts, from))[t] == if t >= from then multiset(ts)[t] else 0
  {
    if ts != [] {
      var n := |ts| - 1;
      SinceCounts(ts[..n], from, t);
      assert ts == ts[..n] + [ts[n]];
    }
  }

  // ---------- The same, told from the whole history ----------

  /** The qualifying attack times of one client. */
  function History(f: Failover, es: seq<Attack>, client: string): seq<real> {
    if es == [] then []
    else
      var e := es[|es| - 1];
      History(f, es[..|es| - 1], client) + (if e.client == client && Qualifies(f, e.severity) then [e.now] else [])
  }

  /** How much of a client's history the latest trigger used up (0: never triggered). An attack triggers when
      enough attacks since the previous trigger are no older than the window. */
  function UsedUp(f: Failover, h: seq<real>): (n: nat)
    ensures n <= |h|
  {
    if h == [] then 0
    else
      var k := |h| - 1;
      var b := UsedUp(f, h[..k]);
      if |Since(h[b..], h[k] - f.window as real)| >= f.count then |h| else b
  }

  predicate Triggers(f: Failover, h: seq<real>) {
    h != [] && UsedUp(f, h) == |h|
  }

  /** The attacks that still count: those since the latest trigger, no older than the window. */
  function StillCounting(f: Failover, h: seq<real>): seq<real> {
    if h == [] then [] else Since(h[UsedUp(f, h)..], h[|h| - 1] - f.window as real)
  }

  /** Until when a client's history blocks it. */
  function BlockedUntil(f: Failover, h: seq<real>): Option<real> {
    if UsedUp(f, h) == 0 then None else Some(h[UsedUp(f, h) - 1] + f.blockTtl as real)
  }

  /** The override set by the latest trigger of any client. */
  function LatestOverride(f: Failover, es: seq<Attack>): Option<(string, real)> {
    if es == [] || f.switchTo.None? then None
    else
      var e := es[|es| - 1];
      if Qualifies(f, e.severity) && Triggers(f, History(f, es, e.client))
        then Some((f.switchTo.value, e.now + f.cooldown as real))
      else LatestOverride(f, es[..|es| - 1])
  }

  predicate Ascending(ts: seq<real>) {
    forall i, j :: 0 <= i < j < |ts| ==> ts[i] <= ts[j]
  }

  predicate InOrder(es: seq<Attack>) {
    forall i, j :: 0 <= i < j < |es| ==> es[i].now <= es[j].now
  }

  // ---------- The same, pruned attack by attack ----------

  /** A list as the next attack finds and extends it. */
  function Extended(f: Failover, list: seq<real>, now: real): seq<real> {
    Since(list, now - f.window as real) + [now]
  }

  /** A client's list after a history of attacks, pruned at each of them and emptied at each trigger. */
  function KeptList(f: Failover, h: seq<real>): seq<real> {
    if h == [] then []
    else
      var k := |h| - 1;
      var entry := Extended(f, KeptList(f, h[..k]), h[k]);
      if |entry| < f.count then entry else []
  }

  function KeptUntil(f: Failover, h: seq<real>): Option<real> {
    if h == [] then None
    else
      var k := |h| - 1;
      if |Extended(f, KeptList(f, h[..k]), h[k])| < f.count then KeptUntil(f, h[..k])
        else Some(h[k] + f.blockTtl as real)
  }

  function BlockOf(a: Alarms, client: string): Option<real> {
    if client in a.blocked then Some(a.blocked[client]) else None
  }

  /** What the engine stores for a client is told by that client's own attacks. */
  ghost predicate Stores(f: Failover, a: Alarms, h: seq<real>, client: string) {
    && TimesOf(a, client) == KeptList(f, h)
    && BlockOf(a, client) == (if f.blockSource && client != "" then KeptUntil(f, h) else None)
  }

  /** History of one more attack. */
  lemma {:induction false} OneMore(f: Failover, es: seq<Attack>, e: Attack, client: string)
    ensures History(f, es + [e], client) ==
            if e.client == client && Qualifies(f, e.severity) then History(f, es, client) + [e.now]
              else History(f, es, client)
  {
    assert (es + [e])[..|es|] == es;
    assert History(f, es, client) + [] == History(f, es, client);
  }

  lemma {:induction false} KeptSnoc(f: Failover, h: seq<real>, now: real)
    ensures var h', entry := h + [now], Extended(f, KeptList(f, h), now);
      && KeptList(f, h') == (if |entry| < f.count then entry else [])
      && KeptUntil(f, h') == (if |entry| < f.count then KeptUntil(f, h) else Some(now + f.blockTtl as real))
  {
    hide Extended;
    assert (h + [now])[..|h|] == h;
  }

  lemma {:induction false} OneStored(f: Failover, a: Alarms, h: seq<real>, e: Attack, client: string)
    requires Stores(f, a, h, client)
    ensures var h' := if e.client == client && Qualifies(f, e.severity) then h + [e.now] else h;
      Stores(f, Detected(f, a, e), h', client)
  {
    hide Since, Qualifies, KeptList, KeptUntil;
    KeptSnoc(f, h, e.now);
  }

  lemma {:induction false} EngineStores(f: Failover, es: seq<Attack>, client: string)
    ensures Stores(f, DetectedAll(f, QUIET, es), History(f, es, client), client)
  {
    if es != [] {
      var n := |es| - 1;
      EngineStores(f, es[..n], client);
      OneMore(f, es[..n], es[n], client);
      assert es == es[..n] + [es[n]];
      hide Stores, Detected, History;
      OneStored(f, DetectedAll(f, QUIET, es[..n]), History(f, es[..n], client), es[n], client);
    }
  }

  /** The attacks of one client only. */
  function Only(es: seq<Attack>, client: string): seq<Attack> {
    if es == [] then []
    else
      var e := es[|es| - 1];
      Only(es[..|es| - 1], client) + (if e.client == client then [e] else [])
  }

  lemma {:induction false} OnlyKeepsHistory(f: Failover, es: seq<Attack>, client: string)
    ensures History(f, Only(es, client), client) == History(f, es, client)
  {
    if es != [] {
      var n := |es| - 1;
      OnlyKeepsHistory(f, es[..n], client);
      var o := Only(es[..n], client);
      assert o + [] == o && es[..n] + [es[n]] == es;
      OneMore(f, o, es[n], client);
      OneMore(f, es[..n], es[n], client);
      hide History, Qualifies;
    }
  }

  /** Isolation: a client's list and block are what they would be had nobody else ever attacked, whatever the
      clock does. */
  lemma {:induction false} ClientsAreIsolated(f: Failover, es: seq<Attack>, client: string)
    ensures var all, own := DetectedAll(f, QUIET, es), DetectedAll(f, QUIET, Only(es, client));
      && TimesOf(all, client) == TimesOf(own, client)
      && (forall now :: IsBlocked(all, client, now) <==> IsBlocked(own, client, now))
  {
    OnlyKeepsHistory(f, es, client);
    EngineStores(f, es, client);
    EngineStores(f, Only(es, client), client);
    hide DetectedAll, History, KeptList, KeptUntil, Only;
  }

  // ---------- When pruning loses nothing ----------

  /** Attack `i` pushes attack `j` out of the window, and the next attack would have it inside again. */
  predicate Reenters(window: nat, h: seq<real>, j: nat, i: nat)
    requires j < i && i + 1 < |h|
  {
    h[i + 1] - h[j] <= window as real < h[i] - h[j]
  }

  predicate Steady(window: nat, h: seq<real>) {
    forall j: nat, i: nat :: j < i && i + 1 < |h| ==> !Reenters(window, h, j, i)
  }

  /** Pruning first what is pruned later anyway changes nothing. */
  lemma {:induction false} SinceTwice(ts: seq<real>, early: real, late: real)
    requires forall i :: 0 <= i < |ts| && ts[i] < early ==> ts[i] < late
    ensures Since(Since(ts, early), late) == Since(ts, late)
  {
    if ts != [] {
      var n := |ts| - 1;
      SinceTwice(ts[..n], early, late);
      if ts[n] >= early {
        var s := Since(ts[..n], early);
        assert (s + [ts[n]])[..|s|] == s;
      }
    }
  }

  /** Otherwise something is lost. */
  lemma {:induction false} SinceLoses(ts: seq<real>, early: real, late: real)
    ensures |Since(Since(ts, early), late)| <= |Since(ts, late)| <= |ts|
    ensures (exists i :: 0 <= i < |ts| && late <= ts[i] < early) ==> |Since(Since(ts, early), late)| < |Since(ts, late)|
  {
    if ts != [] {
      var n := |ts| - 1;
      SinceLoses(ts[..n], early, late);
      assert forall i :: 0 <= i < n ==> ts[..n][i] == ts[i];
      if ts[n] >= early {
        var s := Since(ts[..n], early);
        assert (s + [ts[n]])[..|s|] == s;
      }
    }
  }

  lemma {:induction false} PrunedAgain(f: Failover, h: seq<real>, b: nat, now: real)
    requires Steady(f.window, h + [now]) && h != [] && b <= |h|
    ensures Since(Since(h[b..], h[|h| - 1] - f.window as real), now - f.window as real) ==
      Since(h[b..], now - f.window as real)
  {
    var h', i, ts := h + [now], |h| - 1, h[b..];
    forall j | 0 <= j < |ts| && ts[j] < h[i] - f.window as real ensures ts[j] < now - f.window as real {
      assert h'[b + j] == ts[j] && h'[i] == h[i] && h'[i + 1] == now && b + j < i;
      assert !Reenters(f.window, h', b + j, i);
    }
    hide Since;
    SinceTwice(ts, h[i] - f.window as real, now - f.window as real);
  }

  /** One attack, on a list that was pruned at the previous one. */
  lemma {:induction false} PrunedStep(f: Failover, h: seq<real>, now: real)
    requires Steady(f.window, h + [now])
    ensures var entry := Extended(f, StillCounting(f, h), now);
      && (|entry| >= f.count <==> Triggers(f, h + [now]))
      && (|entry| < f.count ==> StillCounting(f, h + [now]) == entry && UsedUp(f, h + [now]) == UsedUp(f, h))
  {
    hide Since, Steady;
    var h', b := h + [now], UsedUp(f, h);
    if h != [] { PrunedAgain(f, h, b, now); } else { SinceNothing(now - f.window as real); }
    SinceTail(h, b, now, now - f.window as real);
    assert h'[..|h|] == h;
  }

  lemma {:induction false} SinceNothing(from: real)
    ensures Since([], from) == []
  {
  }

  lemma {:induction false} SinceTail(h: seq<real>, b: nat, now: real, from: real)
    requires b <= |h| && from <= now
    ensures Since((h + [now])[b..], from) == Since(h[b..], from) + [now]
  {
    var tail := (h + [now])[b..];
    assert tail[..|tail| - 1] == h[b..] && tail[|tail| - 1] == now;
  }

  lemma {:induction false} AfterStep(f: Failover, h: seq<real>, now: real)
    ensures var h' := h + [now];
      && (Triggers(f, h') ==> StillCounting(f, h') == [] && BlockedUntil(f, h') == Some(now + f.blockTtl as real))
      && (UsedUp(f, h') == UsedUp(f, h) ==> BlockedUntil(f, h') == BlockedUntil(f, h))
  {
    var h' := h + [now];
    hide UsedUp;
    if Triggers(f, h') { assert h'[|h'|..] == []; }
  }

  lemma {:induction false} OneMoreKept(f: Failover, h: seq<real>, now: real)
    requires Steady(f.window, h + [now]) && KeptList(f, h) == StillCounting(f, h)
      && KeptUntil(f, h) == BlockedUntil(f, h)
    ensures KeptList(f, h + [now]) == StillCounting(f, h + [now])
      && KeptUntil(f, h + [now]) == BlockedUntil(f, h + [now])
  {
    hide *;
    KeptSnoc(f, h, now);
    PrunedStep(f, h, now);
    AfterStep(f, h, now);
  }

  lemma {:induction false} KeptIsCounting(f: Failover, h: seq<real>)
    requires Steady(f.window, h)
    ensures KeptList(f, h) == StillCounting(f, h) && KeptUntil(f, h) == BlockedUntil(f, h)
  {
    hide *;
    if h == [] {
      NothingCounts(f);
    } else {
      var k := |h| - 1;
      SteadyPrefix(f.window, h, k);
      KeptIsCounting(f, h[..k]);
      assert h == h[..k] + [h[k]];
      OneMoreKept(f, h[..k], h[k]);
    }
  }

  lemma {:induction false} NothingCounts(f: Failover)
    ensures StillCounting(f, []) == KeptList(f, []) && BlockedUntil(f, []) == KeptUntil(f, [])
  {
  }

  function WithCount(f: Failover, count: nat): Failover {
    f.(count := count)
  }

  lemma {:induction false} NeverTriggers(f: Failover, h: seq<real>)
    requires f.count > |h|
    ensures UsedUp(f, h) == 0 && |KeptList(f, h)| <= |h|
  {
    if h != [] {
      hide Since;
      var k := |h| - 1;
      var from := h[k] - f.window as real;
      NeverTriggers(f, h[..k]);
      SinceLoses(h[0..], from, from);
      SinceLoses(KeptList(f, h[..k]), from, from);
    }
  }

  ghost predicate MatchAt(f: Failover, count: nat, h: seq<real>, n: nat)
    requires n <= |h|
  {
    KeptList(WithCount(f, count), h[..n]) == StillCounting(WithCount(f, count), h[..n])
  }

  /** The stored list is the attacks that still count, after every attack and for every trigger count, if and only
      if the client's attack times are steady for the window. */
  lemma {:induction false} ListsMatchIff(f: Failover, h: seq<real>)
    ensures (forall count: nat, n: nat :: n <= |h| ==> MatchAt(f, count, h, n)) <==> Steady(f.window, h)
  {
    hide MatchAt;
    if Steady(f.window, h) {
      forall count: nat, n: nat | n <= |h| ensures MatchAt(f, count, h, n) { SteadyMatches(f, count, h, n); }
    } else {
      UnsteadyDiffers(f, h);
    }
  }

  lemma {:induction false} SteadyMatches(f: Failover, count: nat, h: seq<real>, n: nat)
    requires Steady(f.window, h) && n <= |h|
    ensures MatchAt(f, count, h, n)
  {
    hide Steady, KeptList, StillCounting;
    SteadyPrefix(f.window, h, n);
    KeptIsCounting(WithCount(f, count), h[..n]);
  }

  lemma {:induction false} UnsteadyDiffers(f: Failover, h: seq<real>)
    requires !Steady(f.window, h)
    ensures exists count: nat, n: nat :: n <= |h| && !MatchAt(f, count, h, n)
  {
    hide MatchAt, Reenters;
    var j: nat, i: nat :| j < i && i + 1 < |h| && Reenters(f.window, h, j, i);
    UnsteadyLoses(f, |h| + 1, h, j, i);
  }

  lemma {:induction false} SteadyPrefix(window: nat, h: seq<real>, n: nat)
    requires Steady(window, h) && n <= |h|
    ensures Steady(window, h[..n])
  {
    forall j: nat, i: nat | j < i && i + 1 < |h[..n]| ensures !Reenters(window, h[..n], j, i) {
      assert !Reenters(window, h, j, i);
    }
  }

  lemma {:induction false} UnsteadyLoses(f: Failover, count: nat, h: seq<real>, j: nat, i: nat)
    requires j < i && i + 1 < |h| && Reenters(f.window, h, j, i) && count > |h|
    ensures !MatchAt(f, count, h, i + 1) || !MatchAt(f, count, h, i + 2)
  {
    hide Since, StillCounting, UsedUp;
    var g, h1, h2 := WithCount(f, count), h[..i + 1], h[..i + 2];
    var early, late := h[i] - f.window as real, h[i + 1] - f.window as real;
    NeverTriggers(g, h1);
    NeverTriggers(g, h2);
    assert h1[j] == h[j] && h2[..i + 1] == h1;
    SinceLoses(h1, early, late);
    SinceLoses(KeptList(g, h1), late, late);
    CountsAll(g, h1);
    CountsAll(g, h2);
    SinceTail(h1, 0, h[i + 1], late);
    assert h1 + [h[i + 1]] == h2 && h2[0..] == h2 && h1[0..] == h1;
    assert KeptList(g, h2) == Since(KeptList(g, h1), late) + [h[i + 1]];
    hide KeptList;
  }

  lemma {:induction false} CountsAll(f: Failover, h: seq<real>)
    requires h != [] && UsedUp(f, h) == 0
    ensures StillCounting(f, h) == Since(h, h[|h| - 1] - f.window as real)
  {
    assert h[0..] == h;
  }

  // ---------- Whole runs ----------

  /** What the engine stores for a client is what its whole history says. */
  ghost predicate Matches(f: Failover, a: Alarms, es: seq<Attack>, client: string) {
    var h := History(f, es, client);
    && TimesOf(a, client) == StillCounting(f, h)
    && BlockOf(a, client) == (if f.blockSource && client != "" then BlockedUntil(f, h) else None)
  }

  /** The pruned per-client lists and block times equal what the whole history says, for every client whose
      attack times are steady. */
  lemma {:induction false} AlarmsMatchHistory(f: Failover, es: seq<Attack>, client: string)
    requires Steady(f.window, History(f, es, client))
    ensures Matches(f, DetectedAll(f, QUIET, es), es, client)
  {
    EngineStores(f, es, client);
    KeptIsCounting(f, History(f, es, client));
    hide DetectedAll, History, StillCounting, BlockedUntil, KeptList, KeptUntil, Steady;
  }

  lemma {:induction false} AscendingSnoc(ts: seq<real>, t: real)
    ensures Ascending(ts) && (forall u :: u in ts ==> u <= t) ==> Ascending(ts + [t])
  {
    if Ascending(ts) && forall u :: u in ts ==> u <= t {
      forall i, j | 0 <= i < j < |ts| + 1 ensures (ts + [t])[i] <= (ts + [t])[j] {
        assert ts[i] in ts;
      }
    }
  }

  lemma {:induction false} HistoryAscends(f: Failover, es: seq<Attack>, client: string)
    requires InOrder(es)
    ensures Ascending(History(f, es, client))
    ensures forall t :: t in History(f, es, client) ==> es != [] && t <= es[|es| - 1].now
  {
    if es != [] {
      var n := |es| - 1;
      HistoryAscends(f, es[..n], client);
      if n > 0 { assert es[..n][n - 1].now <= es[n].now; }
      OneMore(f, es[..n], es[n], client);
      assert es[..n] + [es[n]] == es;
      AscendingSnoc(History(f, es[..n], client), es[n].now);
    }
  }

  /** A clock that does not run backwards makes every client's times steady, for every window. */
  lemma {:induction false} OrderIsSteady(f: Failover, es: seq<Attack>, client: string)
    requires InOrder(es)
    ensures Steady(f.window, History(f, es, client))
  {
    HistoryAscends(f, es, client);
    hide History, InOrder;
  }

  lemma {:induction false} OverrideStep(f: Failover, a: Alarms, e: Attack)
    ensures Detected(f, a, e).override ==
            if Qualifies(f, e.severity) && f.switchTo.Some? &&
               |Extended(f, TimesOf(a, e.client), e.now)| >= f.count
            then Some((f.switchTo.value, e.now + f.cooldown as real)) else a.override
  {
    hide Since, Qualifies;
  }

  lemma {:induction false} LatestOverrideOneMore(f: Failover, es: seq<Attack>, e: Attack)
    ensures LatestOverride(f, es + [e]) ==
            if f.switchTo.None? then None
            else if Qualifies(f, e.severity) && Triggers(f, History(f, es + [e], e.client))
            then Some((f.switchTo.value, e.now + f.cooldown as real)) else LatestOverride(f, es)
  {
    assert (es + [e])[..|es|] == es;
    hide Qualifies, Triggers, History;
  }

  lemma {:induction false} OneOverride(f: Failover, a: Alarms, es: seq<Attack>, e: Attack)
    requires InOrder(es + [e]) && Matches(f, a, es, e.client) && a.override == LatestOverride(f, es)
    ensures Detected(f, a, e).override == LatestOverride(f, es + [e])
  {
    assert f.switchTo.None? ==> LatestOverride(f, es).None?;
    assert TimesOf(a, e.client) == StillCounting(f, History(f, es, e.client));
    hide *;
    OverrideStep(f, a, e);
    LatestOverrideOneMore(f, es, e);
    OrderIsSteady(f, es + [e], e.client);
    OneMore(f, es, e, e.client);
    if Qualifies(f, e.severity) { PrunedStep(f, History(f, es, e.client), e.now); }
  }

  /** The override is that of the latest trigger. */
  lemma {:induction false} OverrideMatchesHistory(f: Failover, es: seq<Attack>)
    requires InOrder(es)
    ensures DetectedAll(f, QUIET, es).override == LatestOverride(f, es)
  {
    if es != [] {
      var n := |es| - 1;
      OverrideMatchesHistory(f, es[..n]);
      OrderIsSteady(f, es[..n], es[n].client);
      AlarmsMatchHistory(f, es[..n], es[n].client);
      assert es == es[..n] + [es[n]];
      hide Detected, Matches, LatestOverride;
      OneOverride(f, DetectedAll(f, QUIET, es[..n]), es[..n], es[n]);
    }
  }

  /** A client with steady times is blocked at a moment exactly when it has triggered and its latest trigger is
      less than the block time ago. */
  lemma {:induction false} BlockedIff(f: Failover, es: seq<Attack>, client: string, now: real)
    requires Steady(f.window, History(f, es, client)) && now >= 0.0
    ensures var h := History(f, es, client);
      IsBlocked(DetectedAll(f, QUIET, es), client, now) <==>
        f.blockSource && client != "" && UsedUp(f, h) > 0 && now < h[UsedUp(f, h) - 1] + f.blockTtl as real
  {
    AlarmsMatchHistory(f, es, client);
    hide Steady, DetectedAll, History, StillCounting, UsedUp;
  }
}
