/** Budget reservations over whole runs: conservation of every counter, and quota safety. */
module Metering {
  import opened Wrappers
  import opened DayKeys
  import opened MeteringStore

  datatype Reservation = Reservation(id: string, client: string, provider: string, model: string,
                                     promptEst: nat, completionCap: nat)
  {
    function Total(): nat {
      promptEst + completionCap
    }
  }

  /** Daily limits; `None` means no limit. */
  datatype Quotas = Quotas(clientTokens: Option<int>, clientRequests: Option<int>, providerTokens: Option<int>,
                           completionReserve: int)

  datatype QuotaExceeded = QuotaExceeded(scope: string, limit: int)

  function LimitOf(limit: Option<int>): int {
    match limit case Some(n) => n case None => -1
  }

  function AdmitOpFor(q: Quotas, rsv: Reservation, day: int): AdmitOp {
    AdmitOp(BucketKey(ClientTokens, rsv.client, day), LimitOf(q.clientTokens),
            BucketKey(ClientRequests, rsv.client, day), LimitOf(q.clientRequests),
            BucketKey(ProviderTokens, rsv.provider, day), LimitOf(q.providerTokens),
            BucketKey(ProviderRequests, rsv.provider, day),
            BucketKey(ModelTokens, rsv.model, day), rsv.Total())
  }

  function TokenKeys(rsv: Reservation, day: int): seq<string> {
    [BucketKey(ClientTokens, rsv.client, day), BucketKey(ProviderTokens, rsv.provider, day),
     BucketKey(ModelTokens, rsv.model, day)]
  }

  // ---------- The ledger: what was admitted, settled and recorded ----------

  datatype Entry =
    | Hold(rsv: Reservation, day: int, actual: Option<nat>)  // admitted; `actual` once settled
    | Recorded(key: string, amount: nat)  // one plain increment

  function Once(a: string, key: string, amount: int): int {
    if a == key then amount else 0
  }

  /** What a ledger entry contributes to one counter: an open reservation its whole reserve, a settled one
      its actual usage, and either of them one request. */
  function Share(e: Entry, key: string): int {
    match e
    case Recorded(k, amount) => Once(k, key, amount)
    case Hold(rsv, day, actual) =>
      var tokens := match actual case Some(n) => n case None => rsv.Total();
      Once(BucketKey(ClientTokens, rsv.client, day), key, tokens)
      + Once(BucketKey(ClientRequests, rsv.client, day), key, 1)
      + Once(BucketKey(ProviderTokens, rsv.provider, day), key, tokens)
      + Once(BucketKey(ProviderRequests, rsv.provider, day), key, 1)
      + Once(BucketKey(ModelTokens, rsv.model, day), key, tokens)
  }

  function Sum(ledger: seq<Entry>, key: string): int {
    if ledger == [] then 0 else Sum(ledger[..|ledger| - 1], key) + Share(ledger[|ledger| - 1], key)
  }

  /** By how much settled usage on a counter went over its reserves, plus everything recorded on it. */
  function Excess(e: Entry, key: string): int {
    match e
    case Recorded(k, amount) => Once(k, key, amount)
    case Hold(rsv, day, Some(n)) => if key in TokenKeys(rsv, day) && n > rsv.Total() then n - rsv.Total() else 0
    case Hold(_, _, None) => 0
  }

  function Overrun(ledger: seq<Entry>, key: string): int {
    if ledger == [] then 0 else Overrun(ledger[..|ledger| - 1], key) + Excess(ledger[|ledger| - 1], key)
  }

  // ---------- Runs ----------

  datatype Sys = Sys(counters: Counters, settled: set<string>, ledger: seq<Entry>)

  const EMPTY := Sys(map[], {}, [])

  datatype Event =
    | Admit(rsv: Reservation, day: int)
    | Settle(id: string, actual: nat, day: int)
    | Incr(kind: Kind, name: string, day: int, amount: nat)

  predicate IsHold(e: Entry, id: string) {
    e.Hold? && e.rsv.id == id
  }

  /** Position of the reservation with this id, or the ledger's length. */
  function Find(ledger: seq<Entry>, id: string): (i: nat)
    ensures i <= |ledger| && (i < |ledger| ==> IsHold(ledger[i], id))
    ensures forall j :: 0 <= j < i ==> !IsHold(ledger[j], id)
  {
    if ledger == [] then 0
    else
      var i := Find(ledger[..|ledger| - 1], id);
      if i < |ledger| - 1 || IsHold(ledger[|ledger| - 1], id) then i else |ledger|
  }

  /** Ids are drawn at random, so an admission carries a new one, and only admitted reservations are
      settled. */
  predicate Known(s: Sys, e: Event) {
    match e
    case Admit(rsv, _) => Find(s.ledger, rsv.id) == |s.ledger|
    case Settle(id, _, _) => Find(s.ledger, id) < |s.ledger|
    case Incr(_, _, _, _) => true
  }

  /** A settle looks up its keys by the day on which it runs. A run is same-day when each reservation's
      first settle falls on the day of its admission. */
  predicate Enabled(s: Sys, e: Event) {
    && Known(s, e)
    && (e.Settle? ==> var h := s.ledger[Find(s.ledger, e.id)]; h.actual.None? ==> e.day == h.day)
  }

  function Step(q: Quotas, s: Sys, e: Event): Sys
    requires Known(s, e)
  {
    match e
    case Admit(rsv, day) =>
      var op := AdmitOpFor(q, rsv, day);
      if Gate(s.counters, op).Some? then s
      else Sys(Reserved(s.counters, op), s.settled, s.ledger + [Hold(rsv, day, None)])
    case Settle(id, actual, day) =>
      if ReservationKey(id) in s.settled then s
      else
        var i := Find(s.ledger, id);
        var h := s.ledger[i];
        Sys(Adjusted(s.counters, TokenKeys(h.rsv, day), actual - h.rsv.Total()),
            s.settled + {ReservationKey(id)}, s.ledger[i := h.(actual := Some(actual))])
    case Incr(kind, name, day, amount) =>
      Sys(Add(s.counters, BucketKey(kind, name, day), amount), s.settled,
          s.ledger + [Recorded(BucketKey(kind, name, day), amount)])
  }

  /** A run whose settles may fall on any day. */
  ghost predicate KnownRun(q: Quotas, s: Sys, es: seq<Event>)
    decreases |es|
  {
    es == [] || (Known(s, es[0]) && KnownRun(q, Step(q, s, es[0]), es[1..]))
  }

  /** A same-day run. */
  ghost predicate ValidRun(q: Quotas, s: Sys, es: seq<Event>): (ok: bool)
    ensures ok ==> KnownRun(q, s, es)
    decreases |es|
  {
    es == [] || (Enabled(s, es[0]) && ValidRun(q, Step(q, s, es[0]), es[1..]))
  }

  ghost function Run(q: Quotas, s: Sys, es: seq<Event>): Sys
    requires KnownRun(q, s, es)
    decreases |es|
  {
    if es == [] then s else Run(q, Step(q, s, es[0]), es[1..])
  }

  // ---------- Conservation ----------

  /** Ids are unique, and the settled marks are those of the settled part of the ledger. */
  ghost predicate Marked(s: Sys) {
    && (forall i, j :: 0 <= i < j < |s.ledger| && s.ledger[i].Hold? && s.ledger[j].Hold? ==>
          s.ledger[i].rsv.id != s.ledger[j].rsv.id)
    && (forall i :: 0 <= i < |s.ledger| && s.ledger[i].Hold? ==>
          (ReservationKey(s.ledger[i].rsv.id) in s.settled <==> s.ledger[i].actual.Some?))
    && (forall id :: ReservationKey(id) in s.settled ==> Find(s.ledger, id) < |s.ledger|)
  }

  /** Every counter is the sum of its ledger shares. */
  ghost predicate Conserved(s: Sys) {
    Marked(s) && forall key :: Read(s.counters, key) == Sum(s.ledger, key)
  }

  lemma {:induction false} SharesNonNegative(e: Entry, key: string)
    ensures Share(e, key) >= 0
  {
  }

  /** Ledgers that differ in one entry have sums that differ by its share. */
  lemma {:induction false} SumDiffers(a: seq<Entry>, b: seq<Entry>, i: nat, key: string)
    requires |a| == |b| && i < |a| && forall j :: 0 <= j < |a| && j != i ==> a[j] == b[j]
    ensures Sum(b, key) - Sum(a, key) == Share(b[i], key) - Share(a[i], key)
  {
    hide Share;
    var n := |a| - 1;
    if i < n { SumDiffers(a[..n], b[..n], i, key); } else { assert a[..n] == b[..n]; }
  }

  lemma {:induction false} SumUpdate(ledger: seq<Entry>, i: nat, e: Entry, key: string)
    requires i < |ledger|
    ensures Sum(ledger[i := e], key) == Sum(ledger, key) - Share(ledger[i], key) + Share(e, key)
  {
    hide Share, Sum;
    SumDiffers(ledger, ledger[i := e], i, key);
  }

  lemma {:induction false} SumAtLeast(ledger: seq<Entry>, i: nat, key: string)
    requires i < |ledger|
    ensures Sum(ledger, key) >= Share(ledger[i], key)
  {
    hide Share;
    var n := |ledger| - 1;
    SumNonNegative(ledger[..n], key);
    SharesNonNegative(ledger[n], key);
    if i < n { SumAtLeast(ledger[..n], i, key); }
  }

  lemma {:induction false} SumNonNegative(ledger: seq<Entry>, key: string)
    ensures Sum(ledger, key) >= 0
  {
    if ledger != [] {
      SumNonNegative(ledger[..|ledger| - 1], key);
      SharesNonNegative(ledger[|ledger| - 1], key);
    }
  }

  lemma {:induction false} AddReads(m: Counters, k: string, amount: int, key: string)
    ensures Read(Add(m, k, amount), key) == Read(m, key) + Once(k, key, amount)
  {
  }

  lemma {:induction false} ReservedShares(q: Quotas, m: Counters, rsv: Reservation, day: int, key: string)
    ensures Read(Reserved(m, AdmitOpFor(q, rsv, day)), key) == Read(m, key) + Share(Hold(rsv, day, None), key)
  {
    var op := AdmitOpFor(q, rsv, day);
    var m1 := Add(m, op.cTokensKey, op.reserve);
    var m2 := Add(m1, op.cReqKey, 1);
    var m3 := Add(m2, op.pTokensKey, op.reserve);
    var m4 := Add(m3, op.pReqKey, 1);
    AddReads(m, op.cTokensKey, op.reserve, key);
    AddReads(m1, op.cReqKey, 1, key);
    AddReads(m2, op.pTokensKey, op.reserve, key);
    AddReads(m3, op.pReqKey, 1, key);
    AddReads(m4, op.mTokensKey, op.reserve, key);
    hide BucketKey, Add, Once, Read;
  }

  // ---------- One settle ----------

  /** Without a clamp, a settle moves each of its counters by exactly `delta`. */
  lemma {:induction false} AdjustedExact(m: Counters, keys: seq<string>, delta: int, key: string)
    requires Distinct(keys) && forall k :: k in keys ==> Read(m, k) + delta >= 0
    ensures Read(Adjusted(m, keys, delta), key) == Read(m, key) + (if key in keys then delta else 0)
  {
    if keys != [] {
      var n := |keys| - 1;
      var before, last := keys[..n], keys[n];
      assert last in keys && forall k :: k in before ==> k in keys;
      assert keys == before + [last];
      AdjustedExact(m, before, delta, key);
      AdjustedExact(m, before, delta, last);
    }
  }

  lemma {:induction false} TokenKeysDistinct(rsv: Reservation, day: int)
    ensures Distinct(TokenKeys(rsv, day))
    ensures forall k, name, d :: (k == ClientRequests || k == ProviderRequests) ==>
      BucketKey(k, name, d) !in TokenKeys(rsv, day)
  {
    hide BucketKey;
    var c, p, m := BucketKey(ClientTokens, rsv.client, day), BucketKey(ProviderTokens, rsv.provider, day),
      BucketKey(ModelTokens, rsv.model, day);
    BucketKeysDistinct(ClientTokens, rsv.client, day, ProviderTokens, rsv.provider, day);
    BucketKeysDistinct(ClientTokens, rsv.client, day, ModelTokens, rsv.model, day);
    BucketKeysDistinct(ProviderTokens, rsv.provider, day, ModelTokens, rsv.model, day);
    forall k, name, d | k == ClientRequests || k == ProviderRequests
      ensures BucketKey(k, name, d) !in [c, p, m]
    {
      BucketKeysDistinct(k, name, d, ClientTokens, rsv.client, day);
      BucketKeysDistinct(k, name, d, ProviderTokens, rsv.provider, day);
      BucketKeysDistinct(k, name, d, ModelTokens, rsv.model, day);
    }
  }

  /** A reservation's share, told by its keys. */
  lemma {:induction false} HoldShare(rsv: Reservation, day: int, actual: Option<nat>, key: string)
    ensures Share(Hold(rsv, day, actual), key)
         == (if key in TokenKeys(rsv, day) then (match actual case Some(n) => n case None => rsv.Total()) else 0)
            + Once(BucketKey(ClientRequests, rsv.client, day), key, 1)
            + Once(BucketKey(ProviderRequests, rsv.provider, day), key, 1)
  {
    TokenKeysDistinct(rsv, day);
    hide BucketKey;
    var keys := TokenKeys(rsv, day);
    assert keys[0] != keys[1] && keys[0] != keys[2] && keys[1] != keys[2];
  }

  /** Under conservation a same-day settle never meets the clamp, and moves the counters by the difference
      between usage and reserve. */
  lemma {:induction false} SettleExact(s: Sys, i: nat, actual: nat, key: string)
    requires Conserved(s) && i < |s.ledger| && s.ledger[i].Hold? && s.ledger[i].actual.None?
    ensures var h := s.ledger[i]; var keys := TokenKeys(h.rsv, h.day); var delta := actual - h.rsv.Total();
      && (forall k :: k in keys ==> Read(s.counters, k) + delta >= 0)
      && Read(Adjusted(s.counters, keys, delta), key) == Read(s.counters, key) + (if key in keys then delta else 0)
      && Sum(s.ledger[i := h.(actual := Some(actual))], key) == Sum(s.ledger, key) + (if key in keys then delta else 0)
  {
    hide BucketKey, Share;
    var h := s.ledger[i];
    var keys, delta := TokenKeys(h.rsv, h.day), actual - h.rsv.Total();
    TokenKeysDistinct(h.rsv, h.day);
    forall k | k in keys ensures Read(s.counters, k) + delta >= 0 {
      SumAtLeast(s.ledger, i, k);
      HoldShare(h.rsv, h.day, h.actual, k);
      assert Once(BucketKey(ClientRequests, h.rsv.client, h.day), k, 1) >= 0;
    }
    AdjustedExact(s.counters, keys, delta, key);
    SumUpdate(s.ledger, i, h.(actual := Some(actual)), key);
    HoldShare(h.rsv, h.day, None, key);
    HoldShare(h.rsv, h.day, Some(actual), key);
  }

  // ---------- Every step keeps conservation ----------

  lemma {:induction false} FindIs(ledger: seq<Entry>, id: string, i: nat)
    requires i < |ledger| && IsHold(ledger[i], id)
    requires forall j :: 0 <= j < |ledger| && j != i ==> !IsHold(ledger[j], id)
    ensures Find(ledger, id) == i
  {
  }

  /** Marks stay in step over every step, whichever day a settle runs on. */
  lemma {:induction false} StepMarks(q: Quotas, s: Sys, e: Event)
    requires Marked(s) && Known(s, e)
    ensures Marked(Step(q, s, e))
  {
    hide BucketKey, ReservationKey, Reserved, Adjusted, AdmitOpFor, Gate, Add, TokenKeys, Find;
    var s' := Step(q, s, e);
    match e
    case Admit(rsv, day) => if s' != s { AppendMarks(s, s', Hold(rsv, day, None)); }
    case Settle(id, actual, day) =>
      UnsettledIsOpen(s, id);
      if ReservationKey(id) !in s.settled { SettledLedger(s, s', id, actual); }
    case Incr(kind, name, day, amount) => AppendMarks(s, s', Recorded(BucketKey(kind, name, day), amount));
  }

  lemma {:induction false} UnsettledIsOpen(s: Sys, id: string)
    requires Marked(s) && Find(s.ledger, id) < |s.ledger|
    ensures ReservationKey(id) in s.settled <==> s.ledger[Find(s.ledger, id)].actual.Some?
  {
    hide ReservationKey;
  }

  lemma {:induction false} AppendMarks(s: Sys, s': Sys, e: Entry)
    requires Marked(s) && s'.settled == s.settled && s'.ledger == s.ledger + [e]
    requires e.Hold? ==> e.actual.None? && Find(s.ledger, e.rsv.id) == |s.ledger|
    ensures Marked(s')
  {
    hide ReservationKey;
    assert s'.ledger[..|s.ledger|] == s.ledger;
    forall id | ReservationKey(id) in s'.settled ensures Find(s'.ledger, id) < |s'.ledger| {
      assert Find(s.ledger, id) < |s.ledger|;
    }
  }

  /** The ledger side of a settle. */
  lemma {:induction false} SettledLedger(s: Sys, s': Sys, id: string, actual: nat)
    requires Marked(s) && Find(s.ledger, id) < |s.ledger| && s.ledger[Find(s.ledger, id)].actual.None?
    requires s'.settled == s.settled + {ReservationKey(id)}
    requires var i := Find(s.ledger, id); s'.ledger == s.ledger[i := s.ledger[i].(actual := Some(actual))]
    ensures Marked(s')
  {
    hide ReservationKey;
    var i := Find(s.ledger, id);
    forall j | 0 <= j < |s'.ledger| && s'.ledger[j].Hold?
      ensures ReservationKey(s'.ledger[j].rsv.id) in s'.settled <==> s'.ledger[j].actual.Some?
    {
      ReservationKeysDistinct(s'.ledger[j].rsv.id, id, ClientTokens, "", 0);
      if j != i { assert s'.ledger[j] == s.ledger[j]; }
    }
    forall x | ReservationKey(x) in s'.settled ensures Find(s'.ledger, x) < |s'.ledger| {
      ReservationKeysDistinct(x, id, ClientTokens, "", 0);
      var k := Find(s.ledger, x);
      assert IsHold(s'.ledger[k], x);
    }
  }

  /** What survives a settle on any day: marks in step, and no counter below zero. */
  ghost predicate Accounted(s: Sys) {
    Marked(s) && forall key :: Read(s.counters, key) >= 0
  }

  lemma {:induction false} StepAccounts(q: Quotas, s: Sys, e: Event)
    requires Accounted(s) && Known(s, e)
    ensures Accounted(Step(q, s, e))
  {
    StepMarks(q, s, e);
    hide Marked, Step;
    forall key ensures Read(Step(q, s, e).counters, key) >= 0 { StepNonNegative(q, s, e, key); }
  }

  lemma {:induction false} StepNonNegative(q: Quotas, s: Sys, e: Event, key: string)
    requires Known(s, e) && forall k :: Read(s.counters, k) >= 0
    ensures Read(Step(q, s, e).counters, key) >= 0
  {
    hide BucketKey, ReservationKey, Adjusted, TokenKeys, Reserved, AdmitOpFor, Gate, Find, Share, Read, Add;
    match e
    case Admit(rsv, day) =>
      ReservedShares(q, s.counters, rsv, day, key);
      SharesNonNegative(Hold(rsv, day, None), key);
    case Settle(id, actual, day) =>
      var rsv := s.ledger[Find(s.ledger, id)].rsv;
      AdjustedNonNegative(s.counters, TokenKeys(rsv, day), actual - rsv.Total(), key);
    case Incr(kind, name, day, amount) =>
      AddReads(s.counters, BucketKey(kind, name, day), amount, key);
  }

  lemma {:induction false} AdjustedNonNegative(m: Counters, keys: seq<string>, delta: int, key: string)
    requires forall k :: Read(m, k) >= 0
    ensures Read(Adjusted(m, keys, delta), key) >= 0
  {
    if keys != [] { AdjustedNonNegative(m, keys[..|keys| - 1], delta, key); }
  }

  lemma {:induction false} AdmitConserves(q: Quotas, s: Sys, rsv: Reservation, day: int)
    requires Conserved(s) && Enabled(s, Admit(rsv, day))
    ensures Conserved(Step(q, s, Admit(rsv, day)))
  {
    StepMarks(q, s, Admit(rsv, day));
    hide BucketKey, Share, ReservationKey, Reserved, AdmitOpFor, Marked, Gate;
    var s' := Step(q, s, Admit(rsv, day));
    if s' != s {
      assert s'.ledger[..|s.ledger|] == s.ledger;
      forall key ensures Read(s'.counters, key) == Sum(s'.ledger, key) {
        ReservedShares(q, s.counters, rsv, day, key);
        assert Read(s.counters, key) == Sum(s.ledger, key);
      }
    }
  }

  lemma {:induction false} IncrConserves(q: Quotas, s: Sys, e: Event)
    requires Conserved(s) && e.Incr?
    ensures Conserved(Step(q, s, e))
  {
    StepMarks(q, s, e);
    hide BucketKey, ReservationKey, Marked;
    var s' := Step(q, s, e);
    assert s'.ledger[..|s.ledger|] == s.ledger;
    forall key ensures Read(s'.counters, key) == Sum(s'.ledger, key) {
      assert Read(s.counters, key) == Sum(s.ledger, key);
    }
  }

  lemma {:induction false} SettleConserves(q: Quotas, s: Sys, id: string, actual: nat, day: int)
    requires Conserved(s) && Enabled(s, Settle(id, actual, day))
    ensures Conserved(Step(q, s, Settle(id, actual, day)))
  {
    hide BucketKey, Share, ReservationKey, Adjusted, TokenKeys;
    var s' := Step(q, s, Settle(id, actual, day));
    if ReservationKey(id) !in s.settled {
      var i := Find(s.ledger, id);
      forall key ensures Read(s'.counters, key) == Sum(s'.ledger, key) {
        SettleExact(s, i, actual, key);
        assert Read(s.counters, key) == Sum(s.ledger, key);
      }
      SettledLedger(s, s', id, actual);
    }
  }

  /** The day matters: a first settle keeps conservation exactly when it runs on the day of the admission,
      or when usage equals the reserve. Otherwise it moves the counters of another day. */
  lemma {:induction false} SettleConservesIff(q: Quotas, s: Sys, id: string, actual: nat, day: int)
    requires Conserved(s) && Known(s, Settle(id, actual, day)) && ReservationKey(id) !in s.settled
    ensures var h := s.ledger[Find(s.ledger, id)];
      Conserved(Step(q, s, Settle(id, actual, day))) <==> day == h.day || actual == h.rsv.Total()
  {
    hide BucketKey, Share, ReservationKey, Adjusted;
    var i := Find(s.ledger, id);
    var h := s.ledger[i];
    var s' := Step(q, s, Settle(id, actual, day));
    if day == h.day {
      SettleConserves(q, s, id, actual, day);
    } else {
      var key := BucketKey(ClientTokens, h.rsv.client, h.day);
      OtherDayKeys(h.rsv, h.day, day);
      ReadOutside(s.counters, TokenKeys(h.rsv, day), actual - h.rsv.Total(), key);
      SettleExact(s, i, actual, key);
      assert Read(s.counters, key) == Sum(s.ledger, key);
      if actual == h.rsv.Total() {
        SettleExactly(s, i, day);
        SettledLedger(s, s', id, actual);
      }
    }
  }

  lemma {:induction false} OtherDayKeys(rsv: Reservation, day: int, day': int)
    requires day != day'
    ensures BucketKey(ClientTokens, rsv.client, day) !in TokenKeys(rsv, day')
  {
    hide BucketKey;
    BucketKeysDistinct(ClientTokens, rsv.client, day, ClientTokens, rsv.client, day');
    BucketKeysDistinct(ClientTokens, rsv.client, day, ProviderTokens, rsv.provider, day');
    BucketKeysDistinct(ClientTokens, rsv.client, day, ModelTokens, rsv.model, day');
  }

  lemma {:induction false} ReadOutside(m: Counters, keys: seq<string>, delta: int, key: string)
    requires key !in keys
    ensures Read(Adjusted(m, keys, delta), key) == Read(m, key)
  {
    if keys != [] {
      var n := |keys| - 1;
      assert keys[n] in keys && forall k :: k in keys[..n] ==> k in keys;
      ReadOutside(m, keys[..n], delta, key);
    }
  }

  function Clamp(v: int): int {
    if v < 0 then 0 else v
  }

  lemma {:induction false} AdjustedAt(m: Counters, keys: seq<string>, delta: int, i: nat)
    requires Distinct(keys) && i < |keys|
    ensures Read(Adjusted(m, keys, delta), keys[i]) == Clamp(Read(m, keys[i]) + delta)
  {
    var n := |keys| - 1;
    if i == n {
      assert forall k :: k in keys[..n] ==> k != keys[n];
      ReadOutside(m, keys[..n], delta, keys[n]);
    } else {
      AdjustedAt(m, keys[..n], delta, i);
    }
  }

  /** What a settle does to any counter. */
  lemma {:induction false} SettledCounter(m: Counters, rsv: Reservation, day: int, delta: int, key: string)
    ensures Read(Adjusted(m, TokenKeys(rsv, day), delta), key) ==
            if key in TokenKeys(rsv, day) then Clamp(Read(m, key) + delta) else Read(m, key)
  {
    TokenKeysDistinct(rsv, day);
    hide BucketKey, Adjusted, TokenKeys, Read;
    var keys := TokenKeys(rsv, day);
    if key in keys {
      var j :| 0 <= j < |keys| && keys[j] == key;
      AdjustedAt(m, keys, delta, j);
    } else {
      ReadOutside(m, keys, delta, key);
    }
  }

  /** Usage equal to the reserve changes no counter, whichever day's keys the settle looks up. */
  lemma {:induction false} SettleExactly(s: Sys, i: nat, day: int)
    requires Conserved(s) && i < |s.ledger| && s.ledger[i].Hold? && s.ledger[i].actual.None?
    ensures var h := s.ledger[i];
      forall key :: Read(Adjusted(s.counters, TokenKeys(h.rsv, day), 0), key) ==
        Sum(s.ledger[i := h.(actual := Some(h.rsv.Total()))], key)
  {
    hide BucketKey, Share, Adjusted, TokenKeys;
    var h := s.ledger[i];
    var keys := TokenKeys(h.rsv, day);
    TokenKeysDistinct(h.rsv, day);
    forall k | k in keys ensures Read(s.counters, k) >= 0 {
      assert Read(s.counters, k) == Sum(s.ledger, k);
      SumNonNegative(s.ledger, k);
    }
    forall key ensures Read(Adjusted(s.counters, keys, 0), key) ==
      Sum(s.ledger[i := h.(actual := Some(h.rsv.Total()))], key) {
      AdjustedExact(s.counters, keys, 0, key);
      SettleExact(s, i, h.rsv.Total(), key);
      assert Read(s.counters, key) == Sum(s.ledger, key);
    }
  }

  lemma {:induction false} StepConserves(q: Quotas, s: Sys, e: Event)
    requires Conserved(s) && Enabled(s, e)
    ensures Conserved(Step(q, s, e))
  {
    match e
    case Admit(rsv, day) => AdmitConserves(q, s, rsv, day);
    case Settle(id, actual, day) => SettleConserves(q, s, id, actual, day);
    case Incr(_, _, _, _) => IncrConserves(q, s, e);
  }

  /** Conservation over every run: whatever the interleaving and however often settles are repeated, each
      counter equals open reserves plus settled usage plus recorded usage. */
  lemma {:induction false} RunConserves(q: Quotas, s: Sys, es: seq<Event>)
    requires Conserved(s) && ValidRun(q, s, es)
    ensures Conserved(Run(q, s, es))
    decreases |es|
  {
    if es != [] {
      StepConserves(q, s, es[0]);
      RunConserves(q, Step(q, s, es[0]), es[1..]);
    }
  }

  lemma {:induction false} EmptyConserved()
    ensures Conserved(EMPTY)
  {
  }

  // ---------- Counters by name ----------

  /** What an entry contributes to the bucket of one name and day, told by names instead of keys. */
  function NamedShare(e: Entry, kind: Kind, name: string, day: int): int {
    match e
    case Recorded(k, amount) => Once(k, BucketKey(kind, name, day), amount)
    case Hold(rsv, d, actual) =>
      var tokens := match actual case Some(n) => n case None => rsv.promptEst + rsv.completionCap;
      match kind
      case ClientTokens => if rsv.client == name && d == day then tokens else 0
      case ClientRequests => if rsv.client == name && d == day then 1 else 0
      case ProviderTokens => if rsv.provider == name && d == day then tokens else 0
      case ProviderRequests => if rsv.provider == name && d == day then 1 else 0
      case ModelTokens => if rsv.model == name && d == day then tokens else 0
  }

  function NamedSum(ledger: seq<Entry>, kind: Kind, name: string, day: int): int {
    if ledger == [] then 0
    else NamedSum(ledger[..|ledger| - 1], kind, name, day) + NamedShare(ledger[|ledger| - 1], kind, name, day)
  }

  lemma {:induction false} ShareByName(e: Entry, kind: Kind, name: string, day: int)
    ensures Share(e, BucketKey(kind, name, day)) == NamedShare(e, kind, name, day)
  {
    if e.Hold? {
      var r := e.rsv;
      BucketKeysDistinct(ClientTokens, r.client, e.day, kind, name, day);
      BucketKeysDistinct(ClientRequests, r.client, e.day, kind, name, day);
      BucketKeysDistinct(ProviderTokens, r.provider, e.day, kind, name, day);
      BucketKeysDistinct(ProviderRequests, r.provider, e.day, kind, name, day);
      BucketKeysDistinct(ModelTokens, r.model, e.day, kind, name, day);
      hide BucketKey;
    }
  }

  lemma {:induction false} SumByName(ledger: seq<Entry>, kind: Kind, name: string, day: int)
    ensures Sum(ledger, BucketKey(kind, name, day)) == NamedSum(ledger, kind, name, day)
  {
    if ledger != [] {
      SumByName(ledger[..|ledger| - 1], kind, name, day);
      ShareByName(ledger[|ledger| - 1], kind, name, day);
      hide BucketKey, Share, NamedShare;
    }
  }

  /** In every run from the empty store, the counter of a client, provider or model on a day is the sum over
      exactly its own reservations of that day, open ones at their reserve and settled ones at their usage,
      plus what was recorded on it. Names may contain any character. */
  lemma {:induction false} CountersByName(q: Quotas, es: seq<Event>, kind: Kind, name: string, day: int)
    requires ValidRun(q, EMPTY, es)
    ensures var s := Run(q, EMPTY, es);
      Read(s.counters, BucketKey(kind, name, day)) == NamedSum(s.ledger, kind, name, day)
  {
    EmptyConserved();
    RunConserves(q, EMPTY, es);
    var s := Run(q, EMPTY, es);
    SumByName(s.ledger, kind, name, day);
    assert Read(s.counters, BucketKey(kind, name, day)) == Sum(s.ledger, BucketKey(kind, name, day));
  }

  // ---------- Quota safety ----------

  function KindLimit(q: Quotas, kind: Kind): int {
    match kind
    case ClientTokens => LimitOf(q.clientTokens)
    case ClientRequests => LimitOf(q.clientRequests)
    case ProviderTokens => LimitOf(q.providerTokens)
    case _ => -1
  }

  /** By how much an event may raise a counter past what the gates allow: a first settle by what it used beyond
      its reserve, on the keys of the day on which it runs, and a plain record by its amount. */
  function RaisedBy(s: Sys, e: Event, key: string): nat
    requires Known(s, e)
  {
    match e
    case Admit(_, _) => 0
    case Settle(id, actual, day) =>
      var rsv := s.ledger[Find(s.ledger, id)].rsv;
      if ReservationKey(id) !in s.settled && key in TokenKeys(rsv, day) && actual > rsv.Total()
      then actual - rsv.Total() else 0
    case Incr(kind, name, day, amount) => if BucketKey(kind, name, day) == key then amount else 0
  }

  ghost function Raised(q: Quotas, s: Sys, es: seq<Event>, key: string): nat
    requires KnownRun(q, s, es)
    decreases |es|
  {
    if es == [] then 0 else RaisedBy(s, es[0], key) + Raised(q, Step(q, s, es[0]), es[1..], key)
  }

  /** A counter is within its limit but for `over`. */
  ghost predicate WithinQuota(q: Quotas, s: Sys, kind: Kind, name: string, day: int, over: nat) {
    KindLimit(q, kind) >= 0 ==> Read(s.counters, BucketKey(kind, name, day)) <= KindLimit(q, kind) + over
  }

  lemma {:induction false} AdmitWithinQuota(q: Quotas, s: Sys, rsv: Reservation, day: int, kind: Kind, name: string,
                                            d: int, over: nat)
    requires Known(s, Admit(rsv, day)) && WithinQuota(q, s, kind, name, d, over)
    ensures WithinQuota(q, Step(q, s, Admit(rsv, day)), kind, name, d, over)
  {
    ReservedShares(q, s.counters, rsv, day, BucketKey(kind, name, d));
    ShareByName(Hold(rsv, day, None), kind, name, d);
    hide BucketKey, Share, Reserved;
  }

  lemma {:induction false} StepWithinQuota(q: Quotas, s: Sys, e: Event, kind: Kind, name: string, d: int, over: nat)
    requires Accounted(s) && Known(s, e) && WithinQuota(q, s, kind, name, d, over)
    ensures WithinQuota(q, Step(q, s, e), kind, name, d, over + RaisedBy(s, e, BucketKey(kind, name, d)))
  {
    hide BucketKey, ReservationKey, Adjusted, TokenKeys, Marked, Add, Find;
    var key := BucketKey(kind, name, d);
    assert Read(s.counters, key) >= 0;
    match e
    case Admit(rsv, day) => AdmitWithinQuota(q, s, rsv, day, kind, name, d, over);
    case Settle(id, actual, day) =>
      var rsv := s.ledger[Find(s.ledger, id)].rsv;
      SettledCounter(s.counters, rsv, day, actual - rsv.Total(), key);
      hide Read;
    case Incr(k, n, day, amount) => AddReads(s.counters, BucketKey(k, n, day), amount, key);
  }

  /** Quota safety over every run, whichever days its settles fall on: a gated counter never exceeds its limit by
      more than what first settles raised that very counter beyond their reserves, plus what was recorded on it
      without admission. */
  lemma {:induction false} RunWithinQuota(q: Quotas, s: Sys, es: seq<Event>, kind: Kind, name: string, day: int,
                                          over: nat)
    requires Accounted(s) && KnownRun(q, s, es) && WithinQuota(q, s, kind, name, day, over)
    ensures WithinQuota(q, Run(q, s, es), kind, name, day, over + Raised(q, s, es, BucketKey(kind, name, day)))
    decreases |es|
  {
    hide BucketKey, WithinQuota, Accounted, Step, RaisedBy, Known;
    if es != [] {
      var key, e := BucketKey(kind, name, day), es[0];
      var raised, s' := RaisedBy(s, e, key), Step(q, s, e);
      StepAccounts(q, s, e);
      StepWithinQuota(q, s, e, kind, name, day, over);
      RunWithinQuota(q, s', es[1..], kind, name, day, over + raised);
      assert over + raised + Raised(q, s', es[1..], key) == over + Raised(q, s, es, key);
    }
  }

  lemma {:induction false} RequestsNotRaised(q: Quotas, s: Sys, es: seq<Event>, name: string, day: int)
    requires KnownRun(q, s, es) && forall i :: 0 <= i < |es| ==> !es[i].Incr?
    ensures Raised(q, s, es, BucketKey(ClientRequests, name, day)) == 0
    decreases |es|
  {
    if es != [] {
      if es[0].Settle? { TokenKeysDistinct(s.ledger[Find(s.ledger, es[0].id)].rsv, es[0].day); }
      hide BucketKey, Step, Known;
      RequestsNotRaised(q, Step(q, s, es[0]), es[1..], name, day);
    }
  }

  /** The request counter never exceeds its limit, in any run of admissions and settles. */
  lemma {:induction false} RequestsWithinLimit(q: Quotas, es: seq<Event>, name: string, day: int)
    requires KnownRun(q, EMPTY, es) && forall i :: 0 <= i < |es| ==> !es[i].Incr?
    requires LimitOf(q.clientRequests) >= 0
    ensures Read(Run(q, EMPTY, es).counters, BucketKey(ClientRequests, name, day)) <= LimitOf(q.clientRequests)
  {
    hide BucketKey, Run, KnownRun, Raised;
    EmptyConserved();
    RequestsNotRaised(q, EMPTY, es, name, day);
    RunWithinQuota(q, EMPTY, es, ClientRequests, name, day, 0);
  }

  // ---------- The same overrun, told by the ledger ----------

  lemma {:induction false} OverrunDiffers(a: seq<Entry>, b: seq<Entry>, i: nat, key: string)
    requires |a| == |b| && i < |a| && forall j :: 0 <= j < |a| && j != i ==> a[j] == b[j]
    ensures Overrun(b, key) - Overrun(a, key) == Excess(b[i], key) - Excess(a[i], key)
  {
    hide Excess;
    var n := |a| - 1;
    if i < n { OverrunDiffers(a[..n], b[..n], i, key); } else { assert a[..n] == b[..n]; }
  }

  lemma {:induction false} OverrunUpdate(ledger: seq<Entry>, i: nat, e: Entry, key: string)
    requires i < |ledger|
    ensures Overrun(ledger[i := e], key) == Overrun(ledger, key) - Excess(ledger[i], key) + Excess(e, key)
  {
    hide Excess, Overrun;
    OverrunDiffers(ledger, ledger[i := e], i, key);
  }

  lemma {:induction false} StepOverrun(q: Quotas, s: Sys, e: Event, key: string)
    requires Marked(s) && Enabled(s, e)
    ensures Overrun(Step(q, s, e).ledger, key) == Overrun(s.ledger, key) + RaisedBy(s, e, key)
  {
    hide BucketKey, ReservationKey, Adjusted, Reserved, TokenKeys, Gate, AdmitOpFor, Find;
    var s' := Step(q, s, e);
    match e
    case Admit(rsv, day) =>
      if s' != s { assert s'.ledger[..|s.ledger|] == s.ledger; }
    case Settle(id, actual, day) =>
      UnsettledIsOpen(s, id);
      var i := Find(s.ledger, id);
      if ReservationKey(id) !in s.settled { OverrunUpdate(s.ledger, i, s.ledger[i].(actual := Some(actual)), key); }
    case Incr(_, _, _, _) => assert s'.ledger[..|s.ledger|] == s.ledger;
  }

  /** In a same-day run the counters are raised by exactly the overrun of the settled reservations in the ledger,
      plus the records. */
  lemma {:induction false} OverrunIsRaised(q: Quotas, s: Sys, es: seq<Event>, key: string)
    requires Marked(s) && ValidRun(q, s, es)
    ensures Overrun(Run(q, s, es).ledger, key) == Overrun(s.ledger, key) + Raised(q, s, es, key)
    decreases |es|
  {
    if es != [] {
      StepMarks(q, s, es[0]);
      StepOverrun(q, s, es[0], key);
      hide Marked, Step, RaisedBy, Overrun, Enabled;
      OverrunIsRaised(q, Step(q, s, es[0]), es[1..], key);
    }
  }

  predicate AllHolds(ledger: seq<Entry>) {
    forall i :: 0 <= i < |ledger| ==> ledger[i].Hold?
  }

  /** Reservations never overrun the request counter. */
  lemma {:induction false} RequestsHaveNoOverrun(ledger: seq<Entry>, name: string, day: int)
    requires AllHolds(ledger)
    ensures Overrun(ledger, BucketKey(ClientRequests, name, day)) == 0
  {
    if ledger != [] {
      var n := |ledger| - 1;
      RequestsHaveNoOverrun(ledger[..n], name, day);
      TokenKeysDistinct(ledger[n].rsv, ledger[n].day);
    }
  }

  // ---------- Bursts ----------

  function Admits(rsvs: seq<Reservation>, day: int): (es: seq<Event>)
    ensures |es| == |rsvs| && forall i :: 0 <= i < |es| ==> es[i] == Admit(rsvs[i], day)
  {
    seq(|rsvs|, i requires 0 <= i < |rsvs| => Admit(rsvs[i], day))
  }

  function Min(a: int, b: int): int {
    if a < b then a else b
  }

  /** Against `k` free request slots and no token limits, `n` admissions of one client admit exactly
      min(n, k), whatever providers, models and sizes they ask for. */
  lemma {:induction false} BurstAdmitsExactly(q: Quotas, s: Sys, rsvs: seq<Reservation>, client: string, day: int,
                                              k: nat)
    requires q.clientTokens.None? && q.providerTokens.None? && LimitOf(q.clientRequests) >= 0
    requires forall i :: 0 <= i < |rsvs| ==> rsvs[i].client == client
    requires KnownRun(q, s, Admits(rsvs, day))
    requires Read(s.counters, BucketKey(ClientRequests, client, day)) + k == LimitOf(q.clientRequests)
    ensures |Run(q, s, Admits(rsvs, day)).ledger| == |s.ledger| + Min(|rsvs|, k)
    decreases |rsvs|
  {
    if rsvs != [] {
      var e := Admit(rsvs[0], day);
      assert Admits(rsvs, day)[1..] == Admits(rsvs[1..], day);
      ReservedShares(q, s.counters, rsvs[0], day, BucketKey(ClientRequests, client, day));
      ShareByName(Hold(rsvs[0], day, None), ClientRequests, client, day);
      hide BucketKey, Share, Reserved;
      BurstAdmitsExactly(q, Step(q, s, e), rsvs[1..], client, day, if k > 0 then k - 1 else 0);
    }
  }

  // ---------- Settles commute ----------

  lemma {:induction false} AdjustedKeys(m: Counters, keys: seq<string>, delta: int)
    ensures Adjusted(m, keys, delta).Keys == m.Keys + set k | k in keys
  {
    if keys != [] {
      var n := |keys| - 1;
      AdjustedKeys(m, keys[..n], delta);
      assert keys == keys[..n] + [keys[n]];
    }
  }

  /** A settle, on whatever day, leaves every other reservation as it was. */
  lemma {:induction false} SettleElsewhere(q: Quotas, s: Sys, a: string, na: nat, da: int, b: string)
    requires Marked(s) && a != b && Known(s, Settle(a, na, da)) && Find(s.ledger, b) < |s.ledger|
    ensures var s' := Step(q, s, Settle(a, na, da));
      && Find(s'.ledger, b) == Find(s.ledger, b) && |s'.ledger| == |s.ledger|
      && s'.ledger[Find(s.ledger, b)] == s.ledger[Find(s.ledger, b)]
      && (ReservationKey(b) in s'.settled <==> ReservationKey(b) in s.settled)
  {
    ReservationKeysDistinct(a, b, ClientTokens, "", 0);
    hide BucketKey, ReservationKey, Adjusted;
    var s', j := Step(q, s, Settle(a, na, da)), Find(s.ledger, b);
    forall k | 0 <= k < |s.ledger| && k != j ensures !IsHold(s'.ledger[k], b) {
      if s.ledger[k].Hold? {
        if k < j {
          assert s.ledger[k].rsv.id != s.ledger[j].rsv.id;
        } else {
          assert s.ledger[j].rsv.id != s.ledger[k].rsv.id;
        }
      }
    }
    FindIs(s'.ledger, b, j);
  }

  /** Whether a counter ends the same in either order of two clamped moves: they are equal, or neither raises it,
      or the smaller alone does not take it below zero. */
  predicate OrderFree(value: int, x: int, y: int) {
    x == y || (x <= 0 && y <= 0) || value + Min(x, y) >= 0
  }

  lemma {:induction false} ClampOrder(value: nat, x: int, y: int)
    ensures Clamp(Clamp(value + x) + y) == Clamp(Clamp(value + y) + x) <==> OrderFree(value, x, y)
  {
  }

  /** The same for two settles: for every counter that both move. */
  ghost predicate OrdersAgree(s: Sys, a: string, na: nat, da: int, b: string, nb: nat, db: int)
    requires Known(s, Settle(a, na, da)) && Known(s, Settle(b, nb, db))
  {
    var ra, rb := s.ledger[Find(s.ledger, a)].rsv, s.ledger[Find(s.ledger, b)].rsv;
    forall key :: key in TokenKeys(ra, da) && key in TokenKeys(rb, db) ==>
      OrderFree(Read(s.counters, key), na - ra.Total(), nb - rb.Total())
  }

  /** What a first settle does. */
  lemma {:induction false} FirstSettle(q: Quotas, s: Sys, id: string, n: nat, day: int)
    requires Known(s, Settle(id, n, day)) && ReservationKey(id) !in s.settled
    ensures var i := Find(s.ledger, id); var h := s.ledger[i]; var keys := TokenKeys(h.rsv, day);
      var s' := Step(q, s, Settle(id, n, day));
      && s'.ledger == s.ledger[i := h.(actual := Some(n))] && s'.settled == s.settled + {ReservationKey(id)}
      && s'.counters.Keys == s.counters.Keys + (set k | k in keys)
      && forall key :: Read(s'.counters, key) ==
           if key in keys then Clamp(Read(s.counters, key) + (n - h.rsv.Total())) else Read(s.counters, key)
  {
    var h := s.ledger[Find(s.ledger, id)];
    var delta := n - h.rsv.Total();
    hide BucketKey, ReservationKey, Adjusted, TokenKeys, Read;
    AdjustedKeys(s.counters, TokenKeys(h.rsv, day), delta);
    forall key { SettledCounter(s.counters, h.rsv, day, delta, key); }
  }

  /** Two settles, on whatever days, give one state in either order if and only if one of them is a repeat or the
      clamp does not tell the orders apart on any counter that both move. */
  lemma {:induction false} SettlesCommuteIff(q: Quotas, s: Sys, a: string, na: nat, da: int, b: string, nb: nat,
                                             db: int)
    requires Accounted(s) && a != b && Known(s, Settle(a, na, da)) && Known(s, Settle(b, nb, db))
    ensures Known(Step(q, s, Settle(a, na, da)), Settle(b, nb, db))
    ensures Known(Step(q, s, Settle(b, nb, db)), Settle(a, na, da))
    ensures var ab := Step(q, Step(q, s, Settle(a, na, da)), Settle(b, nb, db));
      var ba := Step(q, Step(q, s, Settle(b, nb, db)), Settle(a, na, da));
      ab == ba <==>
        ReservationKey(a) in s.settled || ReservationKey(b) in s.settled || OrdersAgree(s, a, na, da, b, nb, db)
  {
    SettleElsewhere(q, s, a, na, da, b);
    SettleElsewhere(q, s, b, nb, db, a);
    hide BucketKey, ReservationKey, Adjusted, TokenKeys, Marked, OrdersAgree, Find;
    if ReservationKey(a) !in s.settled && ReservationKey(b) !in s.settled {
      hide Step;
      BothEffective(q, s, a, na, da, b, nb, db);
    }
  }

  lemma {:induction false} BothEffective(q: Quotas, s: Sys, a: string, na: nat, da: int, b: string, nb: nat, db: int)
    requires Accounted(s) && a != b && Known(s, Settle(a, na, da)) && Known(s, Settle(b, nb, db))
    requires ReservationKey(a) !in s.settled && ReservationKey(b) !in s.settled
    requires Known(Step(q, s, Settle(a, na, da)), Settle(b, nb, db))
    requires Known(Step(q, s, Settle(b, nb, db)), Settle(a, na, da))
    ensures var ab := Step(q, Step(q, s, Settle(a, na, da)), Settle(b, nb, db));
      var ba := Step(q, Step(q, s, Settle(b, nb, db)), Settle(a, na, da));
      ab == ba <==> OrdersAgree(s, a, na, da, b, nb, db)
  {
    hide Step, Marked, BucketKey, ReservationKey, TokenKeys, Read, Find, Clamp, OrderFree;
    var sa, sb := Step(q, s, Settle(a, na, da)), Step(q, s, Settle(b, nb, db));
    var sab, sba := Step(q, sa, Settle(b, nb, db)), Step(q, sb, Settle(a, na, da));
    SettleElsewhere(q, s, a, na, da, b);
    SettleElsewhere(q, s, b, nb, db, a);
    FirstSettle(q, s, a, na, da);
    FirstSettle(q, s, b, nb, db);
    FirstSettle(q, sa, b, nb, db);
    FirstSettle(q, sb, a, na, da);
    var ra, rb := s.ledger[Find(s.ledger, a)].rsv, s.ledger[Find(s.ledger, b)].rsv;
    forall key ensures Read(sab.counters, key) == Read(sba.counters, key) <==>
      (key in TokenKeys(ra, da) && key in TokenKeys(rb, db) ==>
         OrderFree(Read(s.counters, key), na - ra.Total(), nb - rb.Total()))
    {
      ClampOrder(Read(s.counters, key), na - ra.Total(), nb - rb.Total());
    }
    assert sab.ledger == sba.ledger && sab.settled == sba.settled && sab.counters.Keys == sba.counters.Keys;
    if OrdersAgree(s, a, na, da, b, nb, db) { SameReads(sab.counters, sba.counters); }
  }

  /** In same-day runs settling two different reservations always gives the same state in either order. */
  lemma {:induction false} SettlesCommute(q: Quotas, s: Sys, a: string, na: nat, da: int, b: string, nb: nat, db: int)
    requires Conserved(s) && a != b
    requires Enabled(s, Settle(a, na, da)) && Enabled(s, Settle(b, nb, db))
    ensures Enabled(Step(q, s, Settle(a, na, da)), Settle(b, nb, db))
    ensures Enabled(Step(q, s, Settle(b, nb, db)), Settle(a, na, da))
    ensures Step(q, Step(q, s, Settle(a, na, da)), Settle(b, nb, db)) ==
      Step(q, Step(q, s, Settle(b, nb, db)), Settle(a, na, da))
  {
    ConservedAccounts(s);
    SettlesCommuteIff(q, s, a, na, da, b, nb, db);
    SettleElsewhere(q, s, a, na, da, b);
    SettleElsewhere(q, s, b, nb, db, a);
    hide BucketKey, ReservationKey, TokenKeys, Step, Read, Sum;
    if ReservationKey(a) !in s.settled && ReservationKey(b) !in s.settled {
      UnsettledIsOpen(s, a);
      UnsettledIsOpen(s, b);
      hide Marked;
      SettleExact(s, Find(s.ledger, a), na, "");
      SettleExact(s, Find(s.ledger, b), nb, "");
    }
  }

  lemma {:induction false} ConservedAccounts(s: Sys)
    requires Conserved(s)
    ensures Accounted(s)
  {
    hide Marked;
    forall key ensures Read(s.counters, key) >= 0 {
      assert Read(s.counters, key) == Sum(s.ledger, key);
      SumNonNegative(s.ledger, key);
    }
  }

  lemma {:induction false} SameReads(m: Counters, m': Counters)
    requires m.Keys == m'.Keys && forall key :: Read(m, key) == Read(m', key)
    ensures m == m'
  {
    forall key | key in m ensures m[key] == m'[key] {
      assert Read(m, key) == Read(m', key);
    }
  }

  // ---------- What the calls do to the counters ----------

  /** How much a bucket gets when the client, provider and model counters of a day rise by `tokens` and the request
      counters by one. */
  function RiseOf(client: string, provider: string, model: string, day: int, tokens: int, kind: Kind, name: string,
                  d: int): int
  {
    if d != day then 0
    else
      match kind
      case ClientTokens => if name == client then tokens else 0
      case ClientRequests => if name == client then 1 else 0
      case ProviderTokens => if name == provider then tokens else 0
      case ProviderRequests => if name == provider then 1 else 0
      case ModelTokens => if name == model then tokens else 0
  }

  /** Those counters rise, and every other bucket stays. */
  ghost predicate Raises(m: Counters, m': Counters, client: string, provider: string, model: string, day: int,
                         tokens: int)
  {
    forall kind, name, d :: Read(m', BucketKey(kind, name, d)) ==
      Read(m, BucketKey(kind, name, d)) + RiseOf(client, provider, model, day, tokens, kind, name, d)
  }

  predicate OwnTokens(rsv: Reservation, day: int, kind: Kind, name: string, d: int) {
    d == day && match kind
                case ClientTokens => name == rsv.client
                case ProviderTokens => name == rsv.provider
                case ModelTokens => name == rsv.model
                case _ => false
  }

  /** The three token counters of a reservation on a day move by `delta`, but not below zero; every other bucket
      stays. */
  ghost predicate Refunds(m: Counters, m': Counters, rsv: Reservation, day: int, delta: int) {
    forall kind, name, d ::
      var v := Read(m, BucketKey(kind, name, d));
      Read(m', BucketKey(kind, name, d)) ==
        if !OwnTokens(rsv, day, kind, name, d) then v else if v + delta > 0 then v + delta else 0
  }

  /** A limit that is set and not negative is kept. */
  predicate Fits(limit: Option<int>, used: int, need: int) {
    limit.Some? && limit.value >= 0 ==> used + need <= limit.value
  }

  lemma {:induction false} ReservedRaises(q: Quotas, m: Counters, rsv: Reservation, day: int)
    ensures Raises(m, Reserved(m, AdmitOpFor(q, rsv, day)), rsv.client, rsv.provider, rsv.model, day,
                   rsv.promptEst + rsv.completionCap)
  {
    hide BucketKey, Reserved, AdmitOpFor, Read, Share;
    var m' := Reserved(m, AdmitOpFor(q, rsv, day));
    forall kind, name, d
      ensures Read(m', BucketKey(kind, name, d)) == Read(m, BucketKey(kind, name, d)) +
              RiseOf(rsv.client, rsv.provider, rsv.model, day, rsv.promptEst + rsv.completionCap, kind, name, d)
    {
      ReservedShares(q, m, rsv, day, BucketKey(kind, name, d));
      ShareByName(Hold(rsv, day, None), kind, name, d);
    }
  }

  lemma {:induction false} SettledRefunds(m: Counters, rsv: Reservation, day: int, delta: int)
    ensures Refunds(m, Adjusted(m, TokenKeys(rsv, day), delta), rsv, day, delta)
  {
    hide BucketKey, Adjusted, Read;
    var m' := Adjusted(m, TokenKeys(rsv, day), delta);
    forall kind, name, d
      ensures var v := Read(m, BucketKey(kind, name, d));
        Read(m', BucketKey(kind, name, d)) ==
          if !OwnTokens(rsv, day, kind, name, d) then v else if v + delta > 0 then v + delta else 0
    {
      SettledCounter(m, rsv, day, delta, BucketKey(kind, name, d));
      BucketKeysDistinct(kind, name, d, ClientTokens, rsv.client, day);
      BucketKeysDistinct(kind, name, d, ProviderTokens, rsv.provider, day);
      BucketKeysDistinct(kind, name, d, ModelTokens, rsv.model, day);
    }
  }

  function CountedAll(m: Counters, client: string, provider: string, model: string, day: int, total: int): Counters {
    Add(Add(Add(Add(Add(m, BucketKey(ClientTokens, client, day), total), BucketKey(ClientRequests, client, day), 1),
                BucketKey(ProviderTokens, provider, day), total), BucketKey(ProviderRequests, provider, day), 1),
        BucketKey(ModelTokens, model, day), total)
  }

  lemma {:induction false} CountedRaises(m: Counters, client: string, provider: string, model: string, day: int,
                                         total: nat)
    ensures Raises(m, CountedAll(m, client, provider, model, day, total), client, provider, model, day, total)
  {
    var q := Quotas(None, None, None, 0);
    var rsv := Reservation("", client, provider, model, total, 0);
    assert CountedAll(m, client, provider, model, day, total) == Reserved(m, AdmitOpFor(q, rsv, day)) by {
      hide BucketKey, Add;
    }
    ReservedRaises(q, m, rsv, day);
  }

  /** The gates, told by the limits and counters themselves. */
  lemma {:induction false} GateMeans(q: Quotas, m: Counters, rsv: Reservation, day: int)
    ensures var need := rsv.promptEst + rsv.completionCap;
      var tokens := Fits(q.clientTokens, Read(m, BucketKey(ClientTokens, rsv.client, day)), need);
      var requests := Fits(q.clientRequests, Read(m, BucketKey(ClientRequests, rsv.client, day)), 1);
      var provider := Fits(q.providerTokens, Read(m, BucketKey(ProviderTokens, rsv.provider, day)), need);
      Gate(m, AdmitOpFor(q, rsv, day)) ==
        if !requests then Some(DeniedClientRequests)
        else if !tokens then Some(DeniedClientTokens)
        else if !provider then Some(DeniedProviderTokens) else None
  {
    hide BucketKey, Read;
  }

  // ---------- The metering object ----------

  class Meter {
    const quotas: Quotas
    const store: InMemoryStore
    ghost var ledger: seq<Entry>

    ghost function Abs(): Sys
      reads this, store
    {
      Sys(store.counters, store.settled, ledger)
    }

    constructor (quotas: Quotas, store: InMemoryStore)
      requires store.counters == map[] && store.settled == {}
      ensures this.quotas == quotas && this.store == store && Abs() == EMPTY
    {
      this.quotas, this.store, this.ledger := quotas, store, [];
    }

    /** Checks the quotas and reserves the prompt estimate plus the completion cap, or refuses and consumes
        nothing. `id` is the freshly drawn id, `day` the current day. */
    method AdmitRequest(client: string, provider: string, model: string, promptEst: int, completionCap: Option<int>,
                        day: int, id: string) returns (r: Result<Reservation, QuotaExceeded>)
      requires Find(ledger, id) == |ledger|
      modifies this`ledger, store`counters
      ensures var cap := match completionCap case Some(n) => n case None => quotas.completionReserve;
        var rsv := Reservation(id, client, provider, model, NonNegative(promptEst), NonNegative(cap));
        && Known(old(Abs()), Admit(rsv, day)) && Abs() == Step(quotas, old(Abs()), Admit(rsv, day))
        && (r.Success? ==> r.value == rsv)
        && (r.Success? <==> Gate(old(store.counters), AdmitOpFor(quotas, rsv, day)).None?)
        && (r.Failure? ==> r.error == Refusal(quotas, Gate(old(store.counters), AdmitOpFor(quotas, rsv, day)).value))
      ensures var prompt := if promptEst > 0 then promptEst else 0;
        var asked := match completionCap case Some(n) => n case None => quotas.completionReserve;
        var need := prompt + (if asked > 0 then asked else 0);
        var m := old(store.counters);
        var tokens := Fits(quotas.clientTokens, Read(m, BucketKey(ClientTokens, client, day)), need);
        var requests := Fits(quotas.clientRequests, Read(m, BucketKey(ClientRequests, client, day)), 1);
        var served := Fits(quotas.providerTokens, Read(m, BucketKey(ProviderTokens, provider, day)), need);
        && (r.Success? <==> requests && tokens && served)
        && (r.Success? ==> Raises(old(store.counters), store.counters, client, provider, model, day, need))
        && (r.Failure? ==> store.counters == old(store.counters))
        && (!requests ==> r.Failure? && r.error.scope == "requests" && quotas.clientRequests == Some(r.error.limit))
        && (requests && !tokens ==>
              r.Failure? && r.error.scope == "tokens" && quotas.clientTokens == Some(r.error.limit))
        && (requests && tokens && !served ==>
              r.Failure? && r.error.scope == "provider_tokens" && quotas.providerTokens == Some(r.error.limit))
    {
      hide BucketKey, Raises, Read;
      var cap := match completionCap case Some(n) => n case None => quotas.completionReserve;
      var rsv := Reservation(id, client, provider, model, NonNegative(promptEst), NonNegative(cap));
      GateMeans(quotas, store.counters, rsv, day);
      ReservedRaises(quotas, store.counters, rsv, day);
      hide Gate, Reserved, AdmitOpFor;
      var denied := store.Reserve(AdmitOpFor(quotas, rsv, day));
      if denied.None? {
        ledger := ledger + [Hold(rsv, day, None)];
        return Success(rsv);
      }
      match denied.value {
        case DeniedClientTokens =>
          return Failure(QuotaExceeded("tokens", if quotas.clientTokens.Some? then quotas.clientTokens.value else 0));
        case DeniedClientRequests =>
          var limit := if quotas.clientRequests.Some? then quotas.clientRequests.value else 0;
          return Failure(QuotaExceeded("requests", limit));
        case DeniedProviderTokens =>
          var limit := if quotas.providerTokens.Some? then quotas.providerTokens.value else 0;
          return Failure(QuotaExceeded("provider_tokens", limit));
      }
    }

    /** Reconciles a reservation with actual usage, once; the keys are those of the current day. */
    method SettleUsage(rsv: Reservation, prompt: nat, completion: nat, day: int)
      requires Find(ledger, rsv.id) < |ledger| && ledger[Find(ledger, rsv.id)].rsv == rsv
      modifies this`ledger, store
      ensures Known(old(Abs()), Settle(rsv.id, prompt + completion, day))
      ensures Abs() == Step(quotas, old(Abs()), Settle(rsv.id, prompt + completion, day))
      ensures if ReservationKey(rsv.id) in old(store.settled) then store.counters == old(store.counters)
        else
          Refunds(old(store.counters), store.counters, rsv, day,
                  prompt + completion - (rsv.promptEst + rsv.completionCap))
    {
      hide BucketKey, Adjusted, TokenKeys, Refunds;
      SettledRefunds(store.counters, rsv, day, prompt + completion - rsv.Total());
      var delta := prompt + completion - rsv.Total();
      var applied := store.Settle(SettleReq(ReservationKey(rsv.id), TokenKeys(rsv, day), delta));
      if applied {
        ghost var i := Find(ledger, rsv.id);
        ledger := ledger[i := ledger[i].(actual := Some(prompt + completion))];
      } else {
        assert store.settled == old(store.settled);
      }
    }

    /** Counts a request that was served without an admission. */
    method RecordUsage(client: string, provider: string, model: string, prompt: nat, completion: nat, day: int)
      modifies this`ledger, store`counters
      ensures var total := prompt + completion;
        Abs() == Five(quotas, old(Abs()), Incr(ClientTokens, client, day, total), Incr(ClientRequests, client, day, 1),
                      Incr(ProviderTokens, provider, day, total), Incr(ProviderRequests, provider, day, 1),
                      Incr(ModelTokens, model, day, total))
      ensures Raises(old(store.counters), store.counters, client, provider, model, day, prompt + completion)
    {
      hide BucketKey, Raises;
      CountedRaises(store.counters, client, provider, model, day, prompt + completion);
      var total := prompt + completion;
      IncrBy(ClientTokens, client, day, total);
      IncrBy(ClientRequests, client, day, 1);
      IncrBy(ProviderTokens, provider, day, total);
      IncrBy(ProviderRequests, provider, day, 1);
      IncrBy(ModelTokens, model, day, total);
    }

    method IncrBy(kind: Kind, name: string, day: int, amount: nat)
      modifies this`ledger, store`counters
      ensures Abs() == Step(quotas, old(Abs()), Incr(kind, name, day, amount))
    {
      var v := store.Incr(BucketKey(kind, name, day), amount);
      ledger := ledger + [Recorded(BucketKey(kind, name, day), amount)];
    }
  }

  function NonNegative(n: int): nat {
    if n < 0 then 0 else n
  }

  /** The error a refusal is reported with. */
  function Refusal(q: Quotas, denied: Denied): QuotaExceeded {
    match denied
    case DeniedClientTokens => QuotaExceeded("tokens", if q.clientTokens.Some? then q.clientTokens.value else 0)
    case DeniedClientRequests => QuotaExceeded("requests", if q.clientRequests.Some? then q.clientRequests.value else 0)
    case DeniedProviderTokens =>
      QuotaExceeded("provider_tokens", if q.providerTokens.Some? then q.providerTokens.value else 0)
  }

  function Five(q: Quotas, s: Sys, a: Event, b: Event, c: Event, d: Event, e: Event): Sys
    requires a.Incr? && b.Incr? && c.Incr? && d.Incr? && e.Incr?
  {
    Step(q, Step(q, Step(q, Step(q, Step(q, s, a), b), c), d), e)
  }
}
