/** The Redis counter store and its two scripts, refined against the in-memory store over timed runs. */
module LuaStore {
  import opened Wrappers
  import opened DayKeys
  import opened MeteringStore
  import opened Metering
  import Redis

  const RSV_TTL := 600.0
  const BUCKET_TTL := 172_800.0

  // ---------- The scripts ----------

  /** The admission script's checks: client tokens first, then requests, then provider tokens. */
  function ScriptGate(ks: Redis.Keyspace, op: AdmitOp, now: real): Option<Denied> {
    if Exceeds(op.cTokensLimit, Redis.LookupNumber(ks, op.cTokensKey, now), op.reserve) then Some(DeniedClientTokens)
    else if Exceeds(op.cReqLimit, Redis.LookupNumber(ks, op.cReqKey, now), 1) then Some(DeniedClientRequests)
    else if Exceeds(op.pTokensLimit, Redis.LookupNumber(ks, op.pTokensKey, now), op.reserve)
      then Some(DeniedProviderTokens)
    else None
  }

  function OpKeys(op: AdmitOp): seq<string> {
    [op.cTokensKey, op.cReqKey, op.pTokensKey, op.pReqKey, op.mTokensKey]
  }

  function OpAmounts(op: AdmitOp): seq<int> {
    [op.reserve, 1, op.reserve, 1, op.reserve]
  }

  function ScriptReserved(ks: Redis.Keyspace, op: AdmitOp, rsvKey: string, now: real): Redis.Keyspace {
    Redis.SetEx(Redis.ExpireAll(Redis.IncrAll(ks, OpKeys(op), OpAmounts(op), now), OpKeys(op), now, BUCKET_TTL),
                rsvKey, Redis.Text("open"), now, RSV_TTL)
  }

  predicate IsOpen(ks: Redis.Keyspace, rsvKey: string, now: real) {
    Redis.Lookup(ks, rsvKey, now) == Some(Redis.Text("open"))
  }

  /** Each counter moved by `delta`, never below zero, with a fresh expiry. */
  function ScriptAdjusted(ks: Redis.Keyspace, keys: seq<string>, delta: int, now: real): Redis.Keyspace {
    if keys == [] then ks
    else
      var n := |keys| - 1;
      var ks' := ScriptAdjusted(ks, keys[..n], delta, now);
      var v := Redis.LookupNumber(ks', keys[n], now) + delta;
      Redis.SetEx(ks', keys[n], Redis.Number(if v < 0 then 0 else v), now, BUCKET_TTL)
  }

  function ScriptSettled(ks: Redis.Keyspace, req: SettleReq, now: real): Redis.Keyspace {
    if !IsOpen(ks, req.reservationKey, now) then ks
    else ScriptAdjusted(Redis.SetKeep(ks, req.reservationKey, Redis.Text("settled"), now), req.tokenKeys, req.delta,
      now)
  }

  class RedisStore {
    var cells: Redis.Keyspace

    constructor ()
      ensures cells == map[]
    {
      cells := map[];
    }

    method Reserve(op: AdmitOp, rsvKey: string, now: real) returns (r: Option<Denied>)
      modifies this
      ensures r == ScriptGate(old(cells), op, now)
      ensures cells == if r.None? then ScriptReserved(old(cells), op, rsvKey, now) else old(cells)
    {
      hide Redis.LookupNumber, Redis.IncrAll, Redis.ExpireAll;
      var ct := Redis.LookupNumber(cells, op.cTokensKey, now);
      var cr := Redis.LookupNumber(cells, op.cReqKey, now);
      var pt := Redis.LookupNumber(cells, op.pTokensKey, now);
      if op.cTokensLimit >= 0 && ct + op.reserve > op.cTokensLimit {
        return Some(DeniedClientTokens);
      }
      if op.cReqLimit >= 0 && cr + 1 > op.cReqLimit {
        return Some(DeniedClientRequests);
      }
      if op.pTokensLimit >= 0 && pt + op.reserve > op.pTokensLimit {
        return Some(DeniedProviderTokens);
      }
      CountAll(OpKeys(op), OpAmounts(op), now);
      RenewAll(OpKeys(op), now);
      cells := Redis.SetEx(cells, rsvKey, Redis.Text("open"), now, RSV_TTL);
      return None;
    }

    method CountAll(keys: seq<string>, amounts: seq<int>, now: real)
      requires |keys| == |amounts|
      modifies this
      ensures cells == Redis.IncrAll(old(cells), keys, amounts, now)
    {
      for i := 0 to |keys|
        invariant cells == Redis.IncrAll(old(cells), keys[..i], amounts[..i], now)
      {
        cells := Redis.IncrBy(cells, keys[i], amounts[i], now);
        assert keys[..i + 1][..i] == keys[..i] && amounts[..i + 1][..i] == amounts[..i];
      }
      assert keys[..|keys|] == keys && amounts[..|keys|] == amounts;
    }

    method RenewAll(keys: seq<string>, now: real)
      modifies this
      ensures cells == Redis.ExpireAll(old(cells), keys, now, BUCKET_TTL)
    {
      for i := 0 to |keys|
        invariant cells == Redis.ExpireAll(old(cells), keys[..i], now, BUCKET_TTL)
      {
        cells := Redis.Expire(cells, keys[i], now, BUCKET_TTL);
        assert keys[..i + 1][..i] == keys[..i];
      }
      assert keys[..|keys|] == keys;
    }

    method Settle(req: SettleReq, now: real) returns (applied: bool)
      modifies this
      ensures applied == IsOpen(old(cells), req.reservationKey, now)
      ensures cells == ScriptSettled(old(cells), req, now)
    {
      if Redis.Lookup(cells, req.reservationKey, now) != Some(Redis.Text("open")) {
        return false;
      }
      cells := Redis.SetKeep(cells, req.reservationKey, Redis.Text("settled"), now);
      ghost var marked := cells;
      for i := 0 to |req.tokenKeys|
        invariant cells == ScriptAdjusted(marked, req.tokenKeys[..i], req.delta, now)
      {
        var v := Redis.LookupNumber(cells, req.tokenKeys[i], now) + req.delta;
        if v < 0 { v := 0; }
        cells := Redis.SetEx(cells, req.tokenKeys[i], Redis.Number(v), now, BUCKET_TTL);
        assert req.tokenKeys[..i + 1][..i] == req.tokenKeys[..i];
      }
      assert req.tokenKeys[..|req.tokenKeys|] == req.tokenKeys;
      return true;
    }

    /** A plain increment sets no expiry of its own. */
    method Incr(key: string, amount: int, now: real) returns (r: int)
      modifies this
      ensures cells == Redis.IncrBy(old(cells), key, amount, now) && r == Redis.LookupNumber(cells, key, now)
    {
      cells := Redis.IncrBy(cells, key, amount, now);
      r := Redis.LookupNumber(cells, key, now);
    }
  }

  // ---------- Timed runs of both stores ----------

  /** The in-memory system, the Redis keyspace beside it, and when each reservation was admitted. */
  datatype Both = Both(sys: Sys, cells: Redis.Keyspace, times: map<string, real>)

  const EMPTY_BOTH := Both(EMPTY, map[], map[])

  /** The same event on the Redis side alone; a settle knows its reservation from the admission. */
  function ScriptStep(q: Quotas, ks: Redis.Keyspace, e: Event, rsv: Reservation, now: real): Redis.Keyspace {
    match e
    case Admit(r, day) =>
      var op := AdmitOpFor(q, r, day);
      if ScriptGate(ks, op, now).Some? then ks else ScriptReserved(ks, op, ReservationKey(r.id), now)
    case Settle(id, actual, day) =>
      ScriptSettled(ks, SettleReq(ReservationKey(id), TokenKeys(rsv, day), actual - rsv.Total()), now)
    case Incr(kind, name, day, amount) => Redis.IncrBy(ks, BucketKey(kind, name, day), amount, now)
  }

  /** Events carry the day of the clock, and a first settle comes before the reservation entry expires, be it
      on the day of its admission or after midnight. Repeated settles may come at any time. */
  predicate Timely(b: Both, e: Event, now: real) {
    && now >= 0.0 && Known(b.sys, e)
    && match e
       case Admit(_, day) => day == DayOf(now)
       case Incr(_, _, day, _) => day == DayOf(now)
       case Settle(id, _, day) =>
         var h := b.sys.ledger[Find(b.sys.ledger, id)];
         day == DayOf(now) && (h.actual.None? ==> id in b.times && now < b.times[id] + RSV_TTL)
  }

  function RsvOf(s: Sys, e: Event): Reservation
    requires Known(s, e)
  {
    match e
    case Admit(rsv, _) => rsv
    case Settle(id, _, _) => s.ledger[Find(s.ledger, id)].rsv
    case Incr(_, _, _, _) => Reservation("", "", "", "", 0, 0)
  }

  function StepBoth(q: Quotas, b: Both, e: Event, now: real): Both
    requires Timely(b, e, now)
  {
    Both(Step(q, b.sys, e), ScriptStep(q, b.cells, e, RsvOf(b.sys, e), now),
         if e.Admit? && Step(q, b.sys, e) != b.sys then b.times[e.rsv.id := now] else b.times)
  }

  // ---------- The refinement relation ----------

  /** A bucket's entry holds the counter's value and outlives its day by one more. */
  predicate BucketMatches(ks: Redis.Keyspace, key: string, day: int, value: int) {
    match Redis.CellAt(ks, key)
    case None => value == 0
    case Some(c) =>
      && c.value == Redis.Number(value)
      && (c.expireAt.Some? ==> c.expireAt.value >= (86_400 * (day + 2)) as real)
  }

  ghost predicate BucketsMatch(b: Both) {
    forall kind, name, day ::
      BucketMatches(b.cells, BucketKey(kind, name, day), day, Read(b.sys.counters, BucketKey(kind, name, day)))
  }

  /** The entry of one reservation: none before admission, then "open" or "settled" until it expires. */
  predicate EntryMatches(cell: Option<Redis.Cell>, admitted: bool, timed: bool, settled: bool, at: real) {
    && (timed <==> admitted)
    && cell == if !timed then None
      else Some(Redis.Cell(Redis.Text(if settled then "settled" else "open"), Some(at + RSV_TTL)))
  }

  function TimeOf(b: Both, id: string): real {
    if id in b.times then b.times[id] else 0.0
  }

  predicate ReservationMatches(b: Both, id: string) {
    EntryMatches(Redis.CellAt(b.cells, ReservationKey(id)), Find(b.sys.ledger, id) < |b.sys.ledger|, id in b.times,
                 ReservationKey(id) in b.sys.settled, TimeOf(b, id))
  }

  /** A reservation's entry says whether it is open, and expires 600 seconds after the admission. */
  ghost predicate ReservationsMatch(b: Both) {
    forall id :: ReservationMatches(b, id)
  }

  ghost predicate Mirrors(b: Both) {
    Accounted(b.sys) && BucketsMatch(b) && ReservationsMatch(b)
  }

  lemma {:induction false} BucketReads(b: Both, kind: Kind, name: string, now: real)
    requires BucketsMatch(b) && now >= 0.0
    ensures var key := BucketKey(kind, name, DayOf(now));
      Redis.LookupNumber(b.cells, key, now) == Read(b.sys.counters, key)
      && (Redis.Lookup(b.cells, key, now).None? ==> Read(b.sys.counters, key) == 0)
      && (Redis.Lookup(b.cells, key, now).Some? ==>
        Redis.Lookup(b.cells, key, now) == Some(Redis.Number(Read(b.sys.counters, key))))
  {
    DayBounds(now);
    hide BucketKey;
    var key := BucketKey(kind, name, DayOf(now));
    assert BucketMatches(b.cells, key, DayOf(now), Read(b.sys.counters, key));
  }

  // ---------- Admissions ----------

  lemma {:induction false} OpKeysDistinct(q: Quotas, rsv: Reservation, day: int)
    ensures Distinct(OpKeys(AdmitOpFor(q, rsv, day)))
  {
    BucketKeysDistinct(ClientTokens, rsv.client, day, ClientRequests, rsv.client, day);
    BucketKeysDistinct(ClientTokens, rsv.client, day, ProviderTokens, rsv.provider, day);
    BucketKeysDistinct(ClientTokens, rsv.client, day, ProviderRequests, rsv.provider, day);
    BucketKeysDistinct(ClientTokens, rsv.client, day, ModelTokens, rsv.model, day);
    BucketKeysDistinct(ClientRequests, rsv.client, day, ProviderTokens, rsv.provider, day);
    BucketKeysDistinct(ClientRequests, rsv.client, day, ProviderRequests, rsv.provider, day);
    BucketKeysDistinct(ClientRequests, rsv.client, day, ModelTokens, rsv.model, day);
    BucketKeysDistinct(ProviderTokens, rsv.provider, day, ProviderRequests, rsv.provider, day);
    BucketKeysDistinct(ProviderTokens, rsv.provider, day, ModelTokens, rsv.model, day);
    BucketKeysDistinct(ProviderRequests, rsv.provider, day, ModelTokens, rsv.model, day);
    hide BucketKey;
  }

  lemma {:induction false} ReservedAt(m: Counters, op: AdmitOp, i: nat)
    requires Distinct(OpKeys(op)) && i < 5
    ensures Read(Reserved(m, op), OpKeys(op)[i]) == Read(m, OpKeys(op)[i]) + OpAmounts(op)[i]
  {
    var k := OpKeys(op);
    assert k[0] != k[1] && k[0] != k[2] && k[0] != k[3] && k[0] != k[4] && k[1] != k[2] && k[1] != k[3]
        && k[1] != k[4] && k[2] != k[3] && k[2] != k[4] && k[3] != k[4];
  }

  lemma {:induction false} ReservedElsewhere(m: Counters, op: AdmitOp, key: string)
    requires key !in OpKeys(op)
    ensures Read(Reserved(m, op), key) == Read(m, key)
  {
    var k := OpKeys(op);
    assert k[0] in k && k[1] in k && k[2] in k && k[3] in k && k[4] in k;
  }

  /** Both stores decide an admission alike; only the reported budget may differ, namely when the client is
      out of tokens and out of requests at once. */
  lemma {:induction false} GatesAgree(q: Quotas, b: Both, rsv: Reservation, now: real)
    requires BucketsMatch(b) && now >= 0.0
    ensures var op := AdmitOpFor(q, rsv, DayOf(now));
      var lua, mem := ScriptGate(b.cells, op, now), Gate(b.sys.counters, op);
      && (lua.Some? <==> mem.Some?)
      && (lua != mem <==> Exceeds(op.cTokensLimit, Read(b.sys.counters, op.cTokensKey), op.reserve)
                          && Exceeds(op.cReqLimit, Read(b.sys.counters, op.cReqKey), 1))
  {
    BucketReads(b, ClientTokens, rsv.client, now);
    BucketReads(b, ClientRequests, rsv.client, now);
    BucketReads(b, ProviderTokens, rsv.provider, now);
    hide BucketKey, Redis.LookupNumber, Read, BucketsMatch;
  }

  lemma {:induction false} ReservedBucket(q: Quotas, b: Both, rsv: Reservation, now: real, kind: Kind, name: string,
                                          day: int)
    requires BucketsMatch(b) && now >= 0.0
    ensures var op := AdmitOpFor(q, rsv, DayOf(now)); var key := BucketKey(kind, name, day);
      BucketMatches(ScriptReserved(b.cells, op, ReservationKey(rsv.id), now), key, day,
        Read(Reserved(b.sys.counters, op), key))
  {
    hide BucketKey, ReservationKey, DayOf, Reserved;
    var today := DayOf(now);
    var op := AdmitOpFor(q, rsv, today);
    var key := BucketKey(kind, name, day);
    ReservationKeysDistinct(rsv.id, rsv.id, kind, name, day);
    assert BucketMatches(b.cells, key, day, Read(b.sys.counters, key));
    if key in OpKeys(op) {
      var i :| 0 <= i < 5 && OpKeys(op)[i] == key;
      SameDay(q, rsv, today, kind, name, day, i);
      CountedBucket(q, b, rsv, now, kind, name, i);
    } else {
      UncountedBucket(b.cells, b.sys.counters, op, now, key);
    }
  }

  lemma {:induction false} CountedBucket(q: Quotas, b: Both, rsv: Reservation, now: real, kind: Kind, name: string,
                                         i: nat)
    requires BucketsMatch(b) && now >= 0.0 && i < 5
    requires OpKeys(AdmitOpFor(q, rsv, DayOf(now)))[i] == BucketKey(kind, name, DayOf(now))
    ensures var op := AdmitOpFor(q, rsv, DayOf(now)); var key := BucketKey(kind, name, DayOf(now));
      BucketMatches(Redis.ExpireAll(Redis.IncrAll(b.cells, OpKeys(op), OpAmounts(op), now), OpKeys(op), now,
        BUCKET_TTL),
                    key, DayOf(now), Read(Reserved(b.sys.counters, op), key))
  {
    hide BucketKey, BucketsMatch;
    var op := AdmitOpFor(q, rsv, DayOf(now));
    OpKeysDistinct(q, rsv, DayOf(now));
    BucketReads(b, kind, name, now);
    DayBounds(now);
    ReservedAt(b.sys.counters, op, i);
    hide DayOf, Reserved, AdmitOpFor;
    Redis.CountAndRenew(b.cells, OpKeys(op), OpAmounts(op), now, BUCKET_TTL, i, Read(b.sys.counters, OpKeys(op)[i]));
  }

  lemma {:induction false} UncountedBucket(ks: Redis.Keyspace, m: Counters, op: AdmitOp, now: real, key: string)
    requires key !in OpKeys(op)
    ensures Redis.CellAt(Redis.ExpireAll(Redis.IncrAll(ks, OpKeys(op), OpAmounts(op), now), OpKeys(op), now,
      BUCKET_TTL), key)
         == Redis.CellAt(ks, key)
    ensures Read(Reserved(m, op), key) == Read(m, key)
  {
    ReservedElsewhere(m, op, key);
    hide Reserved;
    Redis.IncrAllElsewhere(ks, OpKeys(op), OpAmounts(op), now, key);
    Redis.ExpireAllElsewhere(Redis.IncrAll(ks, OpKeys(op), OpAmounts(op), now), OpKeys(op), now, BUCKET_TTL, key);
  }

  lemma {:induction false} SameDay(q: Quotas, rsv: Reservation, today: int, kind: Kind, name: string, day: int, i: nat)
    requires i < 5 && OpKeys(AdmitOpFor(q, rsv, today))[i] == BucketKey(kind, name, day)
    ensures day == today
  {
    BucketKeysDistinct(kind, name, day, ClientTokens, rsv.client, today);
    BucketKeysDistinct(kind, name, day, ClientRequests, rsv.client, today);
    BucketKeysDistinct(kind, name, day, ProviderTokens, rsv.provider, today);
    BucketKeysDistinct(kind, name, day, ProviderRequests, rsv.provider, today);
    BucketKeysDistinct(kind, name, day, ModelTokens, rsv.model, today);
    hide BucketKey;
  }

  lemma {:induction false} ReservedReservation(q: Quotas, b: Both, rsv: Reservation, now: real, id: string)
    ensures var op := AdmitOpFor(q, rsv, DayOf(now));
      Redis.CellAt(ScriptReserved(b.cells, op, ReservationKey(rsv.id), now), ReservationKey(id)) ==
        if id == rsv.id then Some(Redis.Cell(Redis.Text("open"), Some(now + RSV_TTL)))
          else Redis.CellAt(b.cells, ReservationKey(id))
  {
    var op := AdmitOpFor(q, rsv, DayOf(now));
    var keys := OpKeys(op);
    ReservationKeysDistinct(id, rsv.id, ClientTokens, rsv.client, DayOf(now));
    ReservationKeysDistinct(id, rsv.id, ClientRequests, rsv.client, DayOf(now));
    ReservationKeysDistinct(id, rsv.id, ProviderTokens, rsv.provider, DayOf(now));
    ReservationKeysDistinct(id, rsv.id, ProviderRequests, rsv.provider, DayOf(now));
    ReservationKeysDistinct(id, rsv.id, ModelTokens, rsv.model, DayOf(now));
    hide BucketKey, ReservationKey, DayOf;
    Redis.IncrAllElsewhere(b.cells, keys, OpAmounts(op), now, ReservationKey(id));
    Redis.ExpireAllElsewhere(Redis.IncrAll(b.cells, keys, OpAmounts(op), now), keys, now, BUCKET_TTL,
      ReservationKey(id));
  }

  lemma {:induction false} FindAppended(ledger: seq<Entry>, e: Entry, id: string)
    ensures Find(ledger + [e], id) < |ledger| + 1 <==> Find(ledger, id) < |ledger| || IsHold(e, id)
  {
    assert (ledger + [e])[..|ledger|] == ledger;
  }

  lemma {:induction false} AdmittedReservations(q: Quotas, b: Both, rsv: Reservation, now: real, b': Both, id: string)
    requires Marked(b.sys) && Find(b.sys.ledger, rsv.id) == |b.sys.ledger| && ReservationMatches(b, id)
    requires b'.cells == ScriptReserved(b.cells, AdmitOpFor(q, rsv, DayOf(now)), ReservationKey(rsv.id), now)
    requires b'.sys.settled == b.sys.settled && b'.sys.ledger == b.sys.ledger + [Hold(rsv, DayOf(now), None)]
    requires b'.times == b.times[rsv.id := now]
    ensures ReservationMatches(b', id)
  {
    hide ReservationKey, ScriptReserved, AdmitOpFor, DayOf, Marked, Find;
    NotYetSettled(b.sys, rsv.id);
    ReservedReservation(q, b, rsv, now, id);
    FindAppended(b.sys.ledger, Hold(rsv, DayOf(now), None), id);
  }

  lemma {:induction false} AdmitUnfolds(q: Quotas, b: Both, rsv: Reservation, now: real)
    requires BucketsMatch(b) && Timely(b, Admit(rsv, DayOf(now)), now)
    ensures var b' := StepBoth(q, b, Admit(rsv, DayOf(now)), now); var op := AdmitOpFor(q, rsv, DayOf(now));
      && (Gate(b.sys.counters, op).Some? ==> b' == b)
      && (Gate(b.sys.counters, op).None? ==>
           && b'.times == b.times[rsv.id := now]
           && b'.sys == Sys(Reserved(b.sys.counters, op), b.sys.settled, b.sys.ledger + [Hold(rsv, DayOf(now), None)])
           && b'.cells == ScriptReserved(b.cells, op, ReservationKey(rsv.id), now))
  {
    GatesAgree(q, b, rsv, now);
    hide BucketKey, ReservationKey, Reserved, DayOf, ScriptReserved, ScriptGate, Gate, AdmitOpFor, BucketsMatch;
    LedgerGrows(q, b.sys, Admit(rsv, DayOf(now)));
  }

  lemma {:induction false} AdmittedBuckets(q: Quotas, b: Both, b': Both, rsv: Reservation, now: real)
    requires BucketsMatch(b) && now >= 0.0
    requires b'.sys.counters == Reserved(b.sys.counters, AdmitOpFor(q, rsv, DayOf(now)))
    requires b'.cells == ScriptReserved(b.cells, AdmitOpFor(q, rsv, DayOf(now)), ReservationKey(rsv.id), now)
    ensures BucketsMatch(b')
  {
    hide BucketKey, ReservationKey, Reserved, DayOf, ScriptReserved, AdmitOpFor, BucketMatches;
    forall kind, name, day
      ensures BucketMatches(b'.cells, BucketKey(kind, name, day), day,
        Read(b'.sys.counters, BucketKey(kind, name, day)))
    {
      ReservedBucket(q, b, rsv, now, kind, name, day);
    }
  }

  lemma {:induction false} AdmitRefines(q: Quotas, b: Both, rsv: Reservation, now: real)
    requires Mirrors(b) && Timely(b, Admit(rsv, DayOf(now)), now)
    ensures Mirrors(StepBoth(q, b, Admit(rsv, DayOf(now)), now))
  {
    var e := Admit(rsv, DayOf(now));
    StepAccounts(q, b.sys, e);
    AdmitUnfolds(q, b, rsv, now);
    hide BucketKey, ReservationKey, Reserved, BucketMatches, Accounted, DayOf, ReservationMatches, AdmitOpFor,
         ScriptReserved, ScriptGate, Gate, StepBoth, BucketsMatch;
    var b' := StepBoth(q, b, e, now);
    if Gate(b.sys.counters, AdmitOpFor(q, rsv, DayOf(now))).None? {
      AdmittedBuckets(q, b, b', rsv, now);
      forall id ensures ReservationMatches(b', id) {
        AdmittedReservations(q, b, rsv, now, b', id);
      }
    }
  }

  lemma {:induction false} NotYetSettled(s: Sys, id: string)
    requires Marked(s) && Find(s.ledger, id) == |s.ledger|
    ensures ReservationKey(id) !in s.settled
  {
    hide ReservationKey;
  }

  lemma {:induction false} LedgerGrows(q: Quotas, s: Sys, e: Event)
    requires e.Admit? && Known(s, e)
    ensures Step(q, s, e) == s <==> Gate(s.counters, AdmitOpFor(q, e.rsv, e.day)).Some?
  {
    hide BucketKey, Reserved, Gate;
  }

  // ---------- Settles ----------

  lemma {:induction false} ScriptAdjustedElsewhere(ks: Redis.Keyspace, keys: seq<string>, delta: int, now: real,
                                                   key: string)
    requires key !in keys
    ensures Redis.CellAt(ScriptAdjusted(ks, keys, delta, now), key) == Redis.CellAt(ks, key)
  {
    if keys != [] {
      var n := |keys| - 1;
      assert keys[n] in keys && forall k :: k in keys[..n] ==> k in keys;
      ScriptAdjustedElsewhere(ks, keys[..n], delta, now, key);
    }
  }

  lemma {:induction false} ScriptAdjustedAt(ks: Redis.Keyspace, keys: seq<string>, delta: int, now: real, i: nat)
    requires Distinct(keys) && i < |keys|
    ensures Redis.CellAt(ScriptAdjusted(ks, keys, delta, now), keys[i]) ==
      Some(Redis.Cell(Redis.Number(Clamp(Redis.LookupNumber(ks, keys[i], now) + delta)), Some(now + BUCKET_TTL)))
  {
    var n := |keys| - 1;
    if i == n {
      assert forall k :: k in keys[..n] ==> k != keys[n];
      ScriptAdjustedElsewhere(ks, keys[..n], delta, now, keys[n]);
    } else {
      ScriptAdjustedAt(ks, keys[..n], delta, now, i);
    }
  }

  lemma {:induction false} SameDayToken(rsv: Reservation, today: int, kind: Kind, name: string, day: int, i: nat)
    requires i < 3 && TokenKeys(rsv, today)[i] == BucketKey(kind, name, day)
    ensures day == today
  {
    BucketKeysDistinct(kind, name, day, ClientTokens, rsv.client, today);
    BucketKeysDistinct(kind, name, day, ProviderTokens, rsv.provider, today);
    BucketKeysDistinct(kind, name, day, ModelTokens, rsv.model, today);
    hide BucketKey;
  }

  lemma {:induction false} NoReservationAmongTokens(rsv: Reservation, day: int, id: string)
    ensures ReservationKey(id) !in TokenKeys(rsv, day)
  {
    ReservationKeysDistinct(id, id, ClientTokens, rsv.client, day);
    ReservationKeysDistinct(id, id, ProviderTokens, rsv.provider, day);
    ReservationKeysDistinct(id, id, ModelTokens, rsv.model, day);
    hide BucketKey, ReservationKey;
  }

  lemma {:induction false} SettledBucket(b: Both, rsv: Reservation, id: string, delta: int, now: real, kind: Kind,
                                         name: string, day: int)
    requires BucketsMatch(b) && now >= 0.0
    ensures var keys := TokenKeys(rsv, DayOf(now)); var key := BucketKey(kind, name, day);
      BucketMatches(ScriptAdjusted(Redis.SetKeep(b.cells, ReservationKey(id), Redis.Text("settled"), now), keys,
        delta, now),
                    key, day, Read(Adjusted(b.sys.counters, keys, delta), key))
  {
    hide BucketKey, ReservationKey, DayOf, Adjusted, ScriptAdjusted;
    var keys, key := TokenKeys(rsv, DayOf(now)), BucketKey(kind, name, day);
    var marked := Redis.SetKeep(b.cells, ReservationKey(id), Redis.Text("settled"), now);
    ReservationKeysDistinct(id, id, kind, name, day);
    assert BucketMatches(b.cells, key, day, Read(b.sys.counters, key));
    assert Redis.CellAt(marked, key) == Redis.CellAt(b.cells, key);
    if key in keys {
      var i :| 0 <= i < 3 && keys[i] == key;
      SameDayToken(rsv, DayOf(now), kind, name, day, i);
      AdjustedBucket(b, marked, rsv, delta, now, kind, name, i);
    } else {
      ScriptAdjustedElsewhere(marked, keys, delta, now, key);
      ReadOutside(b.sys.counters, keys, delta, key);
    }
  }

  lemma {:induction false} AdjustedBucket(b: Both, marked: Redis.Keyspace, rsv: Reservation, delta: int, now: real,
                                          kind: Kind, name: string, i: nat)
    requires BucketsMatch(b) && now >= 0.0 && i < 3
      && TokenKeys(rsv, DayOf(now))[i] == BucketKey(kind, name, DayOf(now))
    requires Redis.CellAt(marked, BucketKey(kind, name, DayOf(now))) ==
      Redis.CellAt(b.cells, BucketKey(kind, name, DayOf(now)))
    ensures var keys := TokenKeys(rsv, DayOf(now)); var key := BucketKey(kind, name, DayOf(now));
      BucketMatches(ScriptAdjusted(marked, keys, delta, now), key, DayOf(now),
        Read(Adjusted(b.sys.counters, keys, delta), key))
  {
    hide BucketKey, BucketsMatch, Adjusted, ScriptAdjusted;
    var keys := TokenKeys(rsv, DayOf(now));
    TokenKeysDistinct(rsv, DayOf(now));
    BucketReads(b, kind, name, now);
    DayBounds(now);
    ScriptAdjustedAt(marked, keys, delta, now, i);
    AdjustedAt(b.sys.counters, keys, delta, i);
    hide DayOf;
  }

  lemma {:induction false} SettledReservation(b: Both, rsv: Reservation, id: string, delta: int, now: real, day: int,
                                              x: string)
    ensures Redis.CellAt(ScriptAdjusted(Redis.SetKeep(b.cells, ReservationKey(id), Redis.Text("settled"), now),
      TokenKeys(rsv, day), delta, now),
                         ReservationKey(x)) ==
      Redis.CellAt(if x == id then Redis.SetKeep(b.cells, ReservationKey(id), Redis.Text("settled"), now)
        else b.cells, ReservationKey(x))
  {
    var marked := Redis.SetKeep(b.cells, ReservationKey(id), Redis.Text("settled"), now);
    NoReservationAmongTokens(rsv, day, x);
    ReservationKeysDistinct(x, id, ClientTokens, "", 0);
    hide BucketKey, ReservationKey;
    ScriptAdjustedElsewhere(marked, TokenKeys(rsv, day), delta, now, ReservationKey(x));
  }

  /** The reservation entry is live and open exactly when the in-memory store has not settled the id. */
  lemma {:induction false} OpenIffUnsettled(b: Both, id: string, actual: nat, now: real)
    requires Mirrors(b) && Timely(b, Settle(id, actual, DayOf(now)), now)
    ensures IsOpen(b.cells, ReservationKey(id), now) <==> ReservationKey(id) !in b.sys.settled
  {
    hide ReservationKey, BucketKey;
    assert ReservationMatches(b, id);
  }

  lemma {:induction false} SettledReservations(b: Both, h: Entry, id: string, actual: nat, delta: int, now: real,
                                               b': Both, x: string)
    requires ReservationMatches(b, x) && ReservationMatches(b, id) && id in b.times && now < b.times[id] + RSV_TTL
    requires Find(b.sys.ledger, id) < |b.sys.ledger| && h == b.sys.ledger[Find(b.sys.ledger, id)]
    requires b'.sys.ledger == b.sys.ledger[Find(b.sys.ledger, id) := h.(actual := Some(actual))]
    requires b'.cells == ScriptAdjusted(Redis.SetKeep(b.cells, ReservationKey(id), Redis.Text("settled"), now),
      TokenKeys(h.rsv, DayOf(now)), delta, now)
    requires b'.sys.settled == b.sys.settled + {ReservationKey(id)} && b'.times == b.times
    ensures ReservationMatches(b', x)
  {
    hide ReservationKey, BucketKey, ScriptAdjusted, TokenKeys, DayOf, Find;
    SettledReservation(b, h.rsv, id, delta, now, DayOf(now), x);
    ReservationKeysDistinct(x, id, ClientTokens, "", 0);
    SameIds(b.sys.ledger, Find(b.sys.ledger, id), h.(actual := Some(actual)), x);
  }

  lemma {:induction false} SettleUnfolds(q: Quotas, b: Both, id: string, actual: nat, now: real, b': Both)
    requires Mirrors(b) && Timely(b, Settle(id, actual, DayOf(now)), now)
    requires b' == StepBoth(q, b, Settle(id, actual, DayOf(now)), now)
    ensures Accounted(b'.sys) && Find(b.sys.ledger, id) < |b.sys.ledger|
    ensures ReservationKey(id) in b.sys.settled ==> b' == b
    ensures ReservationKey(id) !in b.sys.settled ==>
      var i := Find(b.sys.ledger, id); var h := b.sys.ledger[i];
      var keys := TokenKeys(h.rsv, DayOf(now)); var delta := actual - h.rsv.Total();
      && b'.times == b.times && id in b.times && now < b.times[id] + RSV_TTL
      && b'.sys == Sys(Adjusted(b.sys.counters, keys, delta), b.sys.settled
        + {ReservationKey(id)}, b.sys.ledger[i := h.(actual := Some(actual))])
      && b'.cells == ScriptAdjusted(Redis.SetKeep(b.cells, ReservationKey(id), Redis.Text("settled"), now), keys,
        delta, now)
  {
    hide BucketKey, ReservationKey, ScriptAdjusted, Adjusted, TokenKeys, DayOf, BucketsMatch, ReservationsMatch,
         Marked, Read, IsOpen, Find, Redis.SetKeep;
    StepAccounts(q, b.sys, Settle(id, actual, DayOf(now)));
    OpenIffUnsettled(b, id, actual, now);
    UnsettledIsOpen(b.sys, id);
  }

  lemma {:induction false} SettleRefines(q: Quotas, b: Both, id: string, actual: nat, now: real)
    requires Mirrors(b) && Timely(b, Settle(id, actual, DayOf(now)), now)
    ensures Mirrors(StepBoth(q, b, Settle(id, actual, DayOf(now)), now))
  {
    hide BucketKey, ReservationKey, ScriptAdjusted, Adjusted, TokenKeys, DayOf, ReservationMatches, Accounted, IsOpen,
         StepBoth, BucketsMatch, Find;
    var b' := StepBoth(q, b, Settle(id, actual, DayOf(now)), now);
    SettleUnfolds(q, b, id, actual, now, b');
    if ReservationKey(id) !in b.sys.settled {
      SettledBuckets(b, b', id, actual, now);
      var h := b.sys.ledger[Find(b.sys.ledger, id)];
      forall x ensures ReservationMatches(b', x) {
        SettledReservations(b, h, id, actual, actual - h.rsv.Total(), now, b', x);
      }
    }
  }

  lemma {:induction false} SettledBuckets(b: Both, b': Both, id: string, actual: nat, now: real)
    requires BucketsMatch(b) && now >= 0.0 && Find(b.sys.ledger, id) < |b.sys.ledger|
    requires var rsv := b.sys.ledger[Find(b.sys.ledger, id)].rsv;
      var keys := TokenKeys(rsv, DayOf(now)); var delta := actual - rsv.Total();
      && b'.sys.counters == Adjusted(b.sys.counters, keys, delta)
      && b'.cells == ScriptAdjusted(Redis.SetKeep(b.cells, ReservationKey(id), Redis.Text("settled"), now), keys,
        delta, now)
    ensures BucketsMatch(b')
  {
    hide BucketKey, ReservationKey, ScriptAdjusted, Adjusted, BucketMatches, TokenKeys, DayOf, Find;
    var rsv := b.sys.ledger[Find(b.sys.ledger, id)].rsv;
    forall kind, name, day
      ensures BucketMatches(b'.cells, BucketKey(kind, name, day), day,
        Read(b'.sys.counters, BucketKey(kind, name, day)))
    {
      SettledBucket(b, rsv, id, actual - rsv.Total(), now, kind, name, day);
    }
  }

  lemma {:induction false} SameIds(ledger: seq<Entry>, i: nat, e: Entry, x: string)
    requires i < |ledger| && forall y :: IsHold(ledger[i], y) <==> IsHold(e, y)
    ensures Find(ledger[i := e], x) < |ledger| <==> Find(ledger, x) < |ledger|
  {
    var l := ledger[i := e];
    var k, k' := Find(ledger, x), Find(l, x);
    if k < |ledger| { assert IsHold(l[k], x); }
    if k' < |ledger| { assert IsHold(ledger[k'], x); }
  }

  // ---------- Plain increments ----------

  lemma {:induction false} IncrBucket(b: Both, kind: Kind, name: string, amount: nat, now: real, k: Kind, n: string,
                                      day: int)
    requires BucketsMatch(b) && now >= 0.0
    ensures var touched := BucketKey(kind, name, DayOf(now)); var key := BucketKey(k, n, day);
      BucketMatches(Redis.IncrBy(b.cells, touched, amount, now), key, day,
        Read(Add(b.sys.counters, touched, amount), key))
  {
    BucketReads(b, kind, name, now);
    BucketKeysDistinct(k, n, day, kind, name, DayOf(now));
    hide BucketKey, DayOf;
    assert BucketMatches(b.cells, BucketKey(k, n, day), day, Read(b.sys.counters, BucketKey(k, n, day)));
  }

  lemma {:induction false} IncrReservations(b: Both, key: string, amount: nat, now: real, b': Both, id: string)
    requires ReservationMatches(b, id) && key != ReservationKey(id)
    requires b'.cells == Redis.IncrBy(b.cells, key, amount, now) && b'.times == b.times
    requires b'.sys.settled == b.sys.settled && b'.sys.ledger == b.sys.ledger + [Recorded(key, amount)]
    ensures ReservationMatches(b', id)
  {
    hide ReservationKey;
    assert b'.sys.ledger[..|b.sys.ledger|] == b.sys.ledger;
  }

  lemma {:induction false} IncrRefines(q: Quotas, b: Both, kind: Kind, name: string, amount: nat, now: real)
    requires Mirrors(b) && now >= 0.0
    ensures Mirrors(StepBoth(q, b, Incr(kind, name, DayOf(now), amount), now))
  {
    var e := Incr(kind, name, DayOf(now), amount);
    var b' := StepBoth(q, b, e, now);
    hide BucketKey, ReservationKey, DayOf, Accounted, BucketMatches, ReservationMatches, Add;
    StepAccounts(q, b.sys, e);
    forall k, n, day ensures BucketMatches(b'.cells, BucketKey(k, n, day), day,
      Read(b'.sys.counters, BucketKey(k, n, day))) {
      IncrBucket(b, kind, name, amount, now, k, n, day);
    }
    forall id ensures ReservationMatches(b', id) {
      ReservationKeysDistinct(id, id, kind, name, DayOf(now));
      IncrReservations(b, BucketKey(kind, name, DayOf(now)), amount, now, b', id);
    }
  }

  // ---------- Main results ----------

  lemma {:induction false} StepRefines(q: Quotas, b: Both, e: Event, now: real)
    requires Mirrors(b) && Timely(b, e, now)
    ensures Mirrors(StepBoth(q, b, e, now))
  {
    match e
    case Admit(rsv, day) => AdmitRefines(q, b, rsv, now);
    case Settle(id, actual, day) => SettleRefines(q, b, id, actual, now);
    case Incr(kind, name, day, amount) => IncrRefines(q, b, kind, name, amount, now);
  }

  ghost predicate TimelyRun(q: Quotas, b: Both, es: seq<(Event, real)>)
    decreases |es|
  {
    es == [] || (Timely(b, es[0].0, es[0].1) && TimelyRun(q, StepBoth(q, b, es[0].0, es[0].1), es[1..]))
  }

  ghost function RunBoth(q: Quotas, b: Both, es: seq<(Event, real)>): Both
    requires TimelyRun(q, b, es)
    decreases |es|
  {
    if es == [] then b else RunBoth(q, StepBoth(q, b, es[0].0, es[0].1), es[1..])
  }

  /** Store refinement over timed runs: the scripts, with their 48-hour bucket expiry, stay in step with the
      in-memory store. */
  lemma {:induction false} RunRefines(q: Quotas, b: Both, es: seq<(Event, real)>)
    requires Mirrors(b) && TimelyRun(q, b, es)
    ensures Mirrors(RunBoth(q, b, es))
    decreases |es|
  {
    if es != [] {
      StepRefines(q, b, es[0].0, es[0].1);
      RunRefines(q, StepBoth(q, b, es[0].0, es[0].1), es[1..]);
    }
  }

  lemma {:induction false} EmptyMirrors()
    ensures Mirrors(EMPTY_BOTH)
  {
    hide BucketKey, ReservationKey;
  }

  /** What a caller can see after any timely run from empty stores: every counter of the current day reads
      alike, the next admission is decided alike, and the next timely settle is applied alike. */
  lemma {:induction false} StoresAgree(q: Quotas, es: seq<(Event, real)>, now: real, kind: Kind, name: string,
                                       rsv: Reservation, id: string, actual: nat)
    requires TimelyRun(q, EMPTY_BOTH, es) && now >= 0.0
    ensures var b := RunBoth(q, EMPTY_BOTH, es);
      && Redis.LookupNumber(b.cells, BucketKey(kind, name, DayOf(now)), now) ==
        Read(b.sys.counters, BucketKey(kind, name, DayOf(now)))
      && (ScriptGate(b.cells, AdmitOpFor(q, rsv, DayOf(now)), now).Some? <==>
        Gate(b.sys.counters, AdmitOpFor(q, rsv, DayOf(now))).Some?)
      && (Timely(b, Settle(id, actual, DayOf(now)), now) ==>
           (IsOpen(b.cells, ReservationKey(id), now) <==> ReservationKey(id) !in b.sys.settled))
  {
    EmptyMirrors();
    RunRefines(q, EMPTY_BOTH, es);
    var b := RunBoth(q, EMPTY_BOTH, es);
    BucketReads(b, kind, name, now);
    GatesAgree(q, b, rsv, now);
    if Timely(b, Settle(id, actual, DayOf(now)), now) { OpenIffUnsettled(b, id, actual, now); }
  }

  /** The 600-second proviso is exact: an open reservation is still settled by the script if and only if
      fewer than 600 seconds have passed since its admission; the in-memory store would settle it always. */
  lemma {:induction false} SettleBeforeExpiryIff(b: Both, id: string, now: real)
    requires Mirrors(b) && id in b.times && ReservationKey(id) !in b.sys.settled
    ensures IsOpen(b.cells, ReservationKey(id), now) <==> now < b.times[id] + 600.0
  {
    hide ReservationKey, BucketKey;
    assert ReservationMatches(b, id);
  }
}
