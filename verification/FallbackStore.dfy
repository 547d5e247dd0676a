/** The locked fallback of the second implementation, for backends that cannot run scripts: separate commands
    under one lock, with the open and settled reservations kept in process memory. */
module FallbackStore {
  import opened Wrappers
  import opened DayKeys
  import opened MeteringStore
  import opened Metering
  import opened LuaStore
  import Redis

  /** How far the holder of the lock has come. An admission reads three counters, then counts and renews five;
      a settle fetches, stores and renews three. */
  datatype Task =
    | Reading(rsv: Reservation, day: int, got: seq<int>)
    | Reserving(rsv: Reservation, day: int, done: nat, counted: bool)
    | Adjusting(rsv: Reservation, day: int, actual: nat, done: nat, phase: Phase)

  datatype Phase = Fetch | Store(current: int) | Renew

  /** `task` is the holder of the lock. */
  datatype Fallback = Fallback(cells: Redis.Keyspace, open: map<string, Reservation>, settled: set<string>,
                               task: Option<Task>)

  const EMPTY_FALLBACK := Fallback(map[], map[], {}, None)

  /** What can happen next: a call takes the lock, its holder's next command runs, a plain record counts or
      renews one counter without the lock, or the holder is cancelled while it waits. */
  datatype Move =
    | StartAdmit(rsv: Reservation)
    | StartSettle(rsv: Reservation, actual: nat)
    | Advance
    | Count(kind: Kind, name: string, day: int, amount: nat)
    | Again(kind: Kind, name: string, day: int)
    | Cancel

  /** INCRBY and EXPIRE of one key after the other. */
  function CountEach(ks: Redis.Keyspace, keys: seq<string>, amounts: seq<int>, now: real): Redis.Keyspace
    requires |keys| == |amounts|
  {
    if keys == [] then ks
    else
      var n := |keys| - 1;
      Redis.Expire(Redis.IncrBy(CountEach(ks, keys[..n], amounts[..n], now), keys[n], amounts[n], now), keys[n], now,
        BUCKET_TTL)
  }

  /** GET, SET and EXPIRE of one key. */
  function AdjustOne(ks: Redis.Keyspace, key: string, delta: int, now: real): Redis.Keyspace {
    var v := Redis.LookupNumber(ks, key, now) + delta;
    Redis.Expire(Redis.Set(ks, key, Redis.Number(if v > 0 then v else 0)), key, now, BUCKET_TTL)
  }

  function AdjustEach(ks: Redis.Keyspace, keys: seq<string>, delta: int, now: real): Redis.Keyspace {
    if keys == [] then ks
    else
      var n := |keys| - 1;
      AdjustOne(AdjustEach(ks, keys[..n], delta, now), keys[n], delta, now)
  }

  function Over(limit: Option<int>, used: int, need: int): bool {
    limit.Some? && used + need > limit.value
  }

  /** Which budget refuses, given the counters read: a limit may be absent, but a negative one always refuses. */
  function Refused(q: Quotas, rsv: Reservation, ctok: int, creq: int, ptok: int): Option<Denied> {
    if Over(q.clientTokens, ctok, rsv.Total()) then Some(DeniedClientTokens)
    else if Over(q.clientRequests, creq, 1) then Some(DeniedClientRequests)
    else if Over(q.providerTokens, ptok, rsv.Total()) then Some(DeniedProviderTokens)
    else None
  }

  /** The refusal of an admission that nothing interrupts. */
  function Refuses(q: Quotas, ks: Redis.Keyspace, rsv: Reservation, now: real): Option<Denied> {
    var op := AdmitOpFor(q, rsv, DayOf(now));
    Refused(q, rsv, Redis.LookupNumber(ks, op.cTokensKey, now), Redis.LookupNumber(ks, op.cReqKey, now),
            Redis.LookupNumber(ks, op.pTokensKey, now))
  }

  function Admitted(q: Quotas, f: Fallback, rsv: Reservation, now: real): Fallback {
    if Refuses(q, f.cells, rsv, now).Some? then f
    else
      var op := AdmitOpFor(q, rsv, DayOf(now));
      f.(cells := CountEach(f.cells, OpKeys(op), OpAmounts(op), now), open := f.open[rsv.id := rsv])
  }

  predicate Applies(f: Fallback, id: string) {
    id !in f.settled && id in f.open
  }

  function SettledOnce(f: Fallback, rsv: Reservation, delta: int, now: real): Fallback {
    if !Applies(f, rsv.id) then f
    else
      f.(cells := AdjustEach(f.cells, TokenKeys(rsv, DayOf(now)), delta, now),
         open := f.open - {rsv.id}, settled := f.settled + {rsv.id})
  }

  // ---------- Command by command ----------

  predicate TaskOk(t: Task) {
    match t
    case Reading(_, _, got) => |got| < 3
    case Reserving(_, _, done, _) => done < 5
    case Adjusting(_, _, _, done, _) => done < 3
  }

  predicate Ready(f: Fallback, e: Move) {
    match e
    case StartAdmit(_) => f.task.None?
    case StartSettle(_, _) => f.task.None?
    case Advance => f.task.Some? && TaskOk(f.task.value)
    case Count(_, _, _, _) => true
    case Again(_, _, _) => true
    case Cancel => f.task.Some?
  }

  function ReadNext(q: Quotas, f: Fallback, rsv: Reservation, day: int, got: seq<int>, now: real): Fallback
    requires |got| < 3
  {
    var got' := got + [Redis.LookupNumber(f.cells, OpKeys(AdmitOpFor(q, rsv, day))[|got|], now)];
    if |got'| < 3 then f.(task := Some(Reading(rsv, day, got')))
    else if Refused(q, rsv, got'[0], got'[1], got'[2]).Some? then f.(task := None)
    else f.(task := Some(Reserving(rsv, day, 0, false)))
  }

  function ReserveNext(q: Quotas, f: Fallback, rsv: Reservation, day: int, done: nat, counted: bool, now: real)
      : Fallback
    requires done < 5
  {
    var op := AdmitOpFor(q, rsv, day);
    if !counted then
      f.(cells := Redis.IncrBy(f.cells, OpKeys(op)[done], OpAmounts(op)[done], now),
         task := Some(Reserving(rsv, day, done, true)))
    else
      var f' := f.(cells := Redis.Expire(f.cells, OpKeys(op)[done], now, BUCKET_TTL));
      if done < 4 then f'.(task := Some(Reserving(rsv, day, done + 1, false)))
      else f'.(open := f.open[rsv.id := rsv], task := None)
  }

  function AdjustNext(f: Fallback, rsv: Reservation, day: int, actual: nat, done: nat, phase: Phase, now: real)
      : Fallback
    requires done < 3
  {
    var key := TokenKeys(rsv, day)[done];
    match phase
    case Fetch => f.(task := Some(Adjusting(rsv, day, actual, done, Store(Redis.LookupNumber(f.cells, key, now)))))
    case Store(current) =>
      var v := current + (actual - rsv.Total());
      f.(cells := Redis.Set(f.cells, key, Redis.Number(if v > 0 then v else 0)),
         task := Some(Adjusting(rsv, day, actual, done, Renew)))
    case Renew =>
      f.(cells := Redis.Expire(f.cells, key, now, BUCKET_TTL),
         task := if done < 2 then Some(Adjusting(rsv, day, actual, done + 1, Fetch)) else None)
  }

  function Next(q: Quotas, f: Fallback, e: Move, now: real): Fallback
    requires Ready(f, e)
  {
    match e
    case StartAdmit(rsv) => f.(task := Some(Reading(rsv, DayOf(now), [])))
    case StartSettle(rsv, actual) =>
      if !Applies(f, rsv.id) then f
      else
        Fallback(f.cells, f.open - {rsv.id}, f.settled + {rsv.id}, Some(Adjusting(rsv, DayOf(now), actual, 0, Fetch)))
    case Advance =>
      (match f.task.value
       case Reading(rsv, day, got) => ReadNext(q, f, rsv, day, got, now)
       case Reserving(rsv, day, done, counted) => ReserveNext(q, f, rsv, day, done, counted, now)
       case Adjusting(rsv, day, actual, done, phase) => AdjustNext(f, rsv, day, actual, done, phase, now))
    case Count(kind, name, day, amount) => f.(cells := Redis.IncrBy(f.cells, BucketKey(kind, name, day), amount, now))
    case Again(kind, name, day) => f.(cells := Redis.Expire(f.cells, BucketKey(kind, name, day), now, BUCKET_TTL))
    case Cancel => f.(task := None)
  }

  /** Each method is the code up to the next command's reply. */
  class FallbackMetering {
    const quotas: Quotas
    var cells: Redis.Keyspace
    var open: map<string, Reservation>
    var settled: set<string>
    var task: Option<Task>

    ghost function Abs(): Fallback
      reads this
    {
      Fallback(cells, open, settled, task)
    }

    constructor (quotas: Quotas)
      ensures this.quotas == quotas && Abs() == EMPTY_FALLBACK
    {
      this.quotas, cells, open, settled, task := quotas, map[], map[], {}, None;
    }

    method Admit(rsv: Reservation, now: real)
      requires Ready(Abs(), StartAdmit(rsv))
      modifies this`task
      ensures Abs() == Next(quotas, old(Abs()), StartAdmit(rsv), now)
    {
      task := Some(Reading(rsv, DayOf(now), []));
    }

    /** One GET of an admission; after the third the gates decide. */
    method OnRead(now: real) returns (denied: Option<Denied>)
      requires Ready(Abs(), Advance) && task.value.Reading?
      modifies this`task
      ensures Abs() == Next(quotas, old(Abs()), Advance, now)
      ensures denied.Some? ==> task.None?
    {
      var rsv, day, got := task.value.rsv, task.value.day, task.value.got;
      var used := Redis.LookupNumber(cells, OpKeys(AdmitOpFor(quotas, rsv, day))[|got|], now);
      hide Redis.LookupNumber, AdmitOpFor;
      got := got + [used];
      if |got| < 3 {
        task := Some(Reading(rsv, day, got));
        return None;
      }
      denied := Refused(quotas, rsv, got[0], got[1], got[2]);
      task := if denied.Some? then None else Some(Reserving(rsv, day, 0, false));
    }

    /** One INCRBY or EXPIRE of an admission; after the last one the reservation is open. */
    method OnReserve(now: real)
      requires Ready(Abs(), Advance) && task.value.Reserving?
      modifies this
      ensures Abs() == Next(quotas, old(Abs()), Advance, now)
    {
      var rsv, day, done := task.value.rsv, task.value.day, task.value.done;
      var op := AdmitOpFor(quotas, rsv, day);
      hide AdmitOpFor, Redis.IncrBy, Redis.Expire;
      if !task.value.counted {
        cells := Redis.IncrBy(cells, OpKeys(op)[done], OpAmounts(op)[done], now);
        task := Some(Reserving(rsv, day, done, true));
        return;
      }
      cells := Redis.Expire(cells, OpKeys(op)[done], now, BUCKET_TTL);
      if done < 4 {
        task := Some(Reserving(rsv, day, done + 1, false));
        return;
      }
      open := open[rsv.id := rsv];
      task := None;
    }

    /** Takes the lock and marks the reservation, or finds nothing to do. */
    method Settle(rsv: Reservation, actual: nat, now: real) returns (applies: bool)
      requires Ready(Abs(), StartSettle(rsv, actual))
      modifies this
      ensures applies == Applies(old(Abs()), rsv.id)
      ensures Abs() == Next(quotas, old(Abs()), StartSettle(rsv, actual), now)
    {
      hide DayOf;
      if rsv.id in settled || rsv.id !in open {
        return false;
      }
      settled := settled + {rsv.id};
      open := open - {rsv.id};
      task := Some(Adjusting(rsv, DayOf(now), actual, 0, Fetch));
      return true;
    }

    /** One GET, SET or EXPIRE of a settle. */
    method OnAdjust(now: real)
      requires Ready(Abs(), Advance) && task.value.Adjusting?
      modifies this
      ensures Abs() == Next(quotas, old(Abs()), Advance, now)
    {
      var rsv, day, actual, done := task.value.rsv, task.value.day, task.value.actual, task.value.done;
      var key := TokenKeys(rsv, day)[done];
      hide TokenKeys, Redis.LookupNumber, Redis.Expire;
      match task.value.phase {
        case Fetch =>
          var current := Redis.LookupNumber(cells, key, now);
          task := Some(Adjusting(rsv, day, actual, done, Store(current)));
        case Store(current) =>
          var v := current + (actual - rsv.Total());
          cells := Redis.Set(cells, key, Redis.Number(if v > 0 then v else 0));
          task := Some(Adjusting(rsv, day, actual, done, Renew));
        case Renew =>
          cells := Redis.Expire(cells, key, now, BUCKET_TTL);
          task := if done < 2 then Some(Adjusting(rsv, day, actual, done + 1, Fetch)) else None;
      }
    }

    /** The two commands of a plain record on one counter, which take no lock. */
    method Incr(kind: Kind, name: string, day: int, amount: nat, now: real)
      modifies this`cells
      ensures Abs() == Next(quotas, old(Abs()), Count(kind, name, day, amount), now)
    {
      cells := Redis.IncrBy(cells, BucketKey(kind, name, day), amount, now);
    }

    method Expire(kind: Kind, name: string, day: int, now: real)
      modifies this`cells
      ensures Abs() == Next(quotas, old(Abs()), Again(kind, name, day), now)
    {
      cells := Redis.Expire(cells, BucketKey(kind, name, day), now, BUCKET_TTL);
    }

    /** A cancelled call releases the lock and leaves everything else as it is. */
    method OnCancel(now: real)
      requires Ready(Abs(), Cancel)
      modifies this`task
      ensures Abs() == Next(quotas, old(Abs()), Cancel, now)
    {
      task := None;
    }
  }

  // ---------- Uninterrupted calls ----------

  function Advanced(q: Quotas, f: Fallback, now: real): Fallback {
    if Ready(f, Advance) then Next(q, f, Advance, now) else f
  }

  /** `n` commands of the holder of the lock, with nothing in between. */
  function Alone(q: Quotas, f: Fallback, n: nat, now: real): Fallback {
    if n == 0 then f else Advanced(q, Alone(q, f, n - 1, now), now)
  }

  lemma {:induction false} AloneLater(q: Quotas, f: Fallback, m: nat, n: nat, now: real)
    ensures Alone(q, f, m + n, now) == Alone(q, Alone(q, f, m, now), n, now)
  {
    hide Advanced;
    if n > 0 { AloneLater(q, f, m, n - 1, now); }
  }

  lemma {:induction false} AloneThree(q: Quotas, f: Fallback, now: real)
    ensures Alone(q, f, 2, now) == Advanced(q, Advanced(q, f, now), now)
    ensures Alone(q, f, 3, now) == Advanced(q, Advanced(q, Advanced(q, f, now), now), now)
  {
    hide Advanced;
    assert Alone(q, f, 1, now) == Advanced(q, f, now) by { assert Alone(q, f, 0, now) == f; }
  }

  lemma {:induction false} AloneReserves(q: Quotas, f: Fallback, rsv: Reservation, day: int, done: nat, now: real)
    requires f.task == Some(Reserving(rsv, day, 0, false)) && done <= 5
    ensures var op := AdmitOpFor(q, rsv, day);
      Alone(q, f, 2 * done, now) ==
        Fallback(CountEach(f.cells, OpKeys(op)[..done], OpAmounts(op)[..done], now),
                 if done < 5 then f.open else f.open[rsv.id := rsv], f.settled,
                 if done < 5 then Some(Reserving(rsv, day, done, false)) else None)
  {
    var op := AdmitOpFor(q, rsv, day);
    hide AdmitOpFor, Redis.IncrBy, Redis.Expire, Advanced;
    if done == 0 {
      assert OpKeys(op)[..0] == [];
    } else {
      AloneReserves(q, f, rsv, day, done - 1, now);
      var keys, amounts := OpKeys(op)[..done], OpAmounts(op)[..done];
      assert keys[..done - 1] == OpKeys(op)[..done - 1] && amounts[..done - 1] == OpAmounts(op)[..done - 1];
      var f' := Alone(q, f, 2 * (done - 1), now);
      AloneLater(q, f, 2 * (done - 1), 2, now);
      TwoAlone(q, f', rsv, day, done - 1, now);
      hide Alone;
    }
  }

  lemma {:induction false} TwoAlone(q: Quotas, f: Fallback, rsv: Reservation, day: int, done: nat, now: real)
    requires f.task == Some(Reserving(rsv, day, done, false)) && done < 5
    ensures var op := AdmitOpFor(q, rsv, day);
      Alone(q, f, 2, now) ==
        Fallback(Redis.Expire(Redis.IncrBy(f.cells, OpKeys(op)[done], OpAmounts(op)[done], now), OpKeys(op)[done],
          now, BUCKET_TTL),
                 if done < 4 then f.open else f.open[rsv.id := rsv], f.settled,
                 if done < 4 then Some(Reserving(rsv, day, done + 1, false)) else None)
  {
    hide AdmitOpFor, Redis.IncrBy, Redis.Expire, OpKeys, OpAmounts, Alone;
    AloneThree(q, f, now);
  }

  lemma {:induction false} ReadsAlone(q: Quotas, f: Fallback, rsv: Reservation, day: int, now: real)
    requires f.task == Some(Reading(rsv, day, []))
    ensures var op := AdmitOpFor(q, rsv, day);
      var denied := Refused(q, rsv, Redis.LookupNumber(f.cells, op.cTokensKey, now),
                            Redis.LookupNumber(f.cells, op.cReqKey, now),
                              Redis.LookupNumber(f.cells, op.pTokensKey, now));
      Alone(q, f, 3, now) == f.(task := if denied.Some? then None else Some(Reserving(rsv, day, 0, false)))
  {
    var op := AdmitOpFor(q, rsv, day);
    hide AdmitOpFor, Redis.LookupNumber, Refused;
    var a, b := Redis.LookupNumber(f.cells, op.cTokensKey, now), Redis.LookupNumber(f.cells, op.cReqKey, now);
    AloneThree(q, f, now);
    hide Alone;
    assert [] + [a] == [a] && [a] + [b] == [a, b];
    assert Advanced(q, f, now) == f.(task := Some(Reading(rsv, day, [a])));
    assert Advanced(q, f.(task := Some(Reading(rsv, day, [a]))), now) == f.(task := Some(Reading(rsv, day, [a, b])));
  }

  /** An admission whose commands run without interruption: three reads, then ten writes unless refused. */
  lemma {:induction false} AdmitAlone(q: Quotas, f: Fallback, rsv: Reservation, now: real)
    requires f.task.None?
    ensures var n := if Refuses(q, f.cells, rsv, now).Some? then 3 else 13;
      Alone(q, Next(q, f, StartAdmit(rsv), now), n, now) == Admitted(q, f, rsv, now)
  {
    hide BucketKey, DayOf, AdmitOpFor, Redis.LookupNumber;
    var f0 := f.(task := Some(Reading(rsv, DayOf(now), [])));
    assert Next(q, f, StartAdmit(rsv), now) == f0;
    hide CountEach, Next, Alone, Refused;
    ReadsAlone(q, f0, rsv, DayOf(now), now);
    if Refuses(q, f.cells, rsv, now).None? {
      AloneLater(q, f0, 3, 10, now);
      TenAlone(q, f0.(task := Some(Reserving(rsv, DayOf(now), 0, false))), rsv, DayOf(now), now);
    } else {
      assert f0.(task := None) == f;
    }
  }

  lemma {:induction false} TenAlone(q: Quotas, f: Fallback, rsv: Reservation, day: int, now: real)
    requires f.task == Some(Reserving(rsv, day, 0, false))
    ensures var op := AdmitOpFor(q, rsv, day);
      Alone(q, f, 10, now) ==
        Fallback(CountEach(f.cells, OpKeys(op), OpAmounts(op), now), f.open[rsv.id := rsv], f.settled, None)
  {
    var op := AdmitOpFor(q, rsv, day);
    hide AdmitOpFor, CountEach, Alone;
    AloneReserves(q, f, rsv, day, 5, now);
    assert OpKeys(op)[..5] == OpKeys(op) && OpAmounts(op)[..5] == OpAmounts(op);
  }

  lemma {:induction false} AloneAdjusts(q: Quotas, f: Fallback, rsv: Reservation, day: int, actual: nat, done: nat,
                                        now: real)
    requires f.task == Some(Adjusting(rsv, day, actual, 0, Fetch)) && done <= 3
    ensures Alone(q, f, 3 * done, now) ==
      f.(cells := AdjustEach(f.cells, TokenKeys(rsv, day)[..done], actual - rsv.Total(), now),
         task := if done < 3 then Some(Adjusting(rsv, day, actual, done, Fetch)) else None)
  {
    hide BucketKey, Advanced, AdjustOne;
    var keys, delta := TokenKeys(rsv, day), actual - rsv.Total();
    assert |keys| == 3;
    hide TokenKeys;
    if done == 0 {
      assert keys[..0] == [];
    } else {
      var n := 3 * (done - 1);
      AloneAdjusts(q, f, rsv, day, actual, done - 1, now);
      AdjustOneMore(f.cells, keys, delta, done - 1, now);
      hide AdjustEach;
      AloneLater(q, f, n, 3, now);
      hide Alone;
      assert n + 3 == 3 * done;
      ThreeAlone(q, Alone(q, f, n, now), rsv, day, actual, done - 1, now);
    }
  }

  lemma {:induction false} AdjustOneMore(ks: Redis.Keyspace, keys: seq<string>, delta: int, n: nat, now: real)
    requires n < |keys|
    ensures AdjustEach(ks, keys[..n + 1], delta, now) ==
      AdjustOne(AdjustEach(ks, keys[..n], delta, now), keys[n], delta, now)
  {
    assert keys[..n + 1][..n] == keys[..n];
    hide AdjustOne;
  }

  lemma {:induction false} ThreeAlone(q: Quotas, f: Fallback, rsv: Reservation, day: int, actual: nat, done: nat,
                                      now: real)
    requires f.task == Some(Adjusting(rsv, day, actual, done, Fetch)) && done < 3
    ensures Alone(q, f, 3, now) ==
      f.(cells := AdjustOne(f.cells, TokenKeys(rsv, day)[done], actual - rsv.Total(), now),
         task := if done < 2 then Some(Adjusting(rsv, day, actual, done + 1, Fetch)) else None)
  {
    hide TokenKeys, Redis.LookupNumber, Redis.Expire, Redis.Set, Alone;
    AloneThree(q, f, now);
  }

  /** A settle whose commands run without interruption. */
  lemma {:induction false} SettleAlone(q: Quotas, f: Fallback, rsv: Reservation, actual: nat, now: real)
    requires f.task.None?
    ensures Alone(q, Next(q, f, StartSettle(rsv, actual), now), 9, now) ==
      SettledOnce(f, rsv, actual - rsv.Total(), now)
  {
    var f0 := Next(q, f, StartSettle(rsv, actual), now);
    if Applies(f, rsv.id) {
      AloneAdjusts(q, f0, rsv, DayOf(now), actual, 3, now);
      assert TokenKeys(rsv, DayOf(now))[..3] == TokenKeys(rsv, DayOf(now));
      hide Alone, AdjustEach, TokenKeys, DayOf;
    } else {
      Idle(q, f, 9, now);
    }
  }

  lemma {:induction false} Idle(q: Quotas, f: Fallback, n: nat, now: real)
    requires f.task.None?
    ensures Alone(q, f, n, now) == f
  {
    if n > 0 { Idle(q, f, n - 1, now); }
  }

  // ---------- Which limits the script and the fallback read alike ----------

  predicate NoNegative(limit: Option<int>) {
    limit.Some? ==> limit.value >= 0
  }

  /** A negative limit means "no limit" to the script and "never" to the fallback; only behind a request limit
      of 0, which refuses everything first, does a negative provider limit stay unseen. */
  predicate PlainLimits(q: Quotas) {
    NoNegative(q.clientTokens) && NoNegative(q.clientRequests)
      && (NoNegative(q.providerTokens) || q.clientRequests == Some(0))
  }

  /** The fallback decides every admission as the script does on the same keyspace, reported budget included,
      exactly on these limits. */
  lemma {:induction false} GateAgreesIff(q: Quotas)
    ensures PlainLimits(q) <==>
      forall b: Both, rsv: Reservation, now: real :: Mirrors(b) && now >= 0.0 ==>
        Refuses(q, b.cells, rsv, now) == ScriptGate(b.cells, AdmitOpFor(q, rsv, DayOf(now)), now)
  {
    if PlainLimits(q) {
      forall b: Both, rsv: Reservation, now: real | Mirrors(b) && now >= 0.0
        ensures Refuses(q, b.cells, rsv, now) == ScriptGate(b.cells, AdmitOpFor(q, rsv, DayOf(now)), now)
      {
        GateAgrees(q, b, rsv, now);
      }
    } else {
      EmptyMirrors();
      NegativeRefuses(q, Reservation("", "", "", "", 0, 0), 0.0);
    }
  }

  lemma {:induction false} GateAgrees(q: Quotas, b: Both, rsv: Reservation, now: real)
    requires PlainLimits(q) && Accounted(b.sys) && BucketsMatch(b) && now >= 0.0
    ensures Refuses(q, b.cells, rsv, now) == ScriptGate(b.cells, AdmitOpFor(q, rsv, DayOf(now)), now)
  {
    BucketReads(b, ClientRequests, rsv.client, now);
    assert Read(b.sys.counters, BucketKey(ClientRequests, rsv.client, DayOf(now))) >= 0;
    hide BucketKey, Redis.LookupNumber, Marked, BucketsMatch, DayOf, Read;
  }

  lemma {:induction false} NegativeRefuses(q: Quotas, rsv: Reservation, now: real)
    requires !PlainLimits(q) && rsv.Total() == 0
    ensures Refuses(q, map[], rsv, now) != ScriptGate(map[], AdmitOpFor(q, rsv, DayOf(now)), now)
  {
    hide BucketKey, DayOf;
  }

  // ---------- The same effect as the scripts ----------

  /** Setting and then expiring each key is what the settle script does in one command. */
  lemma {:induction false} AdjustEachIsScript(ks: Redis.Keyspace, keys: seq<string>, delta: int, now: real)
    ensures AdjustEach(ks, keys, delta, now) == ScriptAdjusted(ks, keys, delta, now)
  {
    if keys != [] { AdjustEachIsScript(ks, keys[..|keys| - 1], delta, now); }
  }

  lemma {:induction false} CountEachElsewhere(ks: Redis.Keyspace, keys: seq<string>, amounts: seq<int>, now: real,
                                              key: string)
    requires |keys| == |amounts| && key !in keys
    ensures Redis.CellAt(CountEach(ks, keys, amounts, now), key) == Redis.CellAt(ks, key)
  {
    if keys != [] {
      var n := |keys| - 1;
      assert keys[n] in keys && forall k :: k in keys[..n] ==> k in keys;
      CountEachElsewhere(ks, keys[..n], amounts[..n], now, key);
    }
  }

  lemma {:induction false} CountEachAt(ks: Redis.Keyspace, keys: seq<string>, amounts: seq<int>, now: real, i: nat)
    requires |keys| == |amounts| && Distinct(keys) && i < |keys|
    ensures Redis.CellAt(CountEach(ks, keys, amounts, now), keys[i]) ==
            Redis.CellAt(Redis.Expire(Redis.IncrBy(ks, keys[i], amounts[i], now), keys[i], now, BUCKET_TTL), keys[i])
  {
    var n := |keys| - 1;
    if i == n {
      CountEachElsewhere(ks, keys[..n], amounts[..n], now, keys[n]);
    } else {
      CountEachAt(ks, keys[..n], amounts[..n], now, i);
    }
  }

  lemma {:induction false} SameCells(a: Redis.Keyspace, b: Redis.Keyspace)
    requires forall key :: Redis.CellAt(a, key) == Redis.CellAt(b, key)
    ensures a == b
  {
    assert forall key :: key in a <==> Redis.CellAt(a, key).Some?;
    assert forall key :: key in b <==> Redis.CellAt(b, key).Some?;
    assert forall key | key in a :: Redis.CellAt(a, key) == Some(a[key]) && Redis.CellAt(b, key) == Some(b[key]);
  }

  /** Counting key by key gives the keyspace that counting all and then renewing all gives. */
  lemma {:induction false} CountEachIsScript(ks: Redis.Keyspace, keys: seq<string>, amounts: seq<int>, now: real)
    requires |keys| == |amounts| && Distinct(keys)
    ensures CountEach(ks, keys, amounts, now) ==
      Redis.ExpireAll(Redis.IncrAll(ks, keys, amounts, now), keys, now, BUCKET_TTL)
  {
    var a, all := CountEach(ks, keys, amounts, now), Redis.IncrAll(ks, keys, amounts, now);
    var b := Redis.ExpireAll(all, keys, now, BUCKET_TTL);
    forall key ensures Redis.CellAt(a, key) == Redis.CellAt(b, key) {
      if key in keys {
        var i :| 0 <= i < |keys| && keys[i] == key;
        CountEachAt(ks, keys, amounts, now, i);
        Redis.ExpireAllAt(all, keys, now, BUCKET_TTL, i);
        Redis.IncrAllAt(ks, keys, amounts, now, i);
        Redis.ExpireOne(Redis.IncrBy(ks, key, amounts[i], now), all, key, now, BUCKET_TTL);
      } else {
        CountEachElsewhere(ks, keys, amounts, now, key);
        Redis.ExpireAllElsewhere(all, keys, now, BUCKET_TTL, key);
        Redis.IncrAllElsewhere(ks, keys, amounts, now, key);
      }
    }
    SameCells(a, b);
  }
}
