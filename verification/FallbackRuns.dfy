/** Runs of the locked fallback, command by command, with plain records falling anywhere between the commands:
    which sequential run of the in-memory store they amount to, and when exactly they do. */
module FallbackRuns {
  import opened Wrappers
  import opened DayKeys
  import opened MeteringStore
  import opened Metering
  import opened LuaStore
  import opened FallbackStore
  import Redis

  // ---------- The sequential run ----------

  function ApplyAll(q: Quotas, s: Sys, es: seq<Event>): Sys {
    if es == [] then s
    else
      var s', e := ApplyAll(q, s, es[..|es| - 1]), es[|es| - 1];
      if Known(s', e) then Step(q, s', e) else s'
  }

  /** Every event of a sequence meets what the in-memory store asks of it. */
  predicate Legal(q: Quotas, s: Sys, es: seq<Event>) {
    es == [] || (Legal(q, s, es[..|es| - 1]) && Known(ApplyAll(q, s, es[..|es| - 1]), es[|es| - 1]))
  }

  /** The sequential run so far; records that wait for the holder of the lock to come first; and how much was
      counted on the holder's current key since it was fetched. */
  datatype Shadow = Shadow(trace: seq<Event>, waiting: seq<Event>, missed: nat)

  const NO_SHADOW := Shadow([], [], 0)

  function Replay(q: Quotas, sh: Shadow): Sys {
    ApplyAll(q, EMPTY, sh.trace)
  }

  /** The keys that a settle has stored so far. */
  function Written(t: Task): seq<string> {
    match t
    case Adjusting(rsv, day, _, done, phase) =>
      if done >= 3 then [] else TokenKeys(rsv, day)[..if phase.Renew? then done + 1 else done]
    case _ => []
  }

  /** How many counters an admission has counted. */
  function Begun(t: Task): nat
    requires t.Reserving?
  {
    if t.counted then t.done + 1 else t.done
  }

  /** An admission that has not yet counted its request. */
  predicate Early(t: Task) {
    t.Reading? || (t.Reserving? && Begun(t) <= 1)
  }

  /** Whether a record must wait: an admission is still early, or a settle has already stored the key. */
  predicate Delays(f: Fallback, key: string) {
    f.task.Some? && (Early(f.task.value) || key in Written(f.task.value))
  }

  /** What a move completes, in the order of the lock. An admission counts from when its request is counted, a
      refusal from the third read, and a settle when it ends, be it by being cancelled. */
  function Completed(q: Quotas, f: Fallback, e: Move, now: real): seq<Event>
    requires Ready(f, e)
  {
    match e
    case Count(kind, name, day, amount) => [Incr(kind, name, day, amount)]
    case StartSettle(rsv, actual) => if Applies(f, rsv.id) then [] else [Settle(rsv.id, actual, DayOf(now))]
    case Advance =>
      (match f.task.value
       case Reading(rsv, day, got) => if |got| == 2 && Next(q, f, e, now).task.None? then [Admit(rsv, day)] else []
       case Reserving(rsv, day, done, counted) => if done == 1 && !counted then [Admit(rsv, day)] else []
       case Adjusting(rsv, day, actual, done, phase) =>
         if done == 2 && phase.Renew? then [Settle(rsv.id, actual, day)] else [])
    case Cancel =>
      (match f.task.value
       case Adjusting(rsv, day, actual, _, _) => [Settle(rsv.id, actual, day)]
       case _ => [])
    case _ => []
  }

  /** A refused admission comes after the records that it may have read, an accepted one before them, and a
      settle before the records on keys that it had already stored. */
  function Follow(q: Quotas, f: Fallback, sh: Shadow, e: Move, now: real): Shadow
    requires Ready(f, e)
  {
    var done := Completed(q, f, e, now);
    match e
    case Count(kind, name, day, amount) =>
      var key := BucketKey(kind, name, day);
      if Delays(f, key) then sh.(waiting := sh.waiting + done)
      else
        Shadow(sh.trace + done, sh.waiting, if OnStoreOf(f.task, key) then sh.missed + amount else sh.missed)
    case Advance =>
      if done != [] then
        Shadow(sh.trace + (if f.task.value.Reading? then sh.waiting + done else done + sh.waiting), [], 0)
      else sh.(missed := if f.task.value.Adjusting? && f.task.value.phase.Fetch? then 0 else sh.missed)
    case Cancel => Shadow(sh.trace + (done + sh.waiting), [], 0)
    case _ => sh.(trace := sh.trace + done)
  }

  /** A settle has fetched this key and is about to store it. */
  predicate OnStoreOf(task: Option<Task>, key: string) {
    match task
    case Some(Adjusting(rsv, day, _, done, Store(_))) => done < 3 && key == TokenKeys(rsv, day)[done]
    case _ => false
  }

  // ---------- What the keyspace holds ----------

  function Pending(es: seq<Event>, key: string): int {
    if es == [] then 0
    else
      var e := es[|es| - 1];
      Pending(es[..|es| - 1], key) + (if e.Incr? then Once(BucketKey(e.kind, e.name, e.day), key, e.amount) else 0)
  }

  /** What an admission has still to count from its key `from` on. */
  function Rest(op: AdmitOp, from: nat, key: string): int
    decreases 5 - from
  {
    if from >= 5 then 0 else Once(OpKeys(op)[from], key, OpAmounts(op)[from]) + Rest(op, from + 1, key)
  }

  /** The value that a counter has, told from the sequential run. */
  function Expect(q: Quotas, task: Option<Task>, s: Sys, waiting: seq<Event>, key: string): int {
    match task
    case None => Read(s.counters, key)
    case Some(Reading(_, _, _)) => Read(s.counters, key) + Pending(waiting, key)
    case Some(Reserving(rsv, day, _, _)) =>
      var op := AdmitOpFor(q, rsv, day);
      if Early(task.value) then
        Read(s.counters, key) + Pending(waiting, key) + (Rest(op, 0, key) - Rest(op, Begun(task.value), key))
      else
        Read(s.counters, key) - Rest(op, Begun(task.value), key)
    case Some(Adjusting(rsv, _, actual, _, _)) =>
      if key in Written(task.value) then Clamp(Read(s.counters, key) + (actual - rsv.Total())) + Pending(waiting, key)
      else Read(s.counters, key)
  }

  function Expected(q: Quotas, task: Option<Task>, s: Sys, waiting: seq<Event>): string -> int {
    key => Expect(q, task, s, waiting, key)
  }

  ghost predicate CellsMatch(ks: Redis.Keyspace, value: string -> int) {
    forall kind, name, day :: BucketMatches(ks, BucketKey(kind, name, day), day, value(BucketKey(kind, name, day)))
  }

  /** A command on a bucket of some day comes before the bucket can expire. */
  predicate InDays(day: int, now: real) {
    (86_400 * day) as real <= now < (86_400 * (day + 2)) as real
  }

  lemma {:induction false} CellReads(ks: Redis.Keyspace, value: string -> int, kind: Kind, name: string, day: int,
                                     now: real)
    requires CellsMatch(ks, value) && InDays(day, now)
    ensures Redis.LookupNumber(ks, BucketKey(kind, name, day), now) == value(BucketKey(kind, name, day))
  {
    hide BucketKey;
    assert BucketMatches(ks, BucketKey(kind, name, day), day, value(BucketKey(kind, name, day)));
  }

  lemma {:induction false} CountCells(ks: Redis.Keyspace, value: string -> int, value': string -> int, kind: Kind,
                                      name: string, day: int, amount: int, now: real)
    requires CellsMatch(ks, value) && InDays(day, now)
    requires forall key :: value'(key) == value(key) + Once(BucketKey(kind, name, day), key, amount)
    ensures CellsMatch(Redis.IncrBy(ks, BucketKey(kind, name, day), amount, now), value')
  {
    hide BucketKey;
    var touched := BucketKey(kind, name, day);
    forall k, n, d ensures BucketMatches(Redis.IncrBy(ks, touched, amount, now), BucketKey(k, n, d), d,
      value'(BucketKey(k, n, d))) {
      BucketKeysDistinct(k, n, d, kind, name, day);
      assert BucketMatches(ks, BucketKey(k, n, d), d, value(BucketKey(k, n, d)));
    }
  }

  lemma {:induction false} RenewCells(ks: Redis.Keyspace, value: string -> int, kind: Kind, name: string, day: int,
                                      now: real)
    requires CellsMatch(ks, value) && InDays(day, now)
    ensures CellsMatch(Redis.Expire(ks, BucketKey(kind, name, day), now, BUCKET_TTL), value)
  {
    hide BucketKey;
    var touched := BucketKey(kind, name, day);
    forall k, n, d
      ensures BucketMatches(Redis.Expire(ks, touched, now, BUCKET_TTL), BucketKey(k, n, d), d,
        value(BucketKey(k, n, d)))
    {
      BucketKeysDistinct(k, n, d, kind, name, day);
      assert BucketMatches(ks, BucketKey(k, n, d), d, value(BucketKey(k, n, d)));
    }
  }

  /** Storing a value is right exactly when it is the one expected. */
  lemma {:induction false} StoreCellsIff(ks: Redis.Keyspace, value: string -> int, value': string -> int, kind: Kind,
                                         name: string, day: int, v: int)
    requires CellsMatch(ks, value) && forall key :: key != BucketKey(kind, name, day) ==> value'(key) == value(key)
    ensures CellsMatch(Redis.Set(ks, BucketKey(kind, name, day), Redis.Number(v)), value') <==>
      v == value'(BucketKey(kind, name, day))
  {
    hide BucketKey;
    var touched := BucketKey(kind, name, day);
    var ks' := Redis.Set(ks, touched, Redis.Number(v));
    if CellsMatch(ks', value') { assert BucketMatches(ks', touched, day, value'(touched)); }
    if v == value'(touched) {
      forall k, n, d ensures BucketMatches(ks', BucketKey(k, n, d), d, value'(BucketKey(k, n, d))) {
        assert BucketMatches(ks, BucketKey(k, n, d), d, value(BucketKey(k, n, d)));
      }
    }
  }

  /** A keyspace shows one value for each counter. */
  lemma {:induction false} SameValuesIff(ks: Redis.Keyspace, value: string -> int, value': string -> int)
    requires CellsMatch(ks, value)
    ensures CellsMatch(ks, value') <==>
      forall kind, name, day :: value'(BucketKey(kind, name, day)) == value(BucketKey(kind, name, day))
  {
    hide BucketKey;
    forall k, n, d
      ensures BucketMatches(ks, BucketKey(k, n, d), d, value'(BucketKey(k, n, d))) <==>
              value'(BucketKey(k, n, d)) == value(BucketKey(k, n, d))
    {
      assert BucketMatches(ks, BucketKey(k, n, d), d, value(BucketKey(k, n, d)));
    }
    hide BucketMatches;
  }

  lemma {:induction false} SameValues(ks: Redis.Keyspace, value: string -> int, value': string -> int)
    requires CellsMatch(ks, value) && forall key :: value'(key) == value(key)
    ensures CellsMatch(ks, value')
  {
    SameValuesIff(ks, value, value');
    hide BucketKey, CellsMatch;
  }

  // ---------- In step with the sequential run ----------

  predicate Held(s: Sys, id: string) {
    Find(s.ledger, id) < |s.ledger|
  }

  predicate AllIncr(es: seq<Event>) {
    forall i :: 0 <= i < |es| ==> es[i].Incr?
  }

  predicate Busy(task: Option<Task>, id: string) {
    task.Some? && !Early(task.value) && task.value.rsv.id == id
  }

  predicate IdFollows(f: Fallback, s: Sys, id: string) {
    && (id in f.open <==> Held(s, id) && ReservationKey(id) !in s.settled && !Busy(f.task, id))
    && (id in f.settled <==> ReservationKey(id) in s.settled || (Busy(f.task, id) && f.task.value.Adjusting?))
    && (Busy(f.task, id) ==> Held(s, id) && ReservationKey(id) !in s.settled)
  }

  ghost predicate ReadsFollow(q: Quotas, s: Sys, waiting: seq<Event>, rsv: Reservation, day: int, got: seq<int>) {
    && |got| <= 3
    && forall i :: 0 <= i < |got| ==>
         var key := OpKeys(AdmitOpFor(q, rsv, day))[i];
         Read(s.counters, key) <= got[i] <= Read(s.counters, key) + Pending(waiting, key)
  }

  ghost predicate TaskFollows(q: Quotas, task: Option<Task>, s: Sys, waiting: seq<Event>, missed: nat) {
    match task
    case None => waiting == []
    case Some(Reading(rsv, day, got)) => |got| < 3 && !Held(s, rsv.id) && ReadsFollow(q, s, waiting, rsv, day, got)
    case Some(Reserving(rsv, day, done, _)) =>
      && done < 5
      && (if Early(task.value) then !Held(s, rsv.id) && Gate(s.counters, AdmitOpFor(q, rsv, day)).None?
          else waiting == [])
    case Some(Adjusting(rsv, day, _, done, phase)) =>
      && done < 3 && Held(s, rsv.id) && s.ledger[Find(s.ledger, rsv.id)].rsv == rsv
      && (forall i :: 0 <= i < |waiting| ==>
            waiting[i].Incr? && BucketKey(waiting[i].kind, waiting[i].name, waiting[i].day) in Written(task.value))
      && (phase.Store? ==> phase.current + missed == Read(s.counters, TokenKeys(rsv, day)[done]))
  }

  ghost predicate FollowsSys(q: Quotas, f: Fallback, s: Sys, waiting: seq<Event>, missed: nat) {
    && Accounted(s) && AllIncr(waiting)
    && CellsMatch(f.cells, Expected(q, f.task, s, waiting))
    && (forall id :: IdFollows(f, s, id))
    && TaskFollows(q, f.task, s, waiting, missed)
  }

  /** The fallback is where the sequential run, and what its lock holder has still to do, put it. */
  ghost predicate Follows(q: Quotas, f: Fallback, sh: Shadow) {
    Legal(q, EMPTY, sh.trace) && FollowsSys(q, f, Replay(q, sh), sh.waiting, sh.missed)
  }

  /** Ids are fresh, and a settle is called with the reservation that its admission returned. */
  predicate Proper(s: Sys, e: Move) {
    match e
    case StartAdmit(rsv) => !Held(s, rsv.id)
    case StartSettle(rsv, _) => Held(s, rsv.id) && s.ledger[Find(s.ledger, rsv.id)].rsv == rsv
    case _ => true
  }

  predicate Timed(f: Fallback, e: Move, now: real) {
    && now >= 0.0
    && match e
       case Advance => f.task.Some? ==> InDays(f.task.value.day, now)
       case Count(_, _, day, _) => InDays(day, now)
       case Again(_, _, day) => InDays(day, now)
       case _ => true
  }

  /** A settle would leave this counter as it is. */
  predicate Unmoved(value: int, delta: int) {
    delta == 0 || (delta < 0 && value == 0)
  }

  /** Whether cancelling the holder of the lock leaves nothing half done: an admission has changed no counter, or
      the keys that a settle has not stored would not change. */
  ghost predicate CancelKept(t: Task, s: Sys) {
    match t
    case Reading(_, _, _) => true
    case Reserving(rsv, _, _, _) => Begun(t) == 0 || (Begun(t) == 1 && rsv.Total() == 0)
    case Adjusting(rsv, day, actual, _, _) =>
      forall key :: key in TokenKeys(rsv, day) && key !in Written(t) ==>
        Unmoved(Read(s.counters, key), actual - rsv.Total())
  }

  /** Nothing was counted on a key between its GET and its SET, unless the counter ends at zero either way; and
      no call is cancelled half done. */
  ghost predicate Kept(q: Quotas, f: Fallback, sh: Shadow, e: Move) {
    match e
    case Advance =>
      (match f.task
       case Some(Adjusting(rsv, _, actual, _, Store(current))) =>
         sh.missed == 0 || current + sh.missed + (actual - rsv.Total()) <= 0
       case _ => true)
    case Cancel => f.task.Some? ==> CancelKept(f.task.value, Replay(q, sh))
    case _ => true
  }

  // ---------- Sequential runs ----------

  lemma {:induction false} ApplyConcat(q: Quotas, s: Sys, a: seq<Event>, b: seq<Event>)
    ensures ApplyAll(q, s, a + b) == ApplyAll(q, ApplyAll(q, s, a), b)
    ensures Legal(q, s, a + b) <==> Legal(q, s, a) && Legal(q, ApplyAll(q, s, a), b)
  {
    hide Known, Step;
    if b == [] {
      assert a + b == a;
    } else {
      var n := |b| - 1;
      ApplyConcat(q, s, a, b[..n]);
      assert (a + b)[..|a + b| - 1] == a + b[..n];
    }
  }

  lemma {:induction false} ApplyOne(q: Quotas, s: Sys, e: Event)
    ensures ApplyAll(q, s, [e]) == if Known(s, e) then Step(q, s, e) else s
    ensures Legal(q, s, [e]) <==> Known(s, e)
  {
    hide Known, Step;
    assert [e][..0] == [];
  }

  /** Records change counters only. */
  ghost predicate CountedUp(s: Sys, s': Sys, es: seq<Event>) {
    && s'.settled == s.settled
    && (forall key :: Read(s'.counters, key) == Read(s.counters, key) + Pending(es, key))
    && (forall id :: Held(s', id) <==> Held(s, id))
    && (forall id :: Held(s, id) ==> s'.ledger[Find(s'.ledger, id)] == s.ledger[Find(s.ledger, id)])
    && (Accounted(s) ==> Accounted(s'))
  }

  lemma {:induction false} HeldAppended(s: Sys, s': Sys, r: Entry, id: string)
    requires s'.ledger == s.ledger + [r] && !IsHold(r, id)
    ensures Held(s', id) <==> Held(s, id)
    ensures Held(s, id) ==> s'.ledger[Find(s'.ledger, id)] == s.ledger[Find(s.ledger, id)]
  {
    assert s'.ledger[..|s.ledger|] == s.ledger;
  }

  lemma {:induction false} RecordOne(q: Quotas, s: Sys, e: Event)
    requires e.Incr?
    ensures CountedUp(s, Step(q, s, e), [e])
  {
    hide BucketKey;
    var s', key := Step(q, s, e), BucketKey(e.kind, e.name, e.day);
    var r := Recorded(key, e.amount);
    assert s' == Sys(Add(s.counters, key, e.amount), s.settled, s.ledger + [r]);
    if Accounted(s) { StepAccounts(q, s, e); }
    hide Accounted, Step, Held, Add, Find;
    forall id ensures (Held(s', id) <==> Held(s, id))
      && (Held(s, id) ==> s'.ledger[Find(s'.ledger, id)] == s.ledger[Find(s.ledger, id)]) {
      HeldAppended(s, s', r, id);
    }
    forall k ensures Read(s'.counters, k) == Read(s.counters, k) + Pending([e], k) {
      AddReads(s.counters, key, e.amount, k);
      PendingSnoc([], e, k);
      assert [] + [e] == [e];
    }
  }

  lemma {:induction false} CountedUpMore(s: Sys, s1: Sys, s2: Sys, es: seq<Event>, e: Event)
    requires CountedUp(s, s1, es) && CountedUp(s1, s2, [e]) && e.Incr?
    ensures CountedUp(s, s2, es + [e])
  {
    hide Accounted, Held, Read, BucketKey, Pending, Find, Once;
    forall key ensures Read(s2.counters, key) == Read(s.counters, key) + Pending(es + [e], key) {
      PendingSnoc(es, e, key);
      PendingOne(e, key);
    }
  }

  lemma {:induction false} ApplyRecords(q: Quotas, s: Sys, es: seq<Event>)
    requires AllIncr(es)
    ensures Legal(q, s, es) && CountedUp(s, ApplyAll(q, s, es), es)
  {
    hide Accounted, Held, Read, Step, BucketKey, Find;
    if es != [] {
      hide CountedUp;
      var n := |es| - 1;
      ApplyRecords(q, s, es[..n]);
      RecordOne(q, ApplyAll(q, s, es[..n]), es[n]);
      CountedUpMore(s, ApplyAll(q, s, es[..n]), ApplyAll(q, s, es), es[..n], es[n]);
      assert es[..n] + [es[n]] == es;
    }
  }

  lemma {:induction false} PendingSnoc(es: seq<Event>, e: Event, key: string)
    requires e.Incr?
    ensures Pending(es + [e], key) == Pending(es, key) + Once(BucketKey(e.kind, e.name, e.day), key, e.amount)
  {
    assert (es + [e])[..|es|] == es;
    hide BucketKey;
  }

  lemma {:induction false} PendingElsewhere(es: seq<Event>, key: string)
    requires forall i :: 0 <= i < |es| && es[i].Incr? ==> BucketKey(es[i].kind, es[i].name, es[i].day) != key
    ensures Pending(es, key) == 0
  {
    hide BucketKey;
    if es != [] { PendingElsewhere(es[..|es| - 1], key); }
  }

  lemma {:induction false} PendingNonNegative(es: seq<Event>, key: string)
    ensures Pending(es, key) >= 0
  {
    hide BucketKey;
    if es != [] { PendingNonNegative(es[..|es| - 1], key); }
  }

  // ---------- Records ----------

  lemma {:induction false} ExpectNow(q: Quotas, task: Option<Task>, s: Sys, s': Sys, waiting: seq<Event>,
                                     touched: string, amount: int, key: string)
    requires Read(s'.counters, key) == Read(s.counters, key) + Once(touched, key, amount)
    requires task.Some? ==> !Early(task.value) && touched !in Written(task.value)
    ensures Expect(q, task, s', waiting, key) == Expect(q, task, s, waiting, key) + Once(touched, key, amount)
  {
    hide Written, Read, Pending, Rest, AdmitOpFor;
  }

  lemma {:induction false} ExpectLater(q: Quotas, task: Option<Task>, s: Sys, waiting: seq<Event>, r: Event,
                                       key: string)
    requires r.Incr? && task.Some?
    requires Early(task.value) || (task.value.Adjusting? && BucketKey(r.kind, r.name, r.day) in Written(task.value))
    ensures Expect(q, task, s, waiting + [r], key) ==
            Expect(q, task, s, waiting, key) + Once(BucketKey(r.kind, r.name, r.day), key, r.amount)
  {
    PendingSnoc(waiting, r, key);
    hide Written, Read, Pending, Rest, AdmitOpFor, BucketKey;
  }

  lemma {:induction false} TaskNow(q: Quotas, task: Option<Task>, s: Sys, s': Sys, waiting: seq<Event>, missed: nat,
                                   touched: string, amount: nat)
    requires TaskFollows(q, task, s, waiting, missed) && (task.Some? ==> !Early(task.value))
    requires forall key :: Read(s'.counters, key) == Read(s.counters, key) + Once(touched, key, amount)
    requires forall id :: Held(s', id) <==> Held(s, id)
    requires forall id :: Held(s, id) && Held(s', id) ==>
      s'.ledger[Find(s'.ledger, id)] == s.ledger[Find(s.ledger, id)]
    ensures TaskFollows(q, task, s', waiting, if OnStoreOf(task, touched) then missed + amount else missed)
  {
    hide Written, Read, BucketKey;
  }

  lemma {:induction false} TaskLater(q: Quotas, task: Option<Task>, s: Sys, waiting: seq<Event>, missed: nat, r: Event)
    requires TaskFollows(q, task, s, waiting, missed) && task.Some? && r.Incr?
    requires Early(task.value) || (task.value.Adjusting? && BucketKey(r.kind, r.name, r.day) in Written(task.value))
    ensures TaskFollows(q, task, s, waiting + [r], missed)
  {
    hide Written, Read, BucketKey, AdmitOpFor, Pending, Gate;
    forall key ensures Pending(waiting, key) <= Pending(waiting + [r], key) { PendingSnoc(waiting, r, key); }
  }

  lemma {:induction false} IdsStay(f: Fallback, f': Fallback, s: Sys, s': Sys)
    requires f'.open == f.open && f'.settled == f.settled && f'.task == f.task && s'.settled == s.settled
    requires (forall id :: Held(s', id) <==> Held(s, id)) && forall id :: IdFollows(f, s, id)
    ensures forall id :: IdFollows(f', s', id)
  {
    hide Held, ReservationKey;
    forall id ensures IdFollows(f', s', id) { assert IdFollows(f, s, id); }
  }

  /** A record that need not wait is the next event of the sequential run. */
  lemma {:induction false} RecordNow(q: Quotas, f: Fallback, s: Sys, waiting: seq<Event>, missed: nat, e: Move,
                                     now: real)
    requires FollowsSys(q, f, s, waiting, missed) && e.Count? && InDays(e.day, now)
    requires !Delays(f, BucketKey(e.kind, e.name, e.day))
    ensures var key := BucketKey(e.kind, e.name, e.day);
      FollowsSys(q, Next(q, f, e, now), Step(q, s, Incr(e.kind, e.name, e.day, e.amount)), waiting,
                 if OnStoreOf(f.task, key) then missed + e.amount else missed)
  {
    hide BucketKey, ReservationKey, Accounted, Step, Held, Redis.IncrBy, CellsMatch, TokenKeys, Read, Pending,
         TaskFollows, Expect, Written, OnStoreOf, Find, Once, IdFollows, AllIncr, Early;
    var r := Incr(e.kind, e.name, e.day, e.amount);
    var touched, f', s' := BucketKey(e.kind, e.name, e.day), Next(q, f, e, now), Step(q, s, r);
    RecordOne(q, s, r);
    forall key
      ensures Read(s'.counters, key) == Read(s.counters, key) + Once(touched, key, e.amount)
      ensures Expect(q, f.task, s', waiting, key) == Expect(q, f.task, s, waiting, key) + Once(touched, key, e.amount)
    {
      PendingOne(r, key);
      ExpectNow(q, f.task, s, s', waiting, touched, e.amount, key);
    }
    CountCells(f.cells, Expected(q, f.task, s, waiting), Expected(q, f.task, s', waiting), e.kind, e.name, e.day,
      e.amount, now);
    IdsStay(f, f', s, s');
    TaskNow(q, f.task, s, s', waiting, missed, touched, e.amount);
  }

  lemma {:induction false} PendingOne(r: Event, key: string)
    requires r.Incr?
    ensures Pending([r], key) == Once(BucketKey(r.kind, r.name, r.day), key, r.amount)
  {
    PendingSnoc([], r, key);
    assert [] + [r] == [r];
    hide BucketKey, Once;
    assert Pending([], key) == 0;
  }

  /** A record that waits is counted in the keyspace, but comes later in the sequential run. */
  lemma {:induction false} RecordLater(q: Quotas, f: Fallback, s: Sys, waiting: seq<Event>, missed: nat, e: Move,
                                       now: real)
    requires FollowsSys(q, f, s, waiting, missed) && e.Count? && InDays(e.day, now)
    requires Delays(f, BucketKey(e.kind, e.name, e.day))
    ensures FollowsSys(q, Next(q, f, e, now), s, waiting + [Incr(e.kind, e.name, e.day, e.amount)], missed)
  {
    hide BucketKey, ReservationKey, Accounted, Held, Redis.IncrBy, CellsMatch, TokenKeys, Read, Pending, TaskFollows,
         Expect, Find, Once, IdFollows, Early;
    assert f.task.value.Reserving? ==> Written(f.task.value) == [];
    hide Written;
    var r := Incr(e.kind, e.name, e.day, e.amount);
    var touched, f', waiting' := BucketKey(e.kind, e.name, e.day), Next(q, f, e, now), waiting + [r];
    forall key ensures Expect(q, f.task, s, waiting', key) ==
      Expect(q, f.task, s, waiting, key) + Once(touched, key, e.amount) {
      ExpectLater(q, f.task, s, waiting, r, key);
    }
    CountCells(f.cells, Expected(q, f.task, s, waiting), Expected(q, f.task, s, waiting'), e.kind, e.name, e.day,
      e.amount, now);
    IdsStay(f, f', s, s);
    TaskLater(q, f.task, s, waiting, missed, r);
  }

  // ---------- The lock ----------

  lemma {:induction false} StartFollows(q: Quotas, f: Fallback, s: Sys, missed: nat, e: Move, now: real)
    requires FollowsSys(q, f, s, [], missed) && Ready(f, e) && Proper(s, e) && now >= 0.0
    requires e.StartAdmit? || (e.StartSettle? && Applies(f, e.rsv.id))
    ensures FollowsSys(q, Next(q, f, e, now), s, [], missed)
  {
    hide BucketKey, ReservationKey, Accounted, Held, CellsMatch, TokenKeys, Read, AdmitOpFor, Find;
    var f' := Next(q, f, e, now);
    forall key ensures Expect(q, f'.task, s, [], key) == Expect(q, f.task, s, [], key) {
      if e.StartSettle? { assert TokenKeys(e.rsv, DayOf(now))[..0] == []; }
    }
    SameValues(f.cells, Expected(q, f.task, s, []), Expected(q, f'.task, s, []));
    assert IdFollows(f, s, e.rsv.id);
    forall id ensures IdFollows(f', s, id) { assert IdFollows(f, s, id); }
  }

  /** A settle that finds nothing to do finds the reservation settled in the sequential run. */
  lemma {:induction false} RepeatedSettle(q: Quotas, f: Fallback, s: Sys, waiting: seq<Event>, missed: nat,
                                          rsv: Reservation, actual: nat, now: real)
    requires FollowsSys(q, f, s, waiting, missed) && f.task.None? && Proper(s, StartSettle(rsv, actual))
      && !Applies(f, rsv.id)
    ensures Known(s, Settle(rsv.id, actual, DayOf(now))) && Step(q, s, Settle(rsv.id, actual, DayOf(now))) == s
  {
    hide BucketKey, ReservationKey, Accounted, CellsMatch, TokenKeys, Adjusted, DayOf;
    assert IdFollows(f, s, rsv.id);
  }

  // ---------- An admission ----------

  lemma {:induction false} OpKeyIs(q: Quotas, rsv: Reservation, day: int, i: nat) returns (kind: Kind, name: string)
    requires i < 5
    ensures OpKeys(AdmitOpFor(q, rsv, day))[i] == BucketKey(kind, name, day)
  {
    hide BucketKey;
    kind := if i == 0 then ClientTokens else if i == 1 then ClientRequests else if i == 2 then ProviderTokens
            else if i == 3 then ProviderRequests else ModelTokens;
    name := if i < 2 then rsv.client else if i < 4 then rsv.provider else rsv.model;
  }

  lemma {:induction false} TokenKeyIs(rsv: Reservation, day: int, i: nat) returns (kind: Kind, name: string)
    requires i < 3
    ensures TokenKeys(rsv, day)[i] == BucketKey(kind, name, day)
  {
    hide BucketKey;
    kind := if i == 0 then ClientTokens else if i == 1 then ProviderTokens else ModelTokens;
    name := if i == 0 then rsv.client else if i == 1 then rsv.provider else rsv.model;
  }

  /** One read: the value lies between the counter of the sequential run and that plus the waiting records. */
  lemma {:induction false} ReadFollows(q: Quotas, f: Fallback, s: Sys, waiting: seq<Event>, missed: nat, now: real)
    requires FollowsSys(q, f, s, waiting, missed) && Ready(f, Advance) && Timed(f, Advance, now)
      && f.task.value.Reading?
    ensures var t := f.task.value;
      ReadsFollow(q, s, waiting, t.rsv, t.day, t.got
        + [Redis.LookupNumber(f.cells, OpKeys(AdmitOpFor(q, t.rsv, t.day))[|t.got|], now)])
  {
    hide BucketKey, ReservationKey, Accounted, CellsMatch, TokenKeys, Read, AdmitOpFor, IdFollows, Redis.LookupNumber;
    var t := f.task.value;
    var kind, name := OpKeyIs(q, t.rsv, t.day, |t.got|);
    CellReads(f.cells, Expected(q, f.task, s, waiting), kind, name, t.day, now);
    forall key ensures Pending(waiting, key) >= 0 { PendingNonNegative(waiting, key); }
    hide Pending;
  }

  /** What three reads decide: an acceptance agrees with the counters before the waiting records, a refusal with
      those after them. */
  lemma {:induction false} DecidesAlike(q: Quotas, s: Sys, s': Sys, waiting: seq<Event>, rsv: Reservation, day: int,
                                        got: seq<int>)
    requires Accounted(s) && CountedUp(s, s', waiting) && ReadsFollow(q, s, waiting, rsv, day, got) && |got| == 3
    ensures Refused(q, rsv, got[0], got[1], got[2]).None? ==> Gate(s.counters, AdmitOpFor(q, rsv, day)).None?
    ensures PlainLimits(q) && Refused(q, rsv, got[0], got[1], got[2]).Some? ==>
      Gate(s'.counters, AdmitOpFor(q, rsv, day)).Some?
  {
    var op := AdmitOpFor(q, rsv, day);
    var k := OpKeys(op);
    assert k[0] == op.cTokensKey && k[1] == op.cReqKey && k[2] == op.pTokensKey;
    assert forall i :: 0 <= i < 3 ==> Read(s.counters, k[i]) <= got[i] <= Read(s'.counters, k[i]);
    assert Read(s.counters, k[1]) >= 0;
    hide Pending, BucketKey, Read, CountedUp, Marked, ReadsFollow, OpKeys;
  }

  lemma {:induction false} ReservedRest(m: Counters, op: AdmitOp, key: string)
    ensures Read(Reserved(m, op), key) == Read(m, key) + Rest(op, 0, key)
  {
    var m1 := Add(m, op.cTokensKey, op.reserve);
    var m2 := Add(m1, op.cReqKey, 1);
    var m3 := Add(m2, op.pTokensKey, op.reserve);
    var m4 := Add(m3, op.pReqKey, 1);
    AddReads(m, op.cTokensKey, op.reserve, key);
    AddReads(m1, op.cReqKey, 1, key);
    AddReads(m2, op.pTokensKey, op.reserve, key);
    AddReads(m3, op.pReqKey, 1, key);
    AddReads(m4, op.mTokensKey, op.reserve, key);
    hide Add, Once, Read;
    assert Rest(op, 5, key) == 0;
    assert Rest(op, 4, key) == Once(op.mTokensKey, key, op.reserve);
    assert Rest(op, 3, key) == Once(op.pReqKey, key, 1) + Rest(op, 4, key);
    assert Rest(op, 2, key) == Once(op.pTokensKey, key, op.reserve) + Rest(op, 3, key);
    assert Rest(op, 1, key) == Once(op.cReqKey, key, 1) + Rest(op, 2, key);
  }

  /** What an admission that passes the gates does to the sequential run. */
  lemma {:induction false} AdmittedSys(q: Quotas, s: Sys, rsv: Reservation, day: int)
    requires Accounted(s) && !Held(s, rsv.id) && Gate(s.counters, AdmitOpFor(q, rsv, day)).None?
    ensures Known(s, Admit(rsv, day)) && ReservationKey(rsv.id) !in s.settled
    ensures var s' := Step(q, s, Admit(rsv, day));
      && Accounted(s') && s'.settled == s.settled
      && (forall key :: Read(s'.counters, key) == Read(s.counters, key) + Rest(AdmitOpFor(q, rsv, day), 0, key))
      && (forall id :: Held(s', id) <==> Held(s, id) || id == rsv.id)
  {
    var s', op := Step(q, s, Admit(rsv, day)), AdmitOpFor(q, rsv, day);
    StepAccounts(q, s, Admit(rsv, day));
    NotYetSettled(s, rsv.id);
    hide BucketKey, ReservationKey, Accounted, AdmitOpFor, Gate, Reserved, Find;
    forall key ensures Read(s'.counters, key) == Read(s.counters, key) + Rest(op, 0, key) {
      ReservedRest(s.counters, op, key);
    }
    forall id ensures Held(s', id) <==> Held(s, id) || id == rsv.id {
      FindAppended(s.ledger, Hold(rsv, day, None), id);
    }
  }

  /** An acceptance changes nothing yet. */
  lemma {:induction false} AcceptFollows(q: Quotas, f: Fallback, f': Fallback, s: Sys, waiting: seq<Event>,
                                         missed: nat, rsv: Reservation, day: int, got: seq<int>)
    requires FollowsSys(q, f, s, waiting, missed) && f.task == Some(Reading(rsv, day, got))
    requires f' == f.(task := Some(Reserving(rsv, day, 0, false))) && Gate(s.counters, AdmitOpFor(q, rsv, day)).None?
    ensures FollowsSys(q, f', s, waiting, missed)
  {
    hide BucketKey, ReservationKey, Accounted, CellsMatch, TokenKeys, Read, AdmitOpFor, Find, ReadsFollow, Held, Gate,
         Pending, Rest;
    forall key ensures Expect(q, f'.task, s, waiting, key) == Expect(q, f.task, s, waiting, key) { }
    SameValues(f.cells, Expected(q, f.task, s, waiting), Expected(q, f'.task, s, waiting));
    forall id ensures IdFollows(f', s, id) { assert IdFollows(f, s, id); }
  }

  /** Counting the request puts the admission into the sequential run, before the records that waited. */
  lemma {:induction false} CommitFollows(q: Quotas, f: Fallback, s: Sys, waiting: seq<Event>, missed: nat,
                                         rsv: Reservation, day: int, now: real)
    requires FollowsSys(q, f, s, waiting, missed) && f.task == Some(Reserving(rsv, day, 1, false)) && InDays(day, now)
    ensures var es := [Admit(rsv, day)] + waiting;
      Legal(q, s, es) && FollowsSys(q, Next(q, f, Advance, now), ApplyAll(q, s, es), [], 0)
  {
    hide BucketKey, ReservationKey, Accounted, CellsMatch, TokenKeys, Read, AdmitOpFor, Find, Held, Gate,
         Step, Known, Pending, Once, Redis.IncrBy, ApplyAll, Legal;
    var f', op := Next(q, f, Advance, now), AdmitOpFor(q, rsv, day);
    AdmittedSys(q, s, rsv, day);
    ApplyOne(q, s, Admit(rsv, day));
    ApplyConcat(q, s, [Admit(rsv, day)], waiting);
    var s1 := Step(q, s, Admit(rsv, day));
    ApplyRecords(q, s1, waiting);
    var s2 := ApplyAll(q, s1, waiting);
    var kind, name := OpKeyIs(q, rsv, day, 1);
    var before, after := Expected(q, f.task, s, waiting), Expected(q, f'.task, s2, []);
    forall key ensures after(key) == before(key) + Once(OpKeys(op)[1], key, OpAmounts(op)[1]) { }
    CountCells(f.cells, before, after, kind, name, day, OpAmounts(op)[1], now);
    forall id ensures IdFollows(f', s2, id) { assert IdFollows(f, s, id); }
  }

  lemma {:induction false} RefuseFollows(q: Quotas, f: Fallback, f': Fallback, s: Sys, waiting: seq<Event>,
                                         missed: nat, rsv: Reservation, day: int, got: seq<int>)
    requires FollowsSys(q, f, s, waiting, missed) && f.task == Some(Reading(rsv, day, got)) && f' == f.(task := None)
    requires Gate(ApplyAll(q, s, waiting).counters, AdmitOpFor(q, rsv, day)).Some?
    ensures Legal(q, s, waiting + [Admit(rsv, day)])
    ensures FollowsSys(q, f', ApplyAll(q, s, waiting + [Admit(rsv, day)]), [], 0)
    ensures ApplyAll(q, s, waiting + [Admit(rsv, day)]) == ApplyAll(q, s, waiting)
  {
    hide BucketKey, ReservationKey, Accounted, CellsMatch, TokenKeys, Read, AdmitOpFor, ReadsFollow, Gate, Pending;
    var s1 := ApplyAll(q, s, waiting);
    ApplyRecords(q, s, waiting);
    assert Known(s1, Admit(rsv, day)) by { assert !Held(s1, rsv.id); }
    assert Step(q, s1, Admit(rsv, day)) == s1;
    hide Find, Held, Step, Known;
    ApplyOne(q, s1, Admit(rsv, day));
    ApplyConcat(q, s, waiting, [Admit(rsv, day)]);
    CancelEarlyIff(q, f, f', s, waiting, missed);
  }

  /** Leaving the lock early, as if the admission had not begun: the waiting records come next. */
  lemma {:induction false} CancelEarlyIff(q: Quotas, f: Fallback, f': Fallback, s: Sys, waiting: seq<Event>,
                                          missed: nat)
    requires FollowsSys(q, f, s, waiting, missed) && f.task.Some? && Early(f.task.value) && f' == f.(task := None)
    ensures Legal(q, s, waiting)
    ensures FollowsSys(q, f', ApplyAll(q, s, waiting), [], 0) <==> CancelKept(f.task.value, s)
  {
    hide BucketKey, ReservationKey, Accounted, CellsMatch, TokenKeys, Read, AdmitOpFor, ReadsFollow, Pending, Held,
         OpKeys, OpAmounts, Gate;
    var s1 := ApplyAll(q, s, waiting);
    ApplyRecords(q, s, waiting);
    var before, after := Expected(q, f.task, s, waiting), Expected(q, f'.task, s1, []);
    SameValuesIff(f.cells, before, after);
    EarlyValues(q, f.task.value, s, s1, waiting);
    forall id ensures IdFollows(f', s1, id) { assert IdFollows(f, s, id); }
    hide Early, Expect, CountedUp;
  }

  /** What an early admission has counted is there to see unless it is zero. */
  lemma {:induction false} EarlyValues(q: Quotas, t: Task, s: Sys, s1: Sys, waiting: seq<Event>)
    requires Early(t) && forall key :: Read(s1.counters, key) == Read(s.counters, key) + Pending(waiting, key)
    ensures CancelKept(t, s) <==> forall kind, name, day ::
      var key := BucketKey(kind, name, day); Expected(q, None, s1, [])(key) == Expected(q, Some(t), s, waiting)(key)
  {
    hide BucketKey, Read, Pending;
    if t.Reserving? && Begun(t) == 1 {
      var op := AdmitOpFor(q, t.rsv, t.day);
      var kind, name := OpKeyIs(q, t.rsv, t.day, 0);
      assert op.reserve == t.rsv.Total() && OpKeys(op)[0] == BucketKey(kind, name, t.day);
      hide AdmitOpFor;
      assert forall key :: Rest(op, 0, key) == Once(OpKeys(op)[0], key, op.reserve) + Rest(op, 1, key);
      var key := BucketKey(kind, name, t.day);
      assert Expected(q, Some(t), s, waiting)(key) == Expected(q, None, s1, [])(key) + op.reserve;
    }
  }

  /** A command of an admission, other than counting the request. */
  lemma {:induction false} ReserveFollows(q: Quotas, f: Fallback, s: Sys, waiting: seq<Event>, missed: nat, now: real)
    requires FollowsSys(q, f, s, waiting, missed) && Ready(f, Advance) && Timed(f, Advance, now)
    requires f.task.value.Reserving? && (f.task.value.done != 1 || f.task.value.counted)
    ensures FollowsSys(q, Next(q, f, Advance, now), s, waiting, missed)
  {
    hide BucketKey, ReservationKey, Accounted, CellsMatch, Read, AdmitOpFor, Redis.IncrBy, Redis.Expire, Held, Once,
         Pending, Gate;
    var t := f.task.value;
    var kind, name := OpKeyIs(q, t.rsv, t.day, t.done);
    var f' := Next(q, f, Advance, now);
    var before, after := Expected(q, f.task, s, waiting), Expected(q, f'.task, s, waiting);
    var op := AdmitOpFor(q, t.rsv, t.day);
    if t.counted {
      RenewCells(f.cells, before, kind, name, t.day, now);
      forall key ensures after(key) == before(key) { assert Rest(op, 5, key) == 0; }
      SameValues(f'.cells, before, after);
    } else {
      forall key ensures after(key) == before(key) + Once(OpKeys(op)[t.done], key, OpAmounts(op)[t.done]) { }
      CountCells(f.cells, before, after, kind, name, t.day, OpAmounts(op)[t.done], now);
    }
    ReserveIds(q, f, s, now);
  }

  lemma {:induction false} ReserveIds(q: Quotas, f: Fallback, s: Sys, now: real)
    requires Ready(f, Advance) && f.task.value.Reserving? && (f.task.value.done != 1 || f.task.value.counted)
    requires forall id :: IdFollows(f, s, id)
    ensures forall id :: IdFollows(Next(q, f, Advance, now), s, id)
  {
    hide BucketKey, ReservationKey, AdmitOpFor, Redis.IncrBy, Redis.Expire, Held;
    forall id ensures IdFollows(Next(q, f, Advance, now), s, id) {
      assert IdFollows(f, s, id) && IdFollows(f, s, f.task.value.rsv.id);
    }
  }

  // ---------- A settle ----------

  /** The keys stored so far are distinct from the next one. */
  lemma {:induction false} NextKey(rsv: Reservation, day: int, done: nat)
    requires done < 3
    ensures TokenKeys(rsv, day)[done] !in TokenKeys(rsv, day)[..done]
    ensures forall key :: key in TokenKeys(rsv, day)[..done + 1] <==>
      key in TokenKeys(rsv, day)[..done] || key == TokenKeys(rsv, day)[done]
  {
    TokenKeysDistinct(rsv, day);
    hide BucketKey;
    var keys := TokenKeys(rsv, day);
    assert keys[..done + 1] == keys[..done] + [keys[done]];
  }

  /** The waiting records are on stored keys. */
  lemma {:induction false} WaitingElsewhere(q: Quotas, f: Fallback, s: Sys, waiting: seq<Event>, missed: nat,
                                            key: string)
    requires FollowsSys(q, f, s, waiting, missed) && f.task.Some? && f.task.value.Adjusting?
      && key !in Written(f.task.value)
    ensures Pending(waiting, key) == 0
  {
    hide BucketKey, Written, ReservationKey, Accounted, CellsMatch, IdFollows, Pending;
    PendingElsewhere(waiting, key);
  }

  lemma {:induction false} FetchFollows(q: Quotas, f: Fallback, s: Sys, waiting: seq<Event>, missed: nat, now: real)
    requires FollowsSys(q, f, s, waiting, missed) && Ready(f, Advance) && Timed(f, Advance, now)
    requires f.task.value.Adjusting? && f.task.value.phase.Fetch?
    ensures FollowsSys(q, Next(q, f, Advance, now), s, waiting, 0)
  {
    hide BucketKey, ReservationKey, Accounted, CellsMatch, TokenKeys, Read, Redis.LookupNumber, Held, Find, Pending;
    var t, f' := f.task.value, Next(q, f, Advance, now);
    var kind, name := TokenKeyIs(t.rsv, t.day, t.done);
    NextKey(t.rsv, t.day, t.done);
    CellReads(f.cells, Expected(q, f.task, s, waiting), kind, name, t.day, now);
    forall key ensures Expect(q, f'.task, s, waiting, key) == Expect(q, f.task, s, waiting, key) { }
    SameValues(f.cells, Expected(q, f.task, s, waiting), Expected(q, f'.task, s, waiting));
    forall id ensures IdFollows(f', s, id) { assert IdFollows(f, s, id); }
  }

  /** The write of a settle is right exactly when nothing was counted since its read, or the counter ends at
      zero either way. */
  lemma {:induction false} StoreFollowsIff(q: Quotas, f: Fallback, s: Sys, waiting: seq<Event>, missed: nat, now: real)
    requires FollowsSys(q, f, s, waiting, missed) && Ready(f, Advance) && f.task.value.Adjusting?
      && f.task.value.phase.Store?
    ensures var t := f.task.value;
      FollowsSys(q, Next(q, f, Advance, now), s, waiting, missed) <==>
        missed == 0 || t.phase.current + missed + (t.actual - t.rsv.Total()) <= 0
  {
    hide BucketKey, ReservationKey, Accounted, CellsMatch, Read, Redis.Set, Held, Find, Pending;
    var t, f' := f.task.value, Next(q, f, Advance, now);
    assert |TokenKeys(t.rsv, t.day)| == 3;
    hide TokenKeys;
    var touched := TokenKeys(t.rsv, t.day)[t.done];
    var kind, name := TokenKeyIs(t.rsv, t.day, t.done);
    NextKey(t.rsv, t.day, t.done);
    WaitingElsewhere(q, f, s, waiting, missed, touched);
    var v := t.phase.current + (t.actual - t.rsv.Total());
    var before, after := Expected(q, f.task, s, waiting), Expected(q, f'.task, s, waiting);
    forall key | key != touched ensures after(key) == before(key) { }
    StoreCellsIff(f.cells, before, after, kind, name, t.day, if v > 0 then v else 0);
    forall id ensures IdFollows(f', s, id) { assert IdFollows(f, s, id); }
  }

  lemma {:induction false} RenewFollows(q: Quotas, f: Fallback, s: Sys, waiting: seq<Event>, missed: nat, now: real)
    requires FollowsSys(q, f, s, waiting, missed) && Ready(f, Advance) && Timed(f, Advance, now)
    requires f.task.value.Adjusting? && f.task.value.phase.Renew? && f.task.value.done < 2
    ensures FollowsSys(q, Next(q, f, Advance, now), s, waiting, missed)
  {
    hide BucketKey, ReservationKey, Accounted, CellsMatch, TokenKeys, Read, Redis.Expire, Held, Find, Pending;
    var t, f' := f.task.value, Next(q, f, Advance, now);
    var kind, name := TokenKeyIs(t.rsv, t.day, t.done);
    RenewCells(f.cells, Expected(q, f.task, s, waiting), kind, name, t.day, now);
    forall key ensures Expect(q, f'.task, s, waiting, key) == Expect(q, f.task, s, waiting, key) { }
    SameValues(f'.cells, Expected(q, f.task, s, waiting), Expected(q, f'.task, s, waiting));
    forall id ensures IdFollows(f', s, id) { assert IdFollows(f, s, id); }
  }

  /** What a first settle does to the sequential run. */
  lemma {:induction false} SettledSys(q: Quotas, s: Sys, rsv: Reservation, actual: nat, day: int)
    requires Accounted(s) && ReservationKey(rsv.id) !in s.settled
    requires Held(s, rsv.id) && s.ledger[Find(s.ledger, rsv.id)].rsv == rsv
    ensures Known(s, Settle(rsv.id, actual, day))
    ensures var s' := Step(q, s, Settle(rsv.id, actual, day));
      && Accounted(s') && s'.settled == s.settled + {ReservationKey(rsv.id)}
      && (forall key :: Read(s'.counters, key) ==
            if key in TokenKeys(rsv, day) then Clamp(Read(s.counters, key) + (actual - rsv.Total()))
              else Read(s.counters, key))
      && (forall id :: Held(s', id) <==> Held(s, id))
  {
    hide BucketKey, ReservationKey, Accounted, Adjusted, TokenKeys, Read;
    var s', i := Step(q, s, Settle(rsv.id, actual, day)), Find(s.ledger, rsv.id);
    var ledger := s.ledger[i := s.ledger[i].(actual := Some(actual))];
    StepAccounts(q, s, Settle(rsv.id, actual, day));
    assert s' == Sys(Adjusted(s.counters, TokenKeys(rsv, day), actual - rsv.Total()),
                     s.settled + {ReservationKey(rsv.id)}, ledger);
    hide Step;
    forall key { SettledCounter(s.counters, rsv, day, actual - rsv.Total(), key); }
    hide Read;
    forall id ensures Held(s', id) <==> Held(s, id) { SameHeld(s, s', i, actual, id); }
    hide *;
  }

  lemma {:induction false} SameHeld(s: Sys, s': Sys, i: nat, actual: nat, id: string)
    requires i < |s.ledger| && s.ledger[i].Hold? && s'.ledger == s.ledger[i := s.ledger[i].(actual := Some(actual))]
    ensures Held(s', id) <==> Held(s, id)
  {
    SameIds(s.ledger, i, s.ledger[i].(actual := Some(actual)), id);
  }

  /** A settle that ends, and what its keys would have to be. */
  lemma {:induction false} EndFollowsIff(q: Quotas, f: Fallback, f': Fallback, s: Sys, waiting: seq<Event>, missed: nat)
    requires FollowsSys(q, f, s, waiting, missed) && f.task.Some? && f.task.value.Adjusting? && f' == f.(task := None)
    ensures var t := f.task.value; var es := [Settle(t.rsv.id, t.actual, t.day)] + waiting;
      Legal(q, s, es) && (FollowsSys(q, f', ApplyAll(q, s, es), [], 0) <==> CancelKept(t, s))
  {
    hide BucketKey, ReservationKey, Marked, CellsMatch, Read, Held, Find, Pending, Step, Known, ApplyAll, Legal,
         TokenKeys;
    var t := f.task.value;
    var e := Settle(t.rsv.id, t.actual, t.day);
    assert IdFollows(f, s, t.rsv.id);
    SettledSys(q, s, t.rsv, t.actual, t.day);
    ApplyOne(q, s, e);
    ApplyConcat(q, s, [e], waiting);
    var s1 := Step(q, s, e);
    ApplyRecords(q, s1, waiting);
    var s2 := ApplyAll(q, s1, waiting);
    SameValuesIff(f.cells, Expected(q, f.task, s, waiting), Expected(q, f'.task, s2, []));
    forall key | key !in Written(t) ensures Pending(waiting, key) == 0 {
      WaitingElsewhere(q, f, s, waiting, missed, key);
    }
    assert forall key :: Read(s.counters, key) >= 0;
    EndValues(q, t, s, s1, s2, waiting);
    forall id ensures IdFollows(f', s2, id) {
      assert IdFollows(f, s, id);
      ReservationKeysDistinct(id, t.rsv.id, ClientTokens, "", 0);
    }
    hide CancelKept, Expect, CountedUp;
  }

  lemma {:induction false} EndValues(q: Quotas, t: Task, s: Sys, s1: Sys, s2: Sys, waiting: seq<Event>)
    requires t.Adjusting? && t.done < 3 && forall key :: Read(s.counters, key) >= 0
    requires forall key :: key in TokenKeys(t.rsv, t.day) ==>
      Read(s1.counters, key) == Clamp(Read(s.counters, key) + (t.actual - t.rsv.Total()))
    requires forall key :: key !in TokenKeys(t.rsv, t.day) ==> Read(s1.counters, key) == Read(s.counters, key)
    requires forall key :: Read(s2.counters, key) == Read(s1.counters, key) + Pending(waiting, key)
    requires forall key :: key !in Written(t) ==> Pending(waiting, key) == 0
    ensures CancelKept(t, s) <==> forall kind, name, day ::
      var key := BucketKey(kind, name, day); Expected(q, None, s2, [])(key) == Expected(q, Some(t), s, waiting)(key)
  {
    hide BucketKey, Read, Pending;
    var keys := TokenKeys(t.rsv, t.day);
    assert forall key :: key in Written(t) ==> key in keys;
    forall key
      ensures Expected(q, None, s2, [])(key) == Expected(q, Some(t), s, waiting)(key) <==>
              (key in keys && key !in Written(t) ==> Unmoved(Read(s.counters, key), t.actual - t.rsv.Total()))
    {
    }
    forall key | key in keys ensures exists kind, name, day :: key == BucketKey(kind, name, day) {
      var i :| 0 <= i < 3 && keys[i] == key;
      var kind, name := TokenKeyIs(t.rsv, t.day, i);
    }
    hide Unmoved, Written, TokenKeys, Expected;
  }

  lemma {:induction false} FinishFollows(q: Quotas, f: Fallback, s: Sys, waiting: seq<Event>, missed: nat, now: real)
    requires FollowsSys(q, f, s, waiting, missed) && Ready(f, Advance) && Timed(f, Advance, now)
    requires f.task.value.Adjusting? && f.task.value.phase.Renew? && f.task.value.done == 2
    ensures var es := [Settle(f.task.value.rsv.id, f.task.value.actual, f.task.value.day)] + waiting;
      Legal(q, s, es) && FollowsSys(q, Next(q, f, Advance, now), ApplyAll(q, s, es), [], 0)
  {
    hide BucketKey, ReservationKey, Accounted, CellsMatch, Read, Redis.Expire, Held, Find, Pending, ApplyAll, Legal;
    var t := f.task.value;
    var kind, name := TokenKeyIs(t.rsv, t.day, 2);
    RenewCells(f.cells, Expected(q, f.task, s, waiting), kind, name, t.day, now);
    assert Written(t) == TokenKeys(t.rsv, t.day);
    var renewed := f.(cells := Redis.Expire(f.cells, TokenKeys(t.rsv, t.day)[2], now, BUCKET_TTL));
    forall id ensures IdFollows(renewed, s, id) { assert IdFollows(f, s, id); }
    EndFollowsIff(q, renewed, renewed.(task := None), s, waiting, missed);
  }

  // ---------- One move ----------

  lemma {:induction false} AgainFollows(q: Quotas, f: Fallback, s: Sys, waiting: seq<Event>, missed: nat, e: Move,
                                        now: real)
    requires FollowsSys(q, f, s, waiting, missed) && e.Again? && InDays(e.day, now)
    ensures FollowsSys(q, Next(q, f, e, now), s, waiting, missed)
  {
    hide BucketKey, ReservationKey, Accounted, CellsMatch, Redis.Expire, Expected, TaskFollows, Held;
    RenewCells(f.cells, Expected(q, f.task, s, waiting), e.kind, e.name, e.day, now);
    IdsStay(f, Next(q, f, e, now), s, s);
  }

  /** An admission that has counted its request cannot be cancelled without trace. */
  lemma {:induction false} CancelLate(q: Quotas, f: Fallback, s: Sys, missed: nat)
    requires FollowsSys(q, f, s, [], missed) && f.task.Some? && f.task.value.Reserving? && !Early(f.task.value)
    ensures !FollowsSys(q, f.(task := None), s, [], 0)
  {
    hide BucketKey, ReservationKey, Accounted, CellsMatch, Expected, TaskFollows, Held;
    var id := f.task.value.rsv.id;
    assert IdFollows(f, s, id);
    assert !IdFollows(f.(task := None), s, id);
  }

  /** Extending the sequential run. */
  lemma {:induction false} Extend(q: Quotas, f': Fallback, sh: Shadow, es: seq<Event>, waiting: seq<Event>, missed: nat)
    requires Legal(q, EMPTY, sh.trace)
    ensures Follows(q, f', Shadow(sh.trace + es, waiting, missed)) <==>
            Legal(q, Replay(q, sh), es) && FollowsSys(q, f', ApplyAll(q, Replay(q, sh), es), waiting, missed)
  {
    hide FollowsSys;
    ApplyConcat(q, EMPTY, sh.trace, es);
  }

  lemma {:induction false} ExtendNone(q: Quotas, f': Fallback, sh: Shadow, waiting: seq<Event>, missed: nat)
    requires Legal(q, EMPTY, sh.trace)
    ensures Follows(q, f', Shadow(sh.trace, waiting, missed)) <==> FollowsSys(q, f', Replay(q, sh), waiting, missed)
  {
    hide FollowsSys, Legal;
  }

  lemma {:induction false} CountKeeps(q: Quotas, f: Fallback, sh: Shadow, e: Move, now: real)
    requires Follows(q, f, sh) && e.Count? && InDays(e.day, now)
    ensures Follows(q, Next(q, f, e, now), Follow(q, f, sh, e, now))
  {
    hide FollowsSys, BucketKey, Replay, Delays, OnStoreOf, Legal, Step, ApplyAll;
    var s, r, key := Replay(q, sh), Incr(e.kind, e.name, e.day, e.amount), BucketKey(e.kind, e.name, e.day);
    assert Known(s, r);
    hide Next, Known;
    if Delays(f, key) {
      RecordLater(q, f, s, sh.waiting, sh.missed, e, now);
      ExtendNone(q, Next(q, f, e, now), sh, sh.waiting + [r], sh.missed);
    } else {
      RecordNow(q, f, s, sh.waiting, sh.missed, e, now);
      ApplyOne(q, s, r);
      Extend(q, Next(q, f, e, now), sh, [r], sh.waiting, if OnStoreOf(f.task, key) then sh.missed + e.amount
        else sh.missed);
    }
  }

  lemma {:induction false} StartKeeps(q: Quotas, f: Fallback, sh: Shadow, e: Move, now: real)
    requires Follows(q, f, sh) && Ready(f, e) && Proper(Replay(q, sh), e) && now >= 0.0
      && (e.StartAdmit? || e.StartSettle?)
    ensures Follows(q, Next(q, f, e, now), Follow(q, f, sh, e, now))
  {
    var s := Replay(q, sh);
    assert sh.waiting == []
           && sh.trace + [] == sh.trace by { hide Replay, Legal, CellsMatch, Accounted, IdFollows, Proper; }
    if e.StartSettle? && !Applies(f, e.rsv.id) {
      var r := Settle(e.rsv.id, e.actual, DayOf(now));
      hide FollowsSys, Replay, Legal, Known, Step, Proper, DayOf, Follows;
      RepeatedHere(q, f, sh, e, now);
    } else {
      hide Replay, Legal, FollowsSys, Proper, DayOf;
      StartFollows(q, f, s, sh.missed, e, now);
      ExtendNone(q, Next(q, f, e, now), sh, [], sh.missed);
    }
  }

  lemma {:induction false} RepeatedHere(q: Quotas, f: Fallback, sh: Shadow, e: Move, now: real)
    requires Follows(q, f, sh) && Ready(f, e) && Proper(Replay(q, sh), e) && e.StartSettle? && !Applies(f, e.rsv.id)
    ensures Follows(q, f, Shadow(sh.trace + [Settle(e.rsv.id, e.actual, DayOf(now))], sh.waiting, sh.missed))
  {
    var s, r := Replay(q, sh), Settle(e.rsv.id, e.actual, DayOf(now));
    hide FollowsSys, Replay, Legal, Known, Step, Proper, DayOf;
    RepeatedSettle(q, f, s, sh.waiting, sh.missed, e.rsv, e.actual, now);
    ApplyOne(q, s, r);
    Extend(q, f, sh, [r], sh.waiting, sh.missed);
  }

  lemma {:induction false} ReadKeeps(q: Quotas, f: Fallback, sh: Shadow, now: real)
    requires PlainLimits(q) && Follows(q, f, sh) && Ready(f, Advance) && Timed(f, Advance, now) && f.task.value.Reading?
    ensures Follows(q, Next(q, f, Advance, now), Follow(q, f, sh, Advance, now))
  {
    hide BucketKey, Replay, Legal, AdmitOpFor, Redis.LookupNumber, ReadsFollow, Refused, Gate, PlainLimits, ApplyAll;
    var s, t, f' := Replay(q, sh), f.task.value, Next(q, f, Advance, now);
    var got := t.got + [Redis.LookupNumber(f.cells, OpKeys(AdmitOpFor(q, t.rsv, t.day))[|t.got|], now)];
    ReadFollows(q, f, s, sh.waiting, sh.missed, now);
    if |t.got| < 2 {
      ReadMore(q, f, f', s, sh.waiting, sh.missed, got);
      ExtendNone(q, f', sh, sh.waiting, sh.missed);
    } else {
      var s' := ApplyAll(q, s, sh.waiting);
      ApplyRecords(q, s, sh.waiting);
      DecidesAlike(q, s, s', sh.waiting, t.rsv, t.day, got);
      hide FollowsSys, CountedUp;
      if Refused(q, t.rsv, got[0], got[1], got[2]).Some? {
        RefuseFollows(q, f, f', s, sh.waiting, sh.missed, t.rsv, t.day, t.got);
        Extend(q, f', sh, sh.waiting + [Admit(t.rsv, t.day)], [], 0);
      } else {
        AcceptFollows(q, f, f', s, sh.waiting, sh.missed, t.rsv, t.day, t.got);
        ExtendNone(q, f', sh, sh.waiting, sh.missed);
      }
    }
  }

  lemma {:induction false} ReadMore(q: Quotas, f: Fallback, f': Fallback, s: Sys, waiting: seq<Event>, missed: nat,
                                    got: seq<int>)
    requires FollowsSys(q, f, s, waiting, missed) && f.task.Some? && f.task.value.Reading? && |got| < 3
    requires f' == f.(task := Some(Reading(f.task.value.rsv, f.task.value.day, got)))
    requires ReadsFollow(q, s, waiting, f.task.value.rsv, f.task.value.day, got)
    ensures FollowsSys(q, f', s, waiting, missed)
  {
    hide BucketKey, ReservationKey, Accounted, CellsMatch, ReadsFollow, Held, Read, Pending;
    SameValues(f.cells, Expected(q, f.task, s, waiting), Expected(q, f'.task, s, waiting));
    forall id ensures IdFollows(f', s, id) { assert IdFollows(f, s, id); }
  }

  lemma {:induction false} ReserveKeeps(q: Quotas, f: Fallback, sh: Shadow, now: real)
    requires Follows(q, f, sh) && Ready(f, Advance) && Timed(f, Advance, now) && f.task.value.Reserving?
    ensures Follows(q, Next(q, f, Advance, now), Follow(q, f, sh, Advance, now))
  {
    var s, t := Replay(q, sh), f.task.value;
    hide FollowsSys, Replay, Legal;
    if t.done == 1 && !t.counted {
      CommitFollows(q, f, s, sh.waiting, sh.missed, t.rsv, t.day, now);
      hide Next;
      Extend(q, Next(q, f, Advance, now), sh, [Admit(t.rsv, t.day)] + sh.waiting, [], 0);
    } else {
      ReserveFollows(q, f, s, sh.waiting, sh.missed, now);
      hide Next;
      ExtendNone(q, Next(q, f, Advance, now), sh, sh.waiting, sh.missed);
    }
  }

  lemma {:induction false} AdjustKeepsIff(q: Quotas, f: Fallback, sh: Shadow, now: real)
    requires Follows(q, f, sh) && Ready(f, Advance) && Timed(f, Advance, now) && f.task.value.Adjusting?
    ensures Follows(q, Next(q, f, Advance, now), Follow(q, f, sh, Advance, now)) <==> Kept(q, f, sh, Advance)
  {
    var s, t, f' := Replay(q, sh), f.task.value, Next(q, f, Advance, now);
    hide FollowsSys, Replay, Legal, Timed, Next;
    match t.phase
    case Fetch =>
      FetchFollows(q, f, s, sh.waiting, sh.missed, now);
      ExtendNone(q, f', sh, sh.waiting, 0);
    case Store(_) =>
      StoreFollowsIff(q, f, s, sh.waiting, sh.missed, now);
      ExtendNone(q, f', sh, sh.waiting, sh.missed);
    case Renew =>
      if t.done < 2 {
        RenewFollows(q, f, s, sh.waiting, sh.missed, now);
        ExtendNone(q, f', sh, sh.waiting, sh.missed);
      } else {
        FinishFollows(q, f, s, sh.waiting, sh.missed, now);
        Extend(q, f', sh, [Settle(t.rsv.id, t.actual, t.day)] + sh.waiting, [], 0);
      }
  }

  lemma {:induction false} CancelKeepsIff(q: Quotas, f: Fallback, sh: Shadow, now: real)
    requires Follows(q, f, sh) && Ready(f, Cancel)
    ensures Follows(q, Next(q, f, Cancel, now), Follow(q, f, sh, Cancel, now)) <==> Kept(q, f, sh, Cancel)
  {
    var s, f', t := Replay(q, sh), f.(task := None), f.task.value;
    assert t.Reserving? && !Early(t) ==> sh.waiting == [] by { hide Replay, Legal, CellsMatch, Accounted, IdFollows; }
    hide FollowsSys, Replay, Legal;
    assert [] + sh.waiting == sh.waiting;
    if Early(t) {
      CancelEarlyIff(q, f, f', s, sh.waiting, sh.missed);
      Extend(q, f', sh, sh.waiting, [], 0);
    } else if t.Adjusting? {
      EndFollowsIff(q, f, f', s, sh.waiting, sh.missed);
      Extend(q, f', sh, [Settle(t.rsv.id, t.actual, t.day)] + sh.waiting, [], 0);
    } else {
      CancelLate(q, f, s, sh.missed);
      assert sh.trace + [] == sh.trace;
      ExtendNone(q, f', sh, [], 0);
    }
  }

  /** Every move keeps the fallback in step exactly when it loses no record and leaves no call half done. */
  lemma {:induction false} MoveKeepsIff(q: Quotas, f: Fallback, sh: Shadow, e: Move, now: real)
    requires PlainLimits(q) && Follows(q, f, sh) && Ready(f, e) && Proper(Replay(q, sh), e) && Timed(f, e, now)
    ensures Follows(q, Next(q, f, e, now), Follow(q, f, sh, e, now)) <==> Kept(q, f, sh, e)
  {
    match e
    case StartAdmit(_) => StartKeeps(q, f, sh, e, now);
    case StartSettle(_, _) => StartKeeps(q, f, sh, e, now);
    case Count(_, _, _, _) => CountKeeps(q, f, sh, e, now);
    case Again(_, _, _) =>
      AgainFollows(q, f, Replay(q, sh), sh.waiting, sh.missed, e, now);
      assert sh.trace + [] == sh.trace;
    case Cancel => CancelKeepsIff(q, f, sh, now);
    case Advance =>
      hide Follows, Next, Follow, Legal, Replay, PlainLimits, Timed;
      match f.task.value
      case Reading(_, _, _) => ReadKeeps(q, f, sh, now);
      case Reserving(_, _, _, _) => ReserveKeeps(q, f, sh, now);
      case Adjusting(_, _, _, _, _) => AdjustKeepsIff(q, f, sh, now);
  }

  // ---------- No other reading of a cancelled call ----------

  /** Whatever the holder of the lock was doing, once it is cancelled no sequential run in which its reservation is
      open is in step. */
  lemma {:induction false} CancelledNotOpen(q: Quotas, f: Fallback, sh: Shadow, other: Shadow)
    requires Follows(q, f, sh) && f.task.Some?
    requires Follows(q, f.(task := None), other)
    ensures var id, s := f.task.value.rsv.id, Replay(q, other); !(Held(s, id) && ReservationKey(id) !in s.settled)
  {
    hide Replay, Legal, CellsMatch, Accounted, ReservationKey, Held, Expected, ReadsFollow, Gate;
    var id := f.task.value.rsv.id;
    assert IdFollows(f, Replay(q, sh), id);
    assert IdFollows(f.(task := None), Replay(q, other), id);
  }

  lemma {:induction false} LegalAccounts(q: Quotas, es: seq<Event>)
    requires Legal(q, EMPTY, es)
    ensures Accounted(ApplyAll(q, EMPTY, es))
  {
    if es == [] {
      EmptyConserved();
      ConservedAccounts(EMPTY);
    } else {
      var n := |es| - 1;
      LegalAccounts(q, es[..n]);
      hide Accounted, Known, Step;
      StepAccounts(q, ApplyAll(q, EMPTY, es[..n]), es[n]);
    }
  }

  /** What a late admission has counted includes its request. */
  lemma {:induction false} LateRest(op: AdmitOp, from: nat, key: string)
    requires 2 <= from <= 5 && op.reserve >= 0 && key == op.cReqKey
    ensures Rest(op, 0, key) - Rest(op, from, key) > 0
  {
    assert Rest(op, 5, key) == 0;
    assert Rest(op, 4, key) == Once(op.mTokensKey, key, op.reserve) + Rest(op, 5, key);
    assert Rest(op, 3, key) == Once(op.pReqKey, key, 1) + Rest(op, 4, key);
    assert Rest(op, 2, key) == Once(op.pTokensKey, key, op.reserve) + Rest(op, 3, key);
    assert Rest(op, 1, key) == Once(op.cReqKey, key, 1) + Rest(op, 2, key);
    assert Rest(op, 0, key) == Once(op.cTokensKey, key, op.reserve) + Rest(op, 1, key);
  }

  /** Leaving an admission out of a sequential run takes exactly its counts away. */
  lemma {:induction false} LeftOut(q: Quotas, rsv: Reservation, day: int, before: seq<Event>, since: seq<Event>)
    requires AllIncr(since) && Legal(q, EMPTY, before + ([Admit(rsv, day)] + since))
    requires Held(ApplyAll(q, EMPTY, before + ([Admit(rsv, day)] + since)), rsv.id)
    ensures var s, s' := ApplyAll(q, EMPTY, before + ([Admit(rsv, day)] + since)), ApplyAll(q, EMPTY, before + since);
      forall key :: Read(s.counters, key) == Read(s'.counters, key) + Rest(AdmitOpFor(q, rsv, day), 0, key)
  {
    hide BucketKey, ReservationKey, Read, AdmitOpFor, Reserved, ApplyAll, Legal, Held, Pending, Accounted, Rest;
    var e := Admit(rsv, day);
    var s0 := ApplyAll(q, EMPTY, before);
    ApplyConcat(q, EMPTY, before, [e] + since);
    ApplyConcat(q, EMPTY, before, since);
    ApplyConcat(q, s0, [e], since);
    ApplyOne(q, s0, e);
    var s1 := Step(q, s0, e);
    LegalAccounts(q, before);
    ApplyRecords(q, s0, since);
    ApplyRecords(q, s1, since);
    NotHeld(q, s0, rsv, day);
    hide Step, Gate, Known;
    AdmittedSys(q, s0, rsv, day);
  }

  lemma {:induction false} NotHeld(q: Quotas, s: Sys, rsv: Reservation, day: int)
    requires Known(s, Admit(rsv, day))
    ensures !Held(s, rsv.id) && (Gate(s.counters, AdmitOpFor(q, rsv, day)).Some? ==> Step(q, s, Admit(rsv, day)) == s)
  {
    hide Gate, AdmitOpFor, Reserved;
  }

  /** Nor is the sequential run in step from which a late admission is left out: its request has been counted. */
  lemma {:induction false} LateAdmissionCounts(q: Quotas, f: Fallback, sh: Shadow, rsv: Reservation, day: int,
                                               before: seq<Event>, since: seq<Event>)
    requires Follows(q, f, sh) && f.task.Some? && f.task.value.Reserving? && !Early(f.task.value)
    requires rsv == f.task.value.rsv && day == f.task.value.day
    requires sh.trace == before + ([Admit(rsv, day)] + since) && AllIncr(since)
    ensures !Follows(q, f.(task := None), Shadow(before + since, [], 0))
  {
    hide BucketKey, ReservationKey, Read, AdmitOpFor, ApplyAll, Legal, CellsMatch, Accounted, Held, Rest, Pending;
    var op := AdmitOpFor(q, rsv, day);
    var s, s' := Replay(q, sh), ApplyAll(q, EMPTY, before + since);
    assert IdFollows(f, s, rsv.id);
    LeftOut(q, rsv, day, before, since);
    hide IdFollows;
    var kind, name := OpKeyIs(q, rsv, day, 1);
    var key := BucketKey(kind, name, day);
    LateHere(q, rsv, day, Begun(f.task.value));
    if CellsMatch(f.cells, Expected(q, None, s', [])) {
      LateValues(f.cells, Expected(q, f.task, s, sh.waiting), Expected(q, None, s', []), kind, name, day);
      assert false;
    }
  }

  lemma {:induction false} LateHere(q: Quotas, rsv: Reservation, day: int, from: nat)
    requires 2 <= from <= 5
    ensures var op := AdmitOpFor(q, rsv, day); Rest(op, 0, OpKeys(op)[1]) - Rest(op, from, OpKeys(op)[1]) > 0
  {
    hide BucketKey, Rest;
    var op := AdmitOpFor(q, rsv, day);
    LateRest(op, from, op.cReqKey);
  }

  lemma {:induction false} LateValues(ks: Redis.Keyspace, value: string -> int, value': string -> int, kind: Kind,
                                      name: string, day: int)
    requires CellsMatch(ks, value) && CellsMatch(ks, value')
    ensures value(BucketKey(kind, name, day)) == value'(BucketKey(kind, name, day))
  {
    SameValuesIff(ks, value, value');
    hide CellsMatch, BucketKey;
  }

  // ---------- Whole runs ----------

  ghost predicate RunOk(q: Quotas, f: Fallback, sh: Shadow, es: seq<(Move, real)>)
    decreases |es|
  {
    es == [] ||
    var (e, now) := es[0];
    && Ready(f, e) && Proper(Replay(q, sh), e) && Timed(f, e, now)
    && RunOk(q, Next(q, f, e, now), Follow(q, f, sh, e, now), es[1..])
  }

  ghost function RunOf(q: Quotas, f: Fallback, sh: Shadow, es: seq<(Move, real)>): (Fallback, Shadow)
    requires RunOk(q, f, sh, es)
    decreases |es|
  {
    if es == [] then (f, sh)
    else
      var (e, now) := es[0];
      RunOf(q, Next(q, f, e, now), Follow(q, f, sh, e, now), es[1..])
  }

  ghost predicate AllKept(q: Quotas, f: Fallback, sh: Shadow, es: seq<(Move, real)>)
    requires RunOk(q, f, sh, es)
    decreases |es|
  {
    es == [] ||
    var (e, now) := es[0];
    Kept(q, f, sh, e) && AllKept(q, Next(q, f, e, now), Follow(q, f, sh, e, now), es[1..])
  }

  /** In step after every move. */
  ghost predicate FollowsThroughout(q: Quotas, f: Fallback, sh: Shadow, es: seq<(Move, real)>)
    requires RunOk(q, f, sh, es)
    decreases |es|
  {
    && Follows(q, f, sh)
    && (es == [] ||
        var (e, now) := es[0];
        FollowsThroughout(q, Next(q, f, e, now), Follow(q, f, sh, e, now), es[1..]))
  }

  /** A run stays in step throughout if and only if no record falls between a settle's GET and SET of the same
      key (unless the counter ends at zero either way) and no call is cancelled half done. */
  lemma {:induction false} RunFollowsIff(q: Quotas, f: Fallback, sh: Shadow, es: seq<(Move, real)>)
    requires PlainLimits(q) && Follows(q, f, sh) && RunOk(q, f, sh, es)
    ensures FollowsThroughout(q, f, sh, es) <==> AllKept(q, f, sh, es)
    ensures AllKept(q, f, sh, es) ==> var (f', sh') := RunOf(q, f, sh, es); Follows(q, f', sh')
    decreases |es|
  {
    if es != [] {
      var (e, now) := es[0];
      MoveKeepsIff(q, f, sh, e, now);
      hide Follows, Next, Follow, Kept, Ready, Proper, Timed, PlainLimits, Replay;
      if Kept(q, f, sh, e) {
        RunFollowsIff(q, Next(q, f, e, now), Follow(q, f, sh, e, now), es[1..]);
      }
    }
  }

  /** What the moves of a run complete, in order. */
  ghost function LogOf(q: Quotas, f: Fallback, sh: Shadow, es: seq<(Move, real)>): seq<Event>
    requires RunOk(q, f, sh, es)
    decreases |es|
  {
    if es == [] then []
    else
      var (e, now) := es[0];
      Completed(q, f, e, now) + LogOf(q, Next(q, f, e, now), Follow(q, f, sh, e, now), es[1..])
  }

  /** Admissions and settles. */
  function Locked(es: seq<Event>): seq<Event> {
    if es == [] then []
    else Locked(es[..|es| - 1]) + (if es[|es| - 1].Incr? then [] else [es[|es| - 1]])
  }

  lemma {:induction false} LockedConcat(a: seq<Event>, b: seq<Event>)
    ensures Locked(a + b) == Locked(a) + Locked(b)
  {
    if b == [] {
      assert a + b == a;
    } else {
      var n := |b| - 1;
      LockedConcat(a, b[..n]);
      assert (a + b)[..|a + b| - 1] == a + b[..n];
    }
  }

  lemma {:induction false} LockedRecords(es: seq<Event>)
    requires AllIncr(es)
    ensures Locked(es) == []
  {
    if es != [] { LockedRecords(es[..|es| - 1]); }
  }

  /** A shadow takes over what was completed: nothing lost or doubled, locked calls in their order. */
  ghost predicate TakesOver(sh: Shadow, sh': Shadow, done: seq<Event>) {
    && multiset(sh'.trace + sh'.waiting) == multiset(sh.trace + sh.waiting) + multiset(done)
    && Locked(sh'.trace) == Locked(sh.trace) + Locked(done)
    && AllIncr(sh'.waiting)
  }

  lemma {:induction false} TakesToTrace(sh: Shadow, sh': Shadow, done: seq<Event>)
    requires AllIncr(sh.waiting) && sh'.trace == sh.trace + done && sh'.waiting == sh.waiting
    ensures TakesOver(sh, sh', done)
  {
    LockedConcat(sh.trace, done);
    hide Locked;
  }

  lemma {:induction false} TakesToWaiting(sh: Shadow, sh': Shadow, done: seq<Event>)
    requires AllIncr(sh.waiting) && AllIncr(done) && sh'.trace == sh.trace && sh'.waiting == sh.waiting + done
    ensures TakesOver(sh, sh', done)
  {
    LockedRecords(done);
    assert AllIncr(sh'.waiting);
    hide Locked, AllIncr;
    CountedAll(sh.trace, sh.waiting, done);
    assert Locked(sh.trace) + [] == Locked(sh.trace);
  }

  lemma {:induction false} TakesAll(sh: Shadow, sh': Shadow, done: seq<Event>)
    requires AllIncr(sh.waiting) && sh'.waiting == []
    requires sh'.trace == sh.trace + (done + sh.waiting) || sh'.trace == sh.trace + (sh.waiting + done)
    ensures TakesOver(sh, sh', done)
  {
    LockedAll(sh.trace, sh.waiting, done);
    CountedAll(sh.trace, sh.waiting, done);
    assert sh'.trace + sh'.waiting == sh'.trace;
    assert AllIncr(sh'.waiting);
    hide Locked, AllIncr;
  }

  lemma {:induction false} CountedAll(trace: seq<Event>, waiting: seq<Event>, done: seq<Event>)
    ensures multiset(trace + (done + waiting)) == multiset(trace + waiting) + multiset(done) ==
      multiset(trace + (waiting + done))
  {
    assert trace + (waiting + done) == (trace + waiting) + done;
  }

  lemma {:induction false} LockedAll(trace: seq<Event>, waiting: seq<Event>, done: seq<Event>)
    requires AllIncr(waiting)
    ensures Locked(trace + (done + waiting)) == Locked(trace) + Locked(done) == Locked(trace + (waiting + done))
  {
    LockedConcat(trace, done + waiting);
    LockedConcat(trace, waiting + done);
    LockedConcat(done, waiting);
    LockedConcat(waiting, done);
    LockedRecords(waiting);
    hide *;
    assert Locked(done) + [] == Locked(done) && [] + Locked(done) == Locked(done);
  }

  lemma {:induction false} MoveLogs(q: Quotas, f: Fallback, sh: Shadow, e: Move, now: real)
    requires Ready(f, e) && AllIncr(sh.waiting)
    ensures TakesOver(sh, Follow(q, f, sh, e, now), Completed(q, f, e, now))
  {
    hide Next, DayOf, BucketKey, Delays, OnStoreOf, TakesOver;
    var sh', done := Follow(q, f, sh, e, now), Completed(q, f, e, now);
    match e
    case Count(kind, name, day, _) =>
      if Delays(f, BucketKey(kind, name, day)) { TakesToWaiting(sh, sh', done); } else { TakesToTrace(sh, sh', done); }
    case Advance =>
      if done != [] {
        TakesAll(sh, sh', done);
      } else {
        assert sh.trace + [] == sh.trace;
        TakesToTrace(sh, sh', done);
      }
    case Cancel =>
      assert sh.waiting + [] == sh.waiting;
      TakesAll(sh, sh', done);
    case _ =>
      assert sh.trace + [] == sh.trace;
      TakesToTrace(sh, sh', done);
  }

  lemma {:induction false} TakesOverTwice(a: Shadow, b: Shadow, c: Shadow, x: seq<Event>, y: seq<Event>)
    requires TakesOver(a, b, x) && TakesOver(b, c, y)
    ensures TakesOver(a, c, x + y)
  {
    LockedConcat(x, y);
    hide Locked, AllIncr;
  }

  lemma {:induction false} RunLogs(q: Quotas, f: Fallback, sh: Shadow, es: seq<(Move, real)>)
    requires RunOk(q, f, sh, es) && AllIncr(sh.waiting)
    ensures TakesOver(sh, RunOf(q, f, sh, es).1, LogOf(q, f, sh, es))
    decreases |es|
  {
    if es == [] {
      assert sh.trace + [] == sh.trace;
      TakesToTrace(sh, sh, []);
    } else {
      var (e, now) := es[0];
      var f', sh' := Next(q, f, e, now), Follow(q, f, sh, e, now);
      MoveLogs(q, f, sh, e, now);
      assert AllIncr(sh'.waiting);
      hide Next, Follow, Completed, Ready, Proper, Timed, Replay, TakesOver, AllIncr;
      RunLogs(q, f', sh', es[1..]);
      TakesOverTwice(sh, sh', RunOf(q, f', sh', es[1..]).1, Completed(q, f, e, now), LogOf(q, f', sh', es[1..]));
    }
  }

  lemma {:induction false} NothingYet(q: Quotas)
    ensures Follows(q, EMPTY_FALLBACK, NO_SHADOW)
  {
    hide BucketKey, ReservationKey;
  }

  /** Main result: a run that loses no record and cuts no call off amounts to a legal run of the in-memory store
      over the same records, admissions and settles, the latter two in the order of the lock. Whenever the lock is
      free, every counter of the day reads as that run's, the next uninterrupted admission is refused alike, and a
      settle applies alike, however late it comes. */
  lemma {:induction false} FallbackAgrees(q: Quotas, es: seq<(Move, real)>, now: real, kind: Kind, name: string,
                                          rsv: Reservation, id: string)
    requires PlainLimits(q) && RunOk(q, EMPTY_FALLBACK, NO_SHADOW, es) && AllKept(q, EMPTY_FALLBACK, NO_SHADOW, es)
      && now >= 0.0
    ensures var (f, sh) := RunOf(q, EMPTY_FALLBACK, NO_SHADOW, es); var log := LogOf(q, EMPTY_FALLBACK, NO_SHADOW, es);
      var s := Replay(q, sh);
      && Legal(q, EMPTY, sh.trace) && multiset(sh.trace + sh.waiting) == multiset(log)
        && Locked(sh.trace) == Locked(log)
      && (f.task.None? ==>
            && sh.waiting == []
            && Redis.LookupNumber(f.cells, BucketKey(kind, name, DayOf(now)), now) ==
              Read(s.counters, BucketKey(kind, name, DayOf(now)))
            && (Refuses(q, f.cells, rsv, now).Some? <==> Gate(s.counters, AdmitOpFor(q, rsv, DayOf(now))).Some?)
            && (Applies(f, id) <==> Held(s, id) && ReservationKey(id) !in s.settled))
  {
    NothingYet(q);
    RunFollowsIff(q, EMPTY_FALLBACK, NO_SHADOW, es);
    RunLogs(q, EMPTY_FALLBACK, NO_SHADOW, es);
    assert NO_SHADOW.trace + NO_SHADOW.waiting == [] && Locked([]) == [];
    var (f, sh) := RunOf(q, EMPTY_FALLBACK, NO_SHADOW, es);
    hide RunOk, RunOf, AllKept, LogOf;
    if f.task.None? { FreeLock(q, f, sh, now, kind, name, rsv, id); }
    hide *;
  }

  lemma {:induction false} FreeLock(q: Quotas, f: Fallback, sh: Shadow, now: real, kind: Kind, name: string,
                                    rsv: Reservation, id: string)
    requires PlainLimits(q) && Follows(q, f, sh) && f.task.None? && now >= 0.0
    ensures var s := Replay(q, sh);
      && sh.waiting == []
      && Redis.LookupNumber(f.cells, BucketKey(kind, name, DayOf(now)), now) ==
        Read(s.counters, BucketKey(kind, name, DayOf(now)))
      && (Refuses(q, f.cells, rsv, now).Some? <==> Gate(s.counters, AdmitOpFor(q, rsv, DayOf(now))).Some?)
      && (Applies(f, id) <==> Held(s, id) && ReservationKey(id) !in s.settled)
  {
    hide BucketKey, ReservationKey, Replay, Legal, Marked, DayOf, Redis.LookupNumber, Held;
    var s := Replay(q, sh);
    var b := Both(s, f.cells, map[]);
    assert BucketsMatch(b) by {
      hide BucketMatches;
      var value := Expected(q, f.task, s, sh.waiting);
      forall k, n, d ensures BucketMatches(f.cells, BucketKey(k, n, d), d, Read(s.counters, BucketKey(k, n, d))) {
        assert BucketMatches(f.cells, BucketKey(k, n, d), d, value(BucketKey(k, n, d)));
      }
    }
    assert IdFollows(f, s, id);
    hide CellsMatch, IdFollows, BucketsMatch, Gate, Refuses, ScriptGate, AdmitOpFor;
    BucketReads(b, kind, name, now);
    GateAgrees(q, b, rsv, now);
    GatesAgree(q, b, rsv, now);
  }
}
