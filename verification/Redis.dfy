/** The part of Redis that the gateway's stores rely on: a keyspace whose entries may expire. */
module Redis {
  import opened Wrappers

  datatype Value = Number(n: int) | Text(s: string) | Float(r: real)

  datatype Cell = Cell(value: Value, expireAt: Option<real>)

  type Keyspace = map<string, Cell>

  predicate Alive(c: Cell, now: real) {
    c.expireAt.Some? ==> now < c.expireAt.value
  }

  /** GET: an expired entry reads as missing. */
  function Lookup(ks: Keyspace, key: string, now: real): Option<Value> {
    if key in ks && Alive(ks[key], now) then Some(ks[key].value) else None
  }

  /** A counter read, with the scripts' default of zero. */
  function LookupNumber(ks: Keyspace, key: string, now: real): int {
    match Lookup(ks, key, now)
    case Some(Number(n)) => n
    case _ => 0
  }

  /** SET without options drops an expiry. */
  function Set(ks: Keyspace, key: string, v: Value): Keyspace {
    ks[key := Cell(v, None)]
  }

  /** SET with EX. */
  function SetEx(ks: Keyspace, key: string, v: Value, now: real, ttl: real): Keyspace {
    ks[key := Cell(v, Some(now + ttl))]
  }

  /** SET with KEEPTTL. */
  function SetKeep(ks: Keyspace, key: string, v: Value, now: real): Keyspace {
    ks[key := Cell(v, if key in ks && Alive(ks[key], now) then ks[key].expireAt else None)]
  }

  /** INCRBY keeps an expiry, starts a missing counter at zero, and fails on a non-number. */
  function IncrBy(ks: Keyspace, key: string, amount: int, now: real): Keyspace {
    match Lookup(ks, key, now)
    case Some(Number(n)) => ks[key := Cell(Number(n + amount), ks[key].expireAt)]
    case None => ks[key := Cell(Number(amount), None)]
    case _ => ks
  }

  /** EXPIRE acts on live entries only. */
  function Expire(ks: Keyspace, key: string, now: real, ttl: real): Keyspace {
    if key in ks && Alive(ks[key], now) then ks[key := ks[key].(expireAt := Some(now + ttl))] else ks
  }

  function Delete(ks: Keyspace, key: string): Keyspace {
    ks - {key}
  }

  // ---------- Several keys at once ----------

  function IncrAll(ks: Keyspace, keys: seq<string>, amounts: seq<int>, now: real): Keyspace
    requires |keys| == |amounts|
  {
    if keys == [] then ks
    else
      var n := |keys| - 1;
      IncrBy(IncrAll(ks, keys[..n], amounts[..n], now), keys[n], amounts[n], now)
  }

  function ExpireAll(ks: Keyspace, keys: seq<string>, now: real, ttl: real): Keyspace {
    if keys == [] then ks
    else
      var n := |keys| - 1;
      Expire(ExpireAll(ks, keys[..n], now, ttl), keys[n], now, ttl)
  }

  /** The entry under a key, if there is one. */
  function CellAt(ks: Keyspace, key: string): Option<Cell> {
    if key in ks then Some(ks[key]) else None
  }

  lemma {:induction false} IncrAllElsewhere(ks: Keyspace, keys: seq<string>, amounts: seq<int>, now: real, key: string)
    requires |keys| == |amounts| && key !in keys
    ensures CellAt(IncrAll(ks, keys, amounts, now), key) == CellAt(ks, key)
  {
    if keys != [] {
      var n := |keys| - 1;
      assert keys[n] in keys && forall k :: k in keys[..n] ==> k in keys;
      IncrAllElsewhere(ks, keys[..n], amounts[..n], now, key);
    }
  }

  /** A key is incremented once, whatever the other keys are. */
  lemma {:induction false} IncrAllAt(ks: Keyspace, keys: seq<string>, amounts: seq<int>, now: real, i: nat)
    requires |keys| == |amounts| && Distinct(keys) && i < |keys|
    ensures CellAt(IncrAll(ks, keys, amounts, now), keys[i]) == CellAt(IncrBy(ks, keys[i], amounts[i], now), keys[i])
  {
    var n := |keys| - 1;
    if i == n {
      IncrAllElsewhere(ks, keys[..n], amounts[..n], now, keys[n]);
    } else {
      IncrAllAt(ks, keys[..n], amounts[..n], now, i);
    }
  }

  lemma {:induction false} ExpireAllElsewhere(ks: Keyspace, keys: seq<string>, now: real, ttl: real, key: string)
    requires key !in keys
    ensures CellAt(ExpireAll(ks, keys, now, ttl), key) == CellAt(ks, key)
  {
    if keys != [] {
      var n := |keys| - 1;
      assert keys[n] in keys && forall k :: k in keys[..n] ==> k in keys;
      ExpireAllElsewhere(ks, keys[..n], now, ttl, key);
    }
  }

  lemma {:induction false} ExpireAllAt(ks: Keyspace, keys: seq<string>, now: real, ttl: real, i: nat)
    requires Distinct(keys) && i < |keys|
    ensures CellAt(ExpireAll(ks, keys, now, ttl), keys[i]) == CellAt(Expire(ks, keys[i], now, ttl), keys[i])
  {
    var n := |keys| - 1;
    if i == n {
      ExpireAllElsewhere(ks, keys[..n], now, ttl, keys[n]);
    } else {
      ExpireAllAt(ks, keys[..n], now, ttl, i);
    }
  }

  /** Incrementing a counter that reads as `value` and renewing its expiry. */
  lemma {:induction false} CountAndRenew(ks: Keyspace, keys: seq<string>, amounts: seq<int>, now: real, ttl: real,
                                         i: nat, value: int)
    requires |keys| == |amounts| && Distinct(keys) && i < |keys|
    requires match Lookup(ks, keys[i], now) case Some(v) => v == Number(value) case None => value == 0
    ensures CellAt(ExpireAll(IncrAll(ks, keys, amounts, now), keys, now, ttl), keys[i])
         == Some(Cell(Number(value + amounts[i]), Some(now + ttl)))
  {
    IncrAllAt(ks, keys, amounts, now, i);
    ExpireAllAt(IncrAll(ks, keys, amounts, now), keys, now, ttl, i);
    ExpireOne(IncrBy(ks, keys[i], amounts[i], now), IncrAll(ks, keys, amounts, now), keys[i], now, ttl);
  }

  lemma {:induction false} ExpireOne(ks: Keyspace, ks': Keyspace, key: string, now: real, ttl: real)
    requires CellAt(ks, key) == CellAt(ks', key)
    ensures CellAt(Expire(ks, key, now, ttl), key) == CellAt(Expire(ks', key, now, ttl), key)
  {
  }
}
