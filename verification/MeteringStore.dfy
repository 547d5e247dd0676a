/** The in-memory counter store: atomic admit-and-reserve, idempotent settle, plain increments. */
module MeteringStore {
  import opened Wrappers

  type Counters = map<string, int>

  datatype Denied = DeniedClientTokens | DeniedClientRequests | DeniedProviderTokens

  /** An admission: a limit below 0 means "count without gating". */
  datatype AdmitOp = AdmitOp(cTokensKey: string, cTokensLimit: int, cReqKey: string, cReqLimit: int,
                             pTokensKey: string, pTokensLimit: int, pReqKey: string, mTokensKey: string,
                             reserve: int)

  datatype SettleReq = SettleReq(reservationKey: string, tokenKeys: seq<string>, delta: int)

  /** A missing counter reads as zero. */
  function Read(m: Counters, key: string): int {
    if key in m then m[key] else 0
  }

  function Add(m: Counters, key: string, amount: int): Counters {
    m[key := Read(m, key) + amount]
  }

  predicate Exceeds(limit: int, used: int, amount: int) {
    limit >= 0 && used + amount > limit
  }

  /** Which budget refuses an admission; the request counter is looked at first. */
  function Gate(m: Counters, op: AdmitOp): Option<Denied> {
    if Exceeds(op.cReqLimit, Read(m, op.cReqKey), 1) then Some(DeniedClientRequests)
    else if Exceeds(op.cTokensLimit, Read(m, op.cTokensKey), op.reserve) then Some(DeniedClientTokens)
    else if Exceeds(op.pTokensLimit, Read(m, op.pTokensKey), op.reserve) then Some(DeniedProviderTokens)
    else None
  }

  /** All five increments of an admission. */
  function Reserved(m: Counters, op: AdmitOp): Counters {
    Add(Add(Add(Add(Add(m, op.cTokensKey, op.reserve), op.cReqKey, 1), op.pTokensKey, op.reserve), op.pReqKey, 1),
        op.mTokensKey, op.reserve)
  }

  /** Each key moved by `delta`, never below zero. */
  function Adjusted(m: Counters, keys: seq<string>, delta: int): Counters {
    if keys == [] then m
    else
      var m' := Adjusted(m, keys[..|keys| - 1], delta);
      var key := keys[|keys| - 1];
      var v := Read(m', key) + delta;
      m'[key := if v < 0 then 0 else v]
  }

  class InMemoryStore {
    var counters: Counters
    var settled: set<string>

    constructor ()
      ensures counters == map[] && settled == {}
    {
      counters, settled := map[], {};
    }

    method Incr(key: string, amount: int) returns (r: int)
      modifies this`counters
      ensures counters == Add(old(counters), key, amount) && r == Read(counters, key)
    {
      var entry := if key in counters then counters[key] else 0;
      entry := entry + amount;
      counters := counters[key := entry];
      return entry;
    }

    method Get(key: string) returns (r: int)
      ensures r == Read(counters, key)
    {
      r := if key in counters then counters[key] else 0;
    }

    /** Refuses without touching anything, or applies the whole reservation. */
    method Reserve(op: AdmitOp) returns (r: Option<Denied>)
      modifies this`counters
      ensures r == Gate(old(counters), op)
      ensures counters == if r.None? then Reserved(old(counters), op) else old(counters)
    {
      var used := Get(op.cReqKey);
      if op.cReqLimit >= 0 && used + 1 > op.cReqLimit {
        return Some(DeniedClientRequests);
      }
      used := Get(op.cTokensKey);
      if op.cTokensLimit >= 0 && used + op.reserve > op.cTokensLimit {
        return Some(DeniedClientTokens);
      }
      used := Get(op.pTokensKey);
      if op.pTokensLimit >= 0 && used + op.reserve > op.pTokensLimit {
        return Some(DeniedProviderTokens);
      }
      var v := Incr(op.cTokensKey, op.reserve);
      v := Incr(op.cReqKey, 1);
      v := Incr(op.pTokensKey, op.reserve);
      v := Incr(op.pReqKey, 1);
      v := Incr(op.mTokensKey, op.reserve);
      return None;
    }

    /** Applies a settle the first time its reservation key is seen; later calls change nothing. */
    method Settle(req: SettleReq) returns (applied: bool)
      modifies this
      ensures applied == (req.reservationKey !in old(settled))
      ensures settled == old(settled) + {req.reservationKey}
      ensures counters == if applied then Adjusted(old(counters), req.tokenKeys, req.delta) else old(counters)
    {
      if req.reservationKey in settled {
        return false;
      }
      settled := settled + {req.reservationKey};
      for i := 0 to |req.tokenKeys|
        invariant counters == Adjusted(old(counters), req.tokenKeys[..i], req.delta)
        invariant settled == old(settled) + {req.reservationKey}
      {
        var key := req.tokenKeys[i];
        var v := Get(key);
        v := v + req.delta;
        counters := counters[key := if v < 0 then 0 else v];
        assert req.tokenKeys[..i + 1][..i] == req.tokenKeys[..i];
      }
      assert req.tokenKeys[..|req.tokenKeys|] == req.tokenKeys;
      return true;
    }
  }
}
