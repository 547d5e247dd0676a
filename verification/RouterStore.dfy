/** Where the policy engine keeps its state: in memory, or in Redis with lazy deletion and expiring counters. */
module RouterStore {
  import opened Wrappers
  import opened DayKeys
  import opened Redis

  datatype Op = GetOverride | SetOverride(provider: string, until: real) | ClearOverride
              | BlockSource(client: string, end: real) | IsBlocked(who: string)
              | IncrTokens(payer: string, day: int, amount: int) | GetTokens(user: string, on: int)

  /** An operation and when it is called. */
  datatype Call = Call(now: real, op: Op)

  datatype Reply = Nothing | Override(current: Option<(string, real)>) | Flag(on: bool) | Count(n: int)

  // ---------- In memory ----------

  datatype Memory = Memory(override: Option<(string, real)>, blocked: map<string, real>,
                           tokens: map<(string, string), int>)

  const EMPTY := Memory(None, map[], map[])

  function Tokens(m: Memory, provider: string, day: string): int {
    if (provider, day) in m.tokens then m.tokens[(provider, day)] else 0
  }

  function MemoryAfter(m: Memory, c: Call): Memory {
    match c.op
    case SetOverride(p, u) => m.(override := Some((p, u)))
    case ClearOverride => m.(override := None)
    case BlockSource(client, u) => m.(blocked := m.blocked[client := u])
    case IncrTokens(p, d, n) => m.(tokens := m.tokens[(p, DayString(d)) := Tokens(m, p, DayString(d)) + n])
    case _ => m
  }

  function MemoryReply(m: Memory, c: Call): Reply {
    match c.op
    case GetOverride => Override(m.override)
    case IsBlocked(client) => Flag((if client in m.blocked then m.blocked[client] else 0.0) > c.now)
    case IncrTokens(p, d, n) => Count(Tokens(m, p, DayString(d)) + n)
    case GetTokens(p, d) => Count(Tokens(m, p, DayString(d)))
    case _ => Nothing
  }

  class InMemoryRouterStore {
    var override: Option<(string, real)>
    var blocked: map<string, real>
    var tokens: map<(string, string), int>

    ghost function Abs(): Memory
      reads this
    {
      Memory(override, blocked, tokens)
    }

    constructor ()
      ensures Abs() == EMPTY
    {
      override, blocked, tokens := None, map[], map[];
    }

    method ReadOverride(now: real) returns (r: Option<(string, real)>)
      ensures MemoryReply(Abs(), Call(now, GetOverride)) == Override(r)
    {
      return override;
    }

    method WriteOverride(provider: string, until: real, now: real)
      modifies this`override
      ensures Abs() == MemoryAfter(old(Abs()), Call(now, SetOverride(provider, until)))
    {
      override := Some((provider, until));
    }

    method DropOverride(now: real)
      modifies this`override
      ensures Abs() == MemoryAfter(old(Abs()), Call(now, ClearOverride))
    {
      override := None;
    }

    method Block(client: string, until: real, now: real)
      modifies this`blocked
      ensures Abs() == MemoryAfter(old(Abs()), Call(now, BlockSource(client, until)))
    {
      blocked := blocked[client := until];
    }

    method Blocked(client: string, now: real) returns (r: bool)
      ensures MemoryReply(Abs(), Call(now, IsBlocked(client))) == Flag(r)
    {
      return (if client in blocked then blocked[client] else 0.0) > now;
    }

    method AddTokens(provider: string, day: int, amount: int, now: real) returns (r: int)
      modifies this`tokens
      ensures Abs() == MemoryAfter(old(Abs()), Call(now, IncrTokens(provider, day, amount)))
      ensures MemoryReply(old(Abs()), Call(now, IncrTokens(provider, day, amount))) == Count(r)
    {
      var key := (provider, DayString(day));
      tokens := tokens[key := (if key in tokens then tokens[key] else 0) + amount];
      return tokens[key];
    }

    method ReadTokens(provider: string, day: int, now: real) returns (r: int)
      ensures MemoryReply(Abs(), Call(now, GetTokens(provider, day))) == Count(r)
    {
      var key := (provider, DayString(day));
      return if key in tokens then tokens[key] else 0;
    }
  }

  // ---------- In Redis ----------

  datatype Key = OverrideKey | UntilKey | BlockedKey(client: string) | TokensKey(provider: string, day: int)

  const PREFIX := "fwllm:rt"

  function KeyString(k: Key): string {
    match k
    case OverrideKey => PREFIX + ":override"
    case UntilKey => PREFIX + ":override_until"
    case BlockedKey(client) => PREFIX + ":blocked:" + client
    case TokensKey(p, d) => PREFIX + ":tokens:" + p + ":" + DayString(d)
  }

  const TWO_DAYS := 172800.0

  function RedisAfter(ks: Keyspace, c: Call): Keyspace {
    match c.op
    case SetOverride(p, u) => Set(Set(ks, KeyString(OverrideKey), Text(p)), KeyString(UntilKey), Float(u))
    case ClearOverride => Delete(Delete(ks, KeyString(OverrideKey)), KeyString(UntilKey))
    case BlockSource(client, u) => Set(ks, KeyString(BlockedKey(client)), Float(u))
    case IsBlocked(client) =>
      var key := KeyString(BlockedKey(client));
      if Lookup(ks, key, c.now).Some? && Real(Lookup(ks, key, c.now).value) <= c.now then Delete(ks, key) else ks
    case IncrTokens(p, d, n) =>
      var key := KeyString(TokensKey(p, d));
      Expire(IncrBy(ks, key, n, c.now), key, c.now, TWO_DAYS)
    case _ => ks
  }

  /** A stored value read as a time. */
  function Real(v: Value): real {
    match v case Float(r) => r case Number(n) => n as real case Text(_) => 0.0
  }

  function RedisReply(ks: Keyspace, c: Call): Reply {
    match c.op
    case GetOverride =>
      (match (Lookup(ks, KeyString(OverrideKey), c.now), Lookup(ks, KeyString(UntilKey), c.now))
       case (Some(Text(p)), Some(u)) => Override(if p != "" then Some((p, Real(u))) else None)
       case _ => Override(None))
    case IsBlocked(client) =>
      var raw := Lookup(ks, KeyString(BlockedKey(client)), c.now);
      Flag(raw.Some? && Real(raw.value) > c.now)
    case IncrTokens(p, d, n) => Count(LookupNumber(ks, KeyString(TokensKey(p, d)), c.now) + n)
    case GetTokens(p, d) => Count(LookupNumber(ks, KeyString(TokensKey(p, d)), c.now))
    case _ => Nothing
  }

  class RedisRouterStore {
    var keys: Keyspace

    constructor (keys: Keyspace)
      ensures this.keys == keys
    {
      this.keys := keys;
    }

    method ReadOverride(now: real) returns (r: Option<(string, real)>)
      ensures RedisReply(keys, Call(now, GetOverride)) == Override(r)
    {
      var provider, until := Lookup(keys, KeyString(OverrideKey), now), Lookup(keys, KeyString(UntilKey), now);
      if provider.Some? && until.Some? && provider.value.Text? && provider.value.s != "" {
        return Some((provider.value.s, Real(until.value)));
      }
      return None;
    }

    method WriteOverride(provider: string, until: real, now: real)
      modifies this
      ensures keys == RedisAfter(old(keys), Call(now, SetOverride(provider, until)))
    {
      keys := Set(keys, KeyString(OverrideKey), Text(provider));
      keys := Set(keys, KeyString(UntilKey), Float(until));
    }

    method DropOverride(now: real)
      modifies this
      ensures keys == RedisAfter(old(keys), Call(now, ClearOverride))
    {
      keys := Delete(keys, KeyString(OverrideKey));
      keys := Delete(keys, KeyString(UntilKey));
    }

    method Block(client: string, until: real, now: real)
      modifies this
      ensures keys == RedisAfter(old(keys), Call(now, BlockSource(client, until)))
    {
      keys := Set(keys, KeyString(BlockedKey(client)), Float(until));
    }

    /** Deletes a block that has run out. */
    method Blocked(client: string, now: real) returns (r: bool)
      modifies this
      ensures keys == RedisAfter(old(keys), Call(now, IsBlocked(client)))
      ensures RedisReply(old(keys), Call(now, IsBlocked(client))) == Flag(r)
    {
      var raw := Lookup(keys, KeyString(BlockedKey(client)), now);
      if raw.None? {
        return false;
      }
      if Real(raw.value) <= now {
        keys := Delete(keys, KeyString(BlockedKey(client)));
        return false;
      }
      return true;
    }

    method AddTokens(provider: string, day: int, amount: int, now: real) returns (r: int)
      modifies this
      ensures keys == RedisAfter(old(keys), Call(now, IncrTokens(provider, day, amount)))
      ensures RedisReply(old(keys), Call(now, IncrTokens(provider, day, amount))) == Count(r)
    {
      var key := KeyString(TokensKey(provider, day));
      r := LookupNumber(keys, key, now) + amount;
      keys := IncrBy(keys, key, amount, now);
      keys := Expire(keys, key, now, TWO_DAYS);
    }

    method ReadTokens(provider: string, day: int, now: real) returns (r: int)
      ensures RedisReply(keys, Call(now, GetTokens(provider, day))) == Count(r)
    {
      return LookupNumber(keys, KeyString(TokensKey(provider, day)), now);
    }
  }

  // ---------- Keys do not collide ----------

  lemma {:induction false} SamePrefix(a: string, b: string, c: string)
    requires a + b == a + c
    ensures b == c
  {
    assert (a + b)[|a|..] == b && (a + c)[|a|..] == c;
  }

  lemma {:induction false} TokenKeysDistinct(p: string, d: int, p': string, d': int)
    requires KeyString(TokensKey(p, d)) == KeyString(TokensKey(p', d'))
    ensures p == p' && d == d'
  {
    DayStringInjective(d, d');
    DayStringInjective(d', d);
    var x, y := DayString(d), DayString(d');
    hide DayString;
    var start := PREFIX + ":tokens:";
    assert KeyString(TokensKey(p, d)) == start + (p + ":" + x);
    assert KeyString(TokensKey(p', d')) == start + (p' + ":" + y);
    SamePrefix(start, p + ":" + x, p' + ":" + y);
    SplitAtLastColon(p, x, p', y);
  }

  /** Every key string belongs to one key, whatever colons the names contain. */
  lemma {:induction false} KeyStringsDistinct(a: Key, b: Key)
    ensures KeyString(a) == KeyString(b) <==> a == b
  {
    if KeyString(a) == KeyString(b) { SameKey(a, b); }
  }

  /** The first letter after the common prefix. */
  function Letter(k: Key): char {
    match k case OverrideKey => 'o' case UntilKey => 'o' case BlockedKey(_) => 'b' case TokensKey(_, _) => 't'
  }

  lemma {:induction false} SameKey(a: Key, b: Key)
    requires KeyString(a) == KeyString(b)
    ensures a == b
  {
    hide DayString;
    var s := KeyString(a);
    assert s[9] == Letter(a) == Letter(b);
    if a.TokensKey? {
      TokenKeysDistinct(a.provider, a.day, b.provider, b.day);
    } else if a.BlockedKey? {
      SamePrefix(PREFIX + ":blocked:", a.client, b.client);
    }
  }

  predicate Touches(op: Op, k: Key) {
    match op
    case SetOverride(_, _) => k == OverrideKey || k == UntilKey
    case ClearOverride => k == OverrideKey || k == UntilKey
    case BlockSource(client, _) => k == BlockedKey(client)
    case IsBlocked(client) => k == BlockedKey(client)
    case IncrTokens(p, d, _) => k == TokensKey(p, d)
    case _ => false
  }

  /** A call leaves alone every key that it does not name. */
  lemma {:induction false} Elsewhere(ks: Keyspace, c: Call, k: Key)
    requires !Touches(c.op, k)
    ensures CellAt(RedisAfter(ks, c), KeyString(k)) == CellAt(ks, KeyString(k))
  {
    var s := KeyString(k);
    forall k' | KeyString(k') == s ensures k' == k { KeyStringsDistinct(k', k); }
    hide KeyString, Real;
  }

  // ---------- The stores answer alike ----------

  ghost predicate OverrideMirrors(m: Memory, ks: Keyspace) {
    var provider, until := CellAt(ks, KeyString(OverrideKey)), CellAt(ks, KeyString(UntilKey));
    match m.override
    case None => provider.None? && until.None?
    case Some(o) => o.0 != "" && provider == Some(Cell(Text(o.0), None)) && until == Some(Cell(Float(o.1), None))
  }

  /** Redis keeps a block until a query finds it over. */
  ghost predicate BlockMirrors(m: Memory, ks: Keyspace, client: string, now: real) {
    match CellAt(ks, KeyString(BlockedKey(client)))
    case Some(cell) => client in m.blocked && cell == Cell(Float(m.blocked[client]), None)
    case None => client in m.blocked ==> m.blocked[client] <= now
  }

  /** A counter lives at least until the end of the day after its own. */
  ghost predicate TokensMirror(m: Memory, ks: Keyspace, p: string, d: int) {
    match CellAt(ks, KeyString(TokensKey(p, d)))
    case Some(cell) =>
      && cell.value == Number(Tokens(m, p, DayString(d)))
      && cell.expireAt.Some? && cell.expireAt.value >= (86_400 * (d + 2)) as real
    case None => Tokens(m, p, DayString(d)) == 0
  }

  ghost predicate Mirrors(m: Memory, ks: Keyspace, now: real) {
    && OverrideMirrors(m, ks)
    && (forall client :: BlockMirrors(m, ks, client, now))
    && (forall p, d :: TokensMirror(m, ks, p, d))
  }

  /** What the engine keeps to: override providers have a name, and counters are those of the current day. */
  predicate Proper(c: Call) {
    match c.op
    case SetOverride(p, _) => p != ""
    case IncrTokens(_, d, _) => d == DayOf(c.now)
    case GetTokens(_, d) => d == DayOf(c.now)
    case _ => true
  }

  lemma {:induction false} SameReply(m: Memory, ks: Keyspace, c: Call, last: real)
    requires Mirrors(m, ks, last) && last <= c.now && c.now >= 0.0 && Proper(c)
    ensures RedisReply(ks, c) == MemoryReply(m, c)
  {
    hide KeyString, DayString;
    match c.op
    case IncrTokens(p, d, _) => DayBounds(c.now); assert TokensMirror(m, ks, p, d); hide DayOf, Mirrors;
    case GetTokens(p, d) => DayBounds(c.now); assert TokensMirror(m, ks, p, d); hide DayOf, Mirrors;
    case IsBlocked(client) => assert BlockMirrors(m, ks, client, last);
    case _ => hide BlockMirrors, TokensMirror;
  }

  lemma {:induction false} OverrideStep(m: Memory, ks: Keyspace, c: Call)
    requires OverrideMirrors(m, ks) && Proper(c)
    ensures OverrideMirrors(MemoryAfter(m, c), RedisAfter(ks, c))
  {
    if !c.op.SetOverride? && !c.op.ClearOverride? {
      Elsewhere(ks, c, OverrideKey);
      Elsewhere(ks, c, UntilKey);
      hide RedisAfter, KeyString;
    } else {
      KeyStringsDistinct(OverrideKey, UntilKey);
      hide KeyString;
    }
  }

  lemma {:induction false} BlockStep(m: Memory, ks: Keyspace, c: Call, client: string, last: real)
    requires BlockMirrors(m, ks, client, last) && last <= c.now
    ensures BlockMirrors(MemoryAfter(m, c), RedisAfter(ks, c), client, c.now)
  {
    if Touches(c.op, BlockedKey(client)) {
      hide KeyString;
    } else {
      Elsewhere(ks, c, BlockedKey(client));
      hide RedisAfter, KeyString;
    }
  }

  lemma {:induction false} IncrMirrors(m: Memory, ks: Keyspace, c: Call, p: string, d: int)
    requires TokensMirror(m, ks, p, d) && c.op.IncrTokens? && c.op.payer == p && c.op.day == d
    requires (86_400 * d) as real <= c.now < (86_400 * (d + 1)) as real
    ensures TokensMirror(MemoryAfter(m, c), RedisAfter(ks, c), p, d)
  {
    hide KeyString, DayString;
  }

  lemma {:induction false} OtherTokens(m: Memory, c: Call, p: string, d: int)
    requires !Touches(c.op, TokensKey(p, d))
    ensures Tokens(MemoryAfter(m, c), p, DayString(d)) == Tokens(m, p, DayString(d))
  {
    if c.op.IncrTokens? { DayStringInjective(c.op.day, d); }
    hide DayString;
  }

  lemma {:induction false} TokensStep(m: Memory, ks: Keyspace, c: Call, p: string, d: int)
    requires TokensMirror(m, ks, p, d) && Proper(c) && c.now >= 0.0
    ensures TokensMirror(MemoryAfter(m, c), RedisAfter(ks, c), p, d)
  {
    if Touches(c.op, TokensKey(p, d)) {
      DayBounds(c.now);
      IncrMirrors(m, ks, c, p, d);
    } else {
      Elsewhere(ks, c, TokensKey(p, d));
      OtherTokens(m, c, p, d);
      hide RedisAfter, MemoryAfter, KeyString, DayString, Tokens, DayOf, Touches;
    }
  }

  lemma {:induction false} StepMirrors(m: Memory, ks: Keyspace, c: Call, last: real)
    requires Mirrors(m, ks, last) && last <= c.now && c.now >= 0.0 && Proper(c)
    ensures Mirrors(MemoryAfter(m, c), RedisAfter(ks, c), c.now)
  {
    OverrideStep(m, ks, c);
    forall client ensures BlockMirrors(MemoryAfter(m, c), RedisAfter(ks, c), client, c.now) {
      BlockStep(m, ks, c, client, last);
    }
    forall p, d ensures TokensMirror(MemoryAfter(m, c), RedisAfter(ks, c), p, d) { TokensStep(m, ks, c, p, d); }
  }

  function MemoryReplies(m: Memory, cs: seq<Call>): seq<Reply>
    decreases |cs|
  {
    if cs == [] then [] else [MemoryReply(m, cs[0])] + MemoryReplies(MemoryAfter(m, cs[0]), cs[1..])
  }

  function RedisReplies(ks: Keyspace, cs: seq<Call>): seq<Reply>
    decreases |cs|
  {
    if cs == [] then [] else [RedisReply(ks, cs[0])] + RedisReplies(RedisAfter(ks, cs[0]), cs[1..])
  }

  predicate Timely(cs: seq<Call>, from: real) {
    forall i :: 0 <= i < |cs| ==> from <= cs[i].now && forall j :: 0 <= j < i ==> cs[j].now <= cs[i].now
  }

  lemma {:induction false} RunMirrors(m: Memory, ks: Keyspace, cs: seq<Call>, last: real)
    requires Mirrors(m, ks, last) && last >= 0.0
    requires Timely(cs, last) && forall i :: 0 <= i < |cs| ==> Proper(cs[i])
    ensures RedisReplies(ks, cs) == MemoryReplies(m, cs)
    decreases |cs|
  {
    if cs != [] {
      SameReply(m, ks, cs[0], last);
      StepMirrors(m, ks, cs[0], last);
      assert forall i :: 0 <= i < |cs[1..]| ==> cs[1..][i] == cs[i + 1];
      hide Mirrors, Proper, MemoryReply, RedisReply, MemoryAfter, RedisAfter;
      assert Timely(cs[1..], cs[0].now);
      RunMirrors(MemoryAfter(m, cs[0]), RedisAfter(ks, cs[0]), cs[1..], cs[0].now);
    }
  }

  /** The lazily deleting, expiring store answers every call of every run as the plain one does, from empty
      stores on and with a clock that does not run backwards. */
  lemma {:induction false} StoresAnswerAlike(cs: seq<Call>)
    requires Timely(cs, 0.0) && forall i :: 0 <= i < |cs| ==> Proper(cs[i])
    ensures RedisReplies(map[], cs) == MemoryReplies(EMPTY, cs)
  {
    hide KeyString, DayString;
    assert Mirrors(EMPTY, map[], 0.0);
    RunMirrors(EMPTY, map[], cs, 0.0);
  }

  // ---------- What the answers are, told from the calls alone ----------

  function LastOverride(cs: seq<Call>): Option<(string, real)> {
    if cs == [] then None
    else
      match cs[|cs| - 1].op
      case SetOverride(p, u) => Some((p, u))
      case ClearOverride => None
      case _ => LastOverride(cs[..|cs| - 1])
  }

  function LastBlock(cs: seq<Call>, client: string): Option<real> {
    if cs == [] then None
    else
      match cs[|cs| - 1].op
      case BlockSource(c, u) => if c == client then Some(u) else LastBlock(cs[..|cs| - 1], client)
      case _ => LastBlock(cs[..|cs| - 1], client)
  }

  /** Everything counted for a provider on a day. */
  function Counted(cs: seq<Call>, provider: string, day: int): int {
    if cs == [] then 0
    else
      Counted(cs[..|cs| - 1], provider, day) +
        match cs[|cs| - 1].op
        case IncrTokens(p, d, n) => (if p == provider && d == day then n else 0)
        case _ => 0
  }

  function MemoryRun(m: Memory, cs: seq<Call>): Memory {
    if cs == [] then m else MemoryAfter(MemoryRun(m, cs[..|cs| - 1]), cs[|cs| - 1])
  }

  lemma {:induction false} MemoryRemembers(cs: seq<Call>, client: string, provider: string, day: int)
    ensures var m := MemoryRun(EMPTY, cs);
      && m.override == LastOverride(cs)
      && (if client in m.blocked then Some(m.blocked[client]) else None) == LastBlock(cs, client)
      && Tokens(m, provider, DayString(day)) == Counted(cs, provider, day)
  {
    if cs != [] {
      var n := |cs| - 1;
      MemoryRemembers(cs[..n], client, provider, day);
      if cs[n].op.IncrTokens? { DayStringInjective(cs[n].op.day, day); }
      hide DayString;
    }
  }

  lemma {:induction false} MemoryRunFirst(m: Memory, cs: seq<Call>)
    requires cs != []
    ensures MemoryRun(m, cs) == MemoryRun(MemoryAfter(m, cs[0]), cs[1..])
  {
    hide MemoryAfter;
    if |cs| > 1 {
      MemoryRunFirst(m, cs[..|cs| - 1]);
      assert cs[1..][..|cs| - 2] == cs[..|cs| - 1][1..];
    }
  }

  lemma {:induction false} ReplyAt(m: Memory, cs: seq<Call>, i: nat)
    requires i < |cs|
    ensures |MemoryReplies(m, cs)| == |cs| && MemoryReplies(m, cs)[i] == MemoryReply(MemoryRun(m, cs[..i]), cs[i])
    decreases |cs|
  {
    hide MemoryAfter, MemoryReply;
    var rest := MemoryAfter(m, cs[0]);
    if |cs| > 1 { ReplyAt(rest, cs[1..], if i > 0 then i - 1 else 0); }
    if i > 0 {
      MemoryRunFirst(m, cs[..i]);
      assert cs[1..][..i - 1] == cs[..i][1..];
    }
  }

  /** Each answer of a run, told from the calls before it: the last override that was set and not cleared, whether
      the client's last block has still to end, and the sum of what was counted for the provider on the day. */
  lemma {:induction false} AnswersTellCalls(cs: seq<Call>, i: nat)
    requires i < |cs|
    ensures var before, now := cs[..i], cs[i].now;
      && |MemoryReplies(EMPTY, cs)| == |cs|
      && MemoryReplies(EMPTY, cs)[i] ==
        match cs[i].op
        case GetOverride => Override(LastOverride(before))
        case IsBlocked(client) =>
          Flag(match LastBlock(before, client) case Some(end) => end > now case None => 0.0 > now)
        case IncrTokens(p, d, n) => Count(Counted(before, p, d) + n)
        case GetTokens(p, d) => Count(Counted(before, p, d))
        case _ => Nothing
  {
    var op := cs[i].op;
    var client := if op.IsBlocked? then op.who else "";
    var provider := if op.IncrTokens? then op.payer else if op.GetTokens? then op.user else "";
    var day := if op.IncrTokens? then op.day else if op.GetTokens? then op.on else 0;
    ReplyAt(EMPTY, cs, i);
    MemoryRemembers(cs[..i], client, provider, day);
    hide DayString, MemoryRun, LastOverride, LastBlock, Counted, MemoryReplies, Tokens;
  }

  // ---------- Where the conditions bite ----------

  /** An override is read back as written exactly when its provider has a name. */
  lemma {:induction false} OverrideReadIff(m: Memory, ks: Keyspace, p: string, until: real, t: real, t': real)
    ensures var c, q := Call(t, SetOverride(p, until)), Call(t', GetOverride);
      RedisReply(RedisAfter(ks, c), q) == MemoryReply(MemoryAfter(m, c), q) <==> p != ""
  {
    KeyStringsDistinct(OverrideKey, UntilKey);
    hide KeyString;
  }

  /** After a query at `t`, one at `t'` agrees exactly when the clock has not gone back across the block's end. */
  lemma {:induction false} BlockReadIff(m: Memory, ks: Keyspace, client: string, until: real, t: real, t': real)
    ensures var c, q, q' := Call(t, BlockSource(client, until)), Call(t, IsBlocked(client)),
      Call(t', IsBlocked(client));
      RedisReply(RedisAfter(RedisAfter(ks, c), q), q') == MemoryReply(MemoryAfter(m, c), q') <==> !(t' < until <= t)
  {
    hide KeyString;
  }

  /** A counter started at `t` is read back at `t'` exactly when less than two days have passed, or it is zero. */
  lemma {:induction false} CounterReadIff(p: string, d: int, n: int, t: real, t': real)
    ensures var c, q := Call(t, IncrTokens(p, d, n)), Call(t', GetTokens(p, d));
      RedisReply(RedisAfter(map[], c), q) == MemoryReply(MemoryAfter(EMPTY, c), q) <==> t' < t + 172800.0 || n == 0
  {
    hide KeyString, DayString;
  }
}
