/** Restoring a streamed answer chunk by chunk: the held-back partial token, and streaming equals batch. */
module StreamRestore {
  import opened Substitution
  import opened Dlp

  /** How much a decoder may hold back beyond an opening bracket. */
  const HOLD := 64

  predicate AllTokenChars(s: string) {
    forall i :: 0 <= i < |s| ==> TokenChar(s[i])
  }

  /** Where `Feed` cuts its buffer: at the last `[` if only token characters follow it and not too many,
      else at the end. */
  function CutAt(buf: string): (i: nat)
    ensures i <= |buf|
  {
    var i := LastIndexOf(buf, '[');
    if i >= 0 && ']' !in buf[i..] && AllTokenChars(buf[i + 1..]) && i + 1 + HOLD >= |buf| then i else |buf|
  }

  /** What `Feed` restores at once. */
  function HeadOf(buf: string): string {
    buf[..CutAt(buf)]
  }

  /** What `Feed` holds back. */
  function TailOf(buf: string): string {
    buf[CutAt(buf)..]
  }

  /** An opening bracket and at most 64 letters, digits or underscores. */
  predicate Unfinished(s: string) {
    && 0 < |s| <= 65 && s[0] == '['
    && forall i :: 0 < i < |s| ==> 'a' <= s[i] <= 'z' || 'A' <= s[i] <= 'Z' || '0' <= s[i] <= '9' || s[i] == '_'
  }

  lemma {:induction false} UnfinishedAt(buf: string, k: nat)
    requires k < |buf|
    ensures Unfinished(buf[k..]) <==> buf[k] == '[' && |buf| - k <= 65 && AllTokenChars(buf[k + 1..])
  {
    var s, t := buf[k..], buf[k + 1..];
    assert s[0] == buf[k] && s[1..] == t;
    assert forall i :: 0 < i < |s| ==> s[i] == t[i - 1];
    assert forall i :: 0 <= i < |t| ==> t[i] == s[1..][i];
  }

  /** Exactly an unfinished token at the end is held back. */
  lemma {:induction false} HeldBackIff(buf: string)
    ensures HeadOf(buf) + TailOf(buf) == buf
    ensures TailOf(buf) == [] || Unfinished(TailOf(buf))
    ensures forall k :: 0 <= k <= |buf| && Unfinished(buf[k..]) ==> TailOf(buf) == buf[k..]
  {
    var i := LastIndexOf(buf, '[');
    if TailOf(buf) != [] { UnfinishedAt(buf, i); }
    forall k | 0 <= k <= |buf| && Unfinished(buf[k..]) ensures TailOf(buf) == buf[k..] {
      UnfinishedAt(buf, k);
      LastOpening(buf, k, i);
    }
    hide Unfinished, AllTokenChars;
  }

  lemma {:induction false} LastOpening(buf: string, k: nat, i: int)
    requires k < |buf| && buf[k] == '[' && AllTokenChars(buf[k + 1..])
    requires k <= i < |buf| && buf[i] == '['
    ensures i == k && ']' !in buf[k..]
  {
    forall j | k < j < |buf| ensures TokenChar(buf[j]) { assert buf[j] == buf[k + 1..][j - k - 1]; }
    forall j | 0 <= j < |buf[k..]| ensures buf[k..][j] != ']' { assert buf[k..][j] == buf[k + j]; }
  }

  /** The tokens that a decoder can meet: short bracketed groups of token characters. */
  ghost predicate Decodable(r: map<string, string>) {
    forall t :: t in r ==> Bracketed(t) && |t| <= HOLD + 1 && forall i :: 0 < i < |t| - 1 ==> TokenChar(t[i])
  }

  lemma {:induction false} SanitizedIsDecodable(vault: map<string, string>, scope: map<string, nat>, policy: string)
    requires VaultOk(vault)
    ensures Decodable(Replacement(vault, scope, policy)) && Tokens(Replacement(vault, scope, policy))
  {
    ReplacementTokens(vault, scope, policy);
  }

  /** The cut never splits a token, whatever arrives later. */
  lemma {:induction false} CutIsClean(buf: string, later: string, r: map<string, string>)
    requires Decodable(r)
    ensures CleanCut(buf[..CutAt(buf)], buf[CutAt(buf)..] + later, r)
  {
    var k := CutAt(buf);
    var head, rest := buf[..k], buf[k..] + later;
    forall i, t | 0 <= i < |head| && t in r && t <= head[i..] + rest ensures |t| <= |head| - i {
      StraddleCut(buf, later, i, t);
    }
  }

  lemma {:induction false} StraddleCut(buf: string, later: string, i: nat, t: string)
    requires Bracketed(t) && |t| <= HOLD + 1 && forall j :: 0 < j < |t| - 1 ==> TokenChar(t[j])
    requires i < CutAt(buf) && t <= buf[..CutAt(buf)][i..] + (buf[CutAt(buf)..] + later)
    ensures |t| <= CutAt(buf) - i
  {
    var k := CutAt(buf);
    var w := buf[..k][i..] + (buf[k..] + later);
    assert forall j :: 0 <= j < |buf| - i ==> w[j] == buf[i + j];
    assert forall j :: 0 <= j < |t| ==> t[j] == w[j];
    if k < |buf| {
      assert w[k - i] == buf[i + (k - i)] == '[';
      OnlyBracketFirst(t, k - i);
    } else {
      LastBracketIs(buf, i, t);
    }
  }

  lemma {:induction false} OnlyBracketFirst(t: string, k: nat)
    requires Bracketed(t) && 0 < k
    ensures k < |t| ==> t[k] != '['
  {
  }

  /** If the whole rest of the buffer is the beginning of a token, the decoder holds it back. */
  lemma {:induction false} LastBracketIs(buf: string, i: nat, t: string)
    requires Bracketed(t) && |t| <= HOLD + 1 && forall j :: 0 < j < |t| - 1 ==> TokenChar(t[j])
    requires i < |buf| && forall j :: 0 <= j < |buf| - i && j < |t| ==> buf[i + j] == t[j]
    ensures |t| > |buf| - i ==> CutAt(buf) == i
  {
    if |t| > |buf| - i {
      assert buf[i + 0] == '[';
      forall j | i < j < |buf| ensures buf[j] != '[' && buf[j] != ']' && TokenChar(buf[j]) {
        assert buf[i + (j - i)] == t[j - i];
      }
      assert LastIndexOf(buf, '[') == i;
      var rest, inner := buf[i..], buf[i + 1..];
      assert forall j :: 0 <= j < |rest| ==> rest[j] == buf[i + j];
      assert forall j :: 0 <= j < |inner| ==> inner[j] == buf[i + 1 + j];
    }
  }

  // ---------- Whole streams ----------

  function Concat(chunks: seq<string>): string {
    if chunks == [] then [] else chunks[0] + Concat(chunks[1..])
  }

  ghost predicate KnownTokens(order: seq<string>, r: map<string, string>) {
    forall t :: t in order ==> t in r && t != []
  }

  /** Everything a session emits: each chunk is fed with what was held back before it, and the last
      carry is flushed. The `k`-th restore may meet the vault entries in its own order `orders[k]`. */
  ghost function Emitted(carry: string, chunks: seq<string>, orders: seq<seq<string>>, r: map<string, string>): string
    requires |orders| == |chunks| + 1
    requires forall k :: 0 <= k < |orders| ==> KnownTokens(orders[k], r)
    decreases |chunks|
  {
    assert KnownTokens(orders[0], r);
    if chunks == [] then Sequential(carry, orders[0], r)
    else
      var buf := carry + chunks[0];
      var i := CutAt(buf);
      Sequential(buf[..i], orders[0], r) + Emitted(buf[i..], chunks[1..], orders[1..], r)
  }

  ghost predicate AllEnumerate(orders: seq<seq<string>>, r: map<string, string>) {
    forall k :: 0 <= k < |orders| ==> Enumerates(orders[k], r) && KnownTokens(orders[k], r)
  }

  /** Feeding one chunk emits the pass over the cut-off head and leaves the pass over the rest. */
  lemma {:induction false} FeedOne(carry: string, chunk: string, later: string, order: seq<string>,
                                   r: map<string, string>)
    requires Tokens(r) && Decodable(r) && Independent(r) && Enumerates(order, r)
    ensures var buf := carry + chunk; var i := CutAt(buf);
      Sequential(buf[..i], order, r) + Simultaneous(buf[i..] + later, r) == Simultaneous(carry + (chunk + later), r)
  {
    var buf := carry + chunk;
    var i := CutAt(buf);
    SequentialIsSimultaneous(buf[..i], order, r);
    CutIsClean(buf, later, r);
    SimultaneousSplits(buf[..i], buf[i..] + later, r);
    Rejoin(carry, chunk, later, i);
  }

  lemma {:induction false} Rejoin(carry: string, chunk: string, later: string, i: nat)
    requires i <= |carry + chunk|
    ensures carry + (chunk + later) == (carry + chunk)[..i] + ((carry + chunk)[i..] + later)
  {
  }

  /** Streaming equals batch: however the text is cut into chunks, and in whatever order each restore
      walks the vault, the emitted pieces concatenate to one left-to-right pass over the whole text. */
  lemma {:induction false} StreamEqualsPass(carry: string, chunks: seq<string>, orders: seq<seq<string>>,
                                            r: map<string, string>)
    requires |orders| == |chunks| + 1 && AllEnumerate(orders, r)
    requires Tokens(r) && Decodable(r) && Independent(r)
    ensures Emitted(carry, chunks, orders, r) == Simultaneous(carry + Concat(chunks), r)
    decreases |chunks|
  {
    assert Enumerates(orders[0], r) && KnownTokens(orders[0], r);
    if chunks == [] {
      assert carry + [] == carry;
      SequentialIsSimultaneous(carry, orders[0], r);
    } else {
      var buf := carry + chunks[0];
      assert AllEnumerate(orders[1..], r);
      StreamEqualsPass(buf[CutAt(buf)..], chunks[1..], orders[1..], r);
      FeedOne(carry, chunks[0], Concat(chunks[1..]), orders[0], r);
    }
  }

  /** For every vault that masking builds: the stream gives exactly what `Deanonymize` gives on the whole
      text. Under `restore` the values must stay apart from the tokens. */
  lemma {:induction false} StreamEqualsBatch(vault: map<string, string>, scope: map<string, nat>, policy: string,
                                             chunks: seq<string>, orders: seq<seq<string>>, order: seq<string>)
    requires VaultOk(vault) && (policy == "restore" ==> ValuesApart(vault))
    requires |orders| == |chunks| + 1 && AllEnumerate(orders, Replacement(vault, scope, policy))
    requires Enumerates(order, Replacement(vault, scope, policy))
    ensures Tokens(Replacement(vault, scope, policy))
    ensures Emitted([], chunks, orders, Replacement(vault, scope, policy))
         == Sequential(Concat(chunks), order, Replacement(vault, scope, policy))
  {
    var r := Replacement(vault, scope, policy);
    SanitizedIsDecodable(vault, scope, policy);
    if policy == "restore" {
      RestoreIsIndependent(vault, scope, policy);
    } else {
      MaskIsIndependent(vault, scope, policy);
    }
    OneText(Concat(chunks), order, vault, scope, policy);
    StreamEqualsPass([], chunks, orders, r);
    assert [] + Concat(chunks) == Concat(chunks);
  }

  // ---------- Exactly when streaming equals batch under restore ----------

  /** The same iteration order for every call of a session. */
  function SameOrder(order: seq<string>, n: nat): (orders: seq<seq<string>>)
    ensures |orders| == n && forall k :: 0 <= k < n ==> orders[k] == order
  {
    seq(n, _ => order)
  }

  lemma {:induction false} OneOrderMore(order: seq<string>, n: nat)
    ensures SameOrder(order, n + 1) == [order] + SameOrder(order, n)
  {
  }

  /** Around a token, the order [others..., t, p] amounts to a pass for `p` over the restored text. */
  lemma {:induction false} AroundInOrder(a: string, t: string, b: string, others: seq<string>, p: string,
                                         r: map<string, string>)
    requires Tokens(r) && t in r && p in r && (forall q :: q in others ==> q in r && q != t)
    requires a != [] && a[0] == '[' && BracketFree(a[1..]) && NoOpen(b)
    ensures Sequential(a + t + b, others + [t, p], r) == ReplaceAll(a + r[t] + b, p, r[p])
  {
    OthersLeaveAlone(a, t, b, others, r);
    TwoMore(a + t + b, others, t, p, r);
    AroundToken(a, t, b, t, r[t]);
  }

  lemma {:induction false} AroundNoEnd(a: string, t: string, others: seq<string>, p: string, r: map<string, string>)
    requires Tokens(r) && t in r && p in r && (forall q :: q in others ==> q in r && q != t)
    requires a != [] && a[0] == '[' && BracketFree(a[1..]) && BracketFree(r[t])
    ensures Sequential(a + t, others + [t, p], r) == a + r[t]
  {
    AroundInOrder(a, t, [], others, p, r);
    assert a + t + [] == a + t;
    var s := a + r[t];
    assert a + r[t] + [] == s;
    forall i | 0 <= i < |s| ensures s[i] != ']' {
      if 0 < i < |a| { assert s[i] == a[1..][i - 1]; }
      else if i >= |a| { assert s[i] == r[t][i - |a|]; }
    }
    PassKeeps(s, p, r[p]);
  }

  /** A value inside another token, cut out of the answer by chunk boundaries, streams differently. */
  lemma {:induction false} StreamDiffers(r: map<string, string>, t: string, p: string) returns (chunks: seq<string>,
                                         order: seq<string>)
    requires Tokens(r) && Decodable(r)
    requires t in r && p in r && t != p && Contains(p, r[t]) && r[t] != [] && BracketFree(r[t]) && r[p] != p
    ensures Enumerates(order, r) && KnownTokens(order, r)
    ensures Emitted([], chunks, SameOrder(order, |chunks| + 1), r) != Sequential(Concat(chunks), order, r)
  {
    hide Emitted, Sequential, ReplaceAll, Decodable, Contains, Concat, TokenTail;
    var a, b := Witness(p, r[t]);
    assert b != [] && NoOpen(b) by { TailShape(b); }
    var others := EnumerationExists(r.Keys - {t, p});
    PairOrder(others, t, p, r);
    order := others + [t, p];
    chunks := [a] + ([t] + [b]);
    PrefixOfWhole(a, r[t], b, p);
    ThreeFeeds(a, t, b, chunks, order, r, p);
    AroundNoEnd(a, t, others, p, r);
    AroundInOrder(a, t, b, others, p, r);
    WholeToken(p, r[p]);
    ConcatThree(a, t, b);
  }

  lemma {:induction false} TailShape(b: string)
    requires TokenTail(b)
    ensures b != [] && NoOpen(b)
  {
  }

  lemma {:induction false} PrefixOfWhole(a: string, v: string, b: string, p: string)
    requires a + v + b == p && b != []
    ensures a <= p && |a| < |p|
  {
  }

  lemma {:induction false} ConcatThree(a: string, t: string, b: string)
    ensures Concat([a] + ([t] + [b])) == a + t + b
  {
    var c, d := [a] + ([t] + [b]), [t] + [b];
    assert c[1..] == d && d[1..] == [b] && [b][1..] == [];
    assert Concat([b]) == b && Concat(d) == t + b;
    Associative(a, t, b);
  }

  /** Fed the beginning of a token, a whole token and a token's end, the decoder holds back the first,
      then restores the two together, then passes the last through. */
  lemma {:induction false} ThreeFeeds(a: string, t: string, b: string, chunks: seq<string>, order: seq<string>,
                                      r: map<string, string>, p: string)
    requires Tokens(r) && Decodable(r) && KnownTokens(order, r) && p in r && t in r
    requires a != [] && a[0] == '[' && TokenTail(b) && a <= p && |a| < |p|
    requires chunks == [a] + ([t] + [b])
    ensures Emitted([], chunks, SameOrder(order, |chunks| + 1), r) == Sequential(a + t, order, r) + b
  {
    FirstHeldBack(a, p, r);
    CutAfterToken(a, t);
    SequentialKeeps([], order, r);
    TailShape(b);
    var o2 := SameOrder(order, 2);
    var o3 := SameOrder(order, 3);
    OneOrderMore(order, 2);
    OneOrderMore(order, 3);
    hide Emitted, Sequential, Decodable, CutAt, KnownTokens;
    LastFeed(b, order, r);
    FeedAll(a, t, [b], o2, order, r);
    FeedNone(a, [t] + [b], o3, order, r);
  }

  lemma {:induction false} FirstHeldBack(a: string, p: string, r: map<string, string>)
    requires Decodable(r) && p in r && a != [] && a <= p && |a| < |p|
    ensures CutAt(a) == 0
  {
    LastBracketIs(a, 0, p);
  }

  /** A chunk that is held back whole. */
  lemma {:induction false} FeedNone(a: string, rest: seq<string>, orders: seq<seq<string>>, order: seq<string>,
                                    r: map<string, string>)
    requires Tokens(r) && KnownTokens(order, r) && CutAt(a) == 0
    requires |orders| == |rest| + 1 && forall k :: 0 <= k < |orders| ==> KnownTokens(orders[k], r)
    requires Sequential([], order, r) == []
    ensures Emitted([], [a] + rest, [order] + orders, r) == Emitted(a, rest, orders, r)
  {
    var cs, os := [a] + rest, [order] + orders;
    assert forall k :: 0 <= k < |os| ==> KnownTokens(os[k], r);
    assert cs[1..] == rest && os[1..] == orders;
    assert [] + a == a && a[..0] == [] && a[0..] == a;
  }

  /** A chunk after which nothing is held back. */
  lemma {:induction false} FeedAll(a: string, t: string, rest: seq<string>, orders: seq<seq<string>>,
                                   order: seq<string>, r: map<string, string>)
    requires Tokens(r) && KnownTokens(order, r) && CutAt(a + t) == |a + t|
    requires |orders| == |rest| + 1 && forall k :: 0 <= k < |orders| ==> KnownTokens(orders[k], r)
    ensures Emitted(a, [t] + rest, [order] + orders, r) == Sequential(a + t, order, r) + Emitted([], rest, orders, r)
  {
    var cs, os, buf := [t] + rest, [order] + orders, a + t;
    assert forall k :: 0 <= k < |os| ==> KnownTokens(os[k], r);
    assert cs[1..] == rest && os[1..] == orders;
    assert buf[..|buf|] == buf && buf[|buf|..] == [];
  }

  lemma {:induction false} LastFeed(b: string, order: seq<string>, r: map<string, string>)
    requires Tokens(r) && KnownTokens(order, r) && NoOpen(b)
    ensures Emitted([], [b], SameOrder(order, 2), r) == b
  {
    assert [] + b == b;
    assert CutAt(b) == |b|;
    SequentialKeeps([], order, r);
    SequentialKeeps(b, order, r);
    FeedAll([], b, [], SameOrder(order, 1), order, r);
    assert [b] == [b] + [] && SameOrder(order, 2) == [order] + SameOrder(order, 1);
    assert b + [] == b;
  }

  lemma {:induction false} CutAfterToken(a: string, t: string)
    requires Bracketed(t)
    ensures CutAt(a + t) == |a + t|
  {
    var w := a + t;
    assert w[|a|] == '[' && forall i :: |a| < i < |w| ==> w[i] == t[i - |a|];
    assert LastIndexOf(w, '[') == |a|;
    assert w[|a|..] == t;
  }

  /** Under `restore`, streaming equals batch for every cutting of every answer exactly when no value
      occurs inside another token. */
  lemma {:induction false} StreamEqualsBatchIff(vault: map<string, string>, scope: map<string, nat>)
    requires VaultOk(vault) && vault.Keys <= scope.Keys
    ensures Tokens(vault) && Replacement(vault, scope, "restore") == vault
    ensures ValuesApart(vault) <==>
      forall chunks, order :: Enumerates(order, vault) && KnownTokens(order, vault) ==>
        Emitted([], chunks, SameOrder(order, |chunks| + 1), vault) == Sequential(Concat(chunks), order, vault)
  {
    ReplacementIsVault(vault, scope);
    hide IsToken, IsTokenOf, VaultOk, Replacement;
    if ValuesApart(vault) {
      forall chunks, order | Enumerates(order, vault) && KnownTokens(order, vault)
        ensures Emitted([], chunks, SameOrder(order, |chunks| + 1), vault) == Sequential(Concat(chunks), order, vault)
      {
        StreamEqualsBatch(vault, scope, "restore", chunks, SameOrder(order, |chunks| + 1), order);
      }
    } else {
      var t, p :| t in vault && p in vault && t != p && Contains(p, vault[t]);
      var chunks, order := StreamDiffers(vault, t, p);
    }
  }

  lemma {:induction false} ReplacementIsVault(vault: map<string, string>, scope: map<string, nat>)
    requires VaultOk(vault) && vault.Keys <= scope.Keys
    ensures Replacement(vault, scope, "restore") == vault && Tokens(vault) && Decodable(vault)
    ensures forall t :: t in vault ==> vault[t] != [] && BracketFree(vault[t]) && vault[t] != t
  {
    assert Replacement(vault, scope, "restore") == vault;
    SanitizedIsDecodable(vault, scope, "restore");
    hide IsToken, IsTokenOf;
    forall t | t in vault ensures vault[t] != t { assert Bracketed(t) && t[0] == '['; }
  }

  // ---------- The session object ----------

  /** Splits a buffer into what can be restored now and what must wait. */
  method CutBuffer(buf: string) returns (head: string, carry: string)
    ensures head == HeadOf(buf) && carry == TailOf(buf)
    ensures |carry| <= HOLD + 1 && (carry != [] ==> carry[0] == '[')
    ensures head + carry == buf && (carry == [] || Unfinished(carry))
    ensures forall k :: 0 <= k <= |buf| && Unfinished(buf[k..]) ==> carry == buf[k..]
  {
    HeldBackIff(buf);
    hide Unfinished;
    var i := LastIndexOf(buf, '[');
    if i >= 0 && ']' !in buf[i..] && AllTokenChars(buf[i + 1..]) {
      if i + 1 + HOLD >= |buf| {
        return buf[..i], buf[i..];
      }
    }
    return buf, [];
  }

  class Session {
    const vault: map<string, string>
    const scope: map<string, nat>
    const policy: string
    var carry: string
    ghost var fed: string  // everything received since the last flush
    ghost var emitted: string  // everything returned for it

    ghost function Rep(): map<string, string> {
      Replacement(vault, scope, policy)
    }

    ghost predicate Apart() {
      policy == "restore" ==> ValuesApart(vault)
    }

    /** At most 65 characters are held back, and the stream so far agrees with one pass over it. */
    ghost predicate Valid()
      reads this
    {
      VaultOk(vault) && Tokens(Rep()) && |carry| <= HOLD + 1 && (Apart() ==> Continues(fed, emitted, carry, Rep()))
    }

    constructor (vault: map<string, string>, scope: map<string, nat>, policy: string)
      requires VaultOk(vault)
      ensures Valid() && this.vault == vault && this.scope == scope && this.policy == policy
      ensures carry == fed == emitted == []
    {
      this.vault, this.scope, this.policy := vault, scope, policy;
      carry, fed, emitted := [], [], [];
      new;
      ReplacementKeys(vault, scope, policy);
      StartContinues(Rep());
    }

    method Restore(text: string) returns (out: string)
      requires VaultOk(vault)
      ensures Tokens(Rep())
      ensures exists order :: Enumerates(order, Rep()) && KnownTokens(order, Rep()) &&
                              out == Sequential(text, order, Rep())
      ensures Apart() ==> out == Simultaneous(text, Rep())
    {
      ReplacementKeys(vault, scope, policy);
      ghost var order;
      out, order := Deanonymize(text, vault, scope, policy);
      assert KnownTokens(order, Rep());
    }

    /** Emits the restored text up to a possibly unfinished token, which is held back. */
    method Feed(text: string) returns (out: string)
      requires Valid()
      modifies this
      ensures Valid() && fed == old(fed) + text && emitted == old(emitted) + out
      ensures carry == TailOf(old(carry) + text)
      ensures carry == [] || Unfinished(carry)
      ensures forall k :: 0 <= k <= |old(carry) + text| && Unfinished((old(carry) + text)[k..]) ==>
        carry == (old(carry) + text)[k..]
      ensures exists order :: Enumerates(order, Rep()) && KnownTokens(order, Rep()) &&
                              out == Sequential(HeadOf(old(carry) + text), order, Rep())
      ensures Apart() ==> out == Simultaneous(HeadOf(old(carry) + text), Rep())
    {
      hide VaultOk, Simultaneous, Continues, CutAt, HeadOf, TailOf, Sequential, Replacement, Decodable, Tokens,
           Enumerates, KnownTokens, Unfinished;
      var buf := carry + text;
      var head;
      head, carry := CutBuffer(buf);
      out := Restore(head);
      SanitizedIsDecodable(vault, scope, policy);
      ghost var fed', emitted' := fed + text, emitted + out;
      if Apart() {
        FeedContinues(fed, emitted, old(carry), text, Rep());
        assert Continues(fed', emitted', carry, Rep());
      }
      fed, emitted := fed', emitted';
    }

    /** Emits what is held back; together with everything fed before, exactly one pass over all of it. */
    method Flush() returns (out: string)
      requires Valid()
      modifies this
      ensures Valid() && carry == fed == emitted == []
      ensures Apart() ==> old(emitted) + out == Simultaneous(old(fed), Rep())
    {
      var tail := carry;
      carry := [];
      if tail == [] {
        out := [];
      } else {
        out := Restore(tail);
      }
      if Apart() { FlushCompletes(fed, emitted, tail, Rep()); }
      fed, emitted := [], [];
      StartContinues(Rep());
    }
  }

  /** One pass over everything fed so far, followed by anything, starts with what was emitted and goes
      on from the carry. */
  ghost predicate Continues(fed: string, emitted: string, carry: string, r: map<string, string>)
    requires Tokens(r)
  {
    forall later :: Simultaneous(fed + later, r) == emitted + Simultaneous(carry + later, r)
  }

  lemma {:induction false} FeedContinues(fed: string, emitted: string, carry: string, text: string,
                                         r: map<string, string>)
    requires Tokens(r) && Decodable(r) && Continues(fed, emitted, carry, r)
    ensures Continues(fed + text, emitted + Simultaneous(HeadOf(carry + text), r), TailOf(carry + text), r)
  {
    var buf := carry + text;
    var i := CutAt(buf);
    var head := Simultaneous(buf[..i], r);
    forall later ensures Simultaneous(fed + text + later, r) == emitted + head + Simultaneous(buf[i..] + later, r) {
      Associative(fed, text, later);
      CutIsClean(buf, later, r);
      SimultaneousSplits(buf[..i], buf[i..] + later, r);
      Rejoin(carry, text, later, i);
      Associative(emitted, head, Simultaneous(buf[i..] + later, r));
    }
  }

  lemma {:induction false} StartContinues(r: map<string, string>)
    requires Tokens(r)
    ensures Continues([], [], [], r)
  {
    forall later: string ensures Simultaneous([] + later, r) == [] + Simultaneous([] + later, r) {
      assert [] + Simultaneous([] + later, r) == Simultaneous([] + later, r);
    }
  }

  lemma {:induction false} FlushCompletes(fed: string, emitted: string, carry: string, r: map<string, string>)
    requires Tokens(r) && Continues(fed, emitted, carry, r)
    ensures Simultaneous(fed, r) == emitted + Simultaneous(carry, r)
  {
    assert fed + [] == fed && carry + [] == carry;
  }
}
