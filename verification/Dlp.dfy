/** Reversible masking of personal data: tokens, the per-request vault, `sanitize` and `deanonymize`. */
module Dlp {
  import opened Substitution

  // ---------- Tokens ----------

  /** The detector types, in profile order. */
  const TYPES: seq<string> := ["EMAIL", "PHONE", "PASSPORT", "SNILS", "INN", "CARD", "PERSON",
                               "ONLINE_ACCOUNT", "PROFILE_URL", "SOCIAL_HANDLE", "USERNAME"]

  /** How many distinct 32-digit hexadecimal suffixes there are. */
  const SUFFIXES := 0x1_0000_0000_0000_0000_0000_0000_0000_0000

  predicate IsHex(s: string) {
    |s| == 32 && forall c :: c in s ==> '0' <= c <= '9' || 'a' <= c <= 'f'
  }

  predicate TokenChar(c: char) {
    'a' <= c <= 'z' || 'A' <= c <= 'Z' || '0' <= c <= '9' || c == '_'
  }

  function MakeToken(typ: string, hex: string): string {
    "[" + typ + "_" + hex + "]"
  }

  predicate IsTokenOf(t: string, order: nat) {
    order < |TYPES| &&
    var n := |TYPES[order]|;
    |t| == n + 35 && IsHex(t[n + 2..n + 34]) && t == MakeToken(TYPES[order], t[n + 2..n + 34])
  }

  predicate IsToken(t: string) {
    exists order :: 0 <= order < |TYPES| && IsTokenOf(t, order)
  }

  lemma {:induction false} TypeShape(order: nat)
    requires order < |TYPES|
    ensures 3 <= |TYPES[order]| <= 14
    ensures forall c :: c in TYPES[order] ==> 'A' <= c <= 'Z' || c == '_'
  {
    var t := TYPES[order];
    assert t == "EMAIL" || t == "PHONE" || t == "PASSPORT" || t == "SNILS" || t == "INN" || t == "CARD"
        || t == "PERSON" || t == "ONLINE_ACCOUNT" || t == "PROFILE_URL" || t == "SOCIAL_HANDLE" || t == "USERNAME";
  }

  /** A token is one bracketed group of 38 to 49 characters; the streaming decoder waits for up to 65. */
  lemma {:induction false} TokenShape(t: string)
    requires IsToken(t)
    ensures Bracketed(t) && 38 <= |t| <= 49
    ensures forall i :: 0 < i < |t| - 1 ==> TokenChar(t[i])
  {
    var order :| 0 <= order < |TYPES| && IsTokenOf(t, order);
    TypeShape(order);
    var typ := TYPES[order];
    var n := |typ|;
    var hex := t[n + 2..n + 34];
    forall i | 0 < i < |t| - 1 ensures TokenChar(t[i]) {
      if i <= n { assert t[i] == typ[i - 1] && typ[i - 1] in typ; }
      else if i > n + 1 { assert t[i] == hex[i - n - 2] && hex[i - n - 2] in hex; }
    }
  }

  // ---------- Mask labels ----------

  /** Rust's `rfind` of one character; -1 when absent. */
  function LastIndexOf(s: string, c: char): (i: int)
    ensures -1 <= i < |s|
    ensures i >= 0 ==> s[i] == c
    ensures forall j :: i < j < |s| ==> s[j] != c
  {
    if s == [] then -1
    else if s[|s| - 1] == c then |s| - 1
    else LastIndexOf(s[..|s| - 1], c)
  }

  /** The generic label of a token: its type in brackets, with the random suffix dropped. */
  function Label(token: string): string {
    if |token| >= 1 && token[0] == '[' then
      var t := token[1..];
      if |t| >= 1 && t[|t| - 1] == ']' then
        var inner := t[..|t| - 1];
        var i := LastIndexOf(inner, '_');
        if i >= 0 then "[" + inner[..i] + "]" else "[REDACTED]"
      else "[REDACTED]"
    else "[REDACTED]"
  }

  /** A token's label is its detector type: a bracketed group too short to be a token. */
  lemma {:induction false} LabelOfToken(t: string, order: nat)
    requires IsTokenOf(t, order)
    ensures Label(t) == "[" + TYPES[order] + "]"
    ensures Bracketed(Label(t)) && !IsToken(Label(t))
  {
    var typ := TYPES[order];
    var hex := t[|typ| + 2..|typ| + 34];
    assert t[1..][..|t| - 2] == typ + "_" + hex;
    LastUnderscore(typ, hex);
    TypeLabel(order);
  }

  lemma {:induction false} LastUnderscore(typ: string, hex: string)
    requires IsHex(hex)
    ensures var inner := typ + "_" + hex;
      LastIndexOf(inner, '_') == |typ| && inner[..|typ|] == typ
  {
    var inner := typ + "_" + hex;
    assert inner[|typ|] == '_';
    forall j | |typ| < j < |inner| ensures inner[j] != '_' {
      assert inner[j] == hex[j - |typ| - 1] && hex[j - |typ| - 1] in hex;
    }
  }

  lemma {:induction false} TypeLabel(order: nat)
    requires order < |TYPES|
    ensures var mark := "[" + TYPES[order] + "]"; Bracketed(mark) && !IsToken(mark)
  {
    TypeShape(order);
    var typ := TYPES[order];
    var mark := "[" + typ + "]";
    assert forall i :: 0 < i < |mark| - 1 ==> mark[i] == typ[i - 1] && typ[i - 1] in typ;
    if IsToken(mark) { TokenShape(mark); }
  }

  // ---------- Vault and replacement ----------

  /** Every vault that `Sanitize` builds: well-formed tokens, non-empty bracket-free values, and one
      token per value. */
  ghost predicate VaultOk(vault: map<string, string>) {
    && (forall t :: t in vault ==> IsToken(t) && vault[t] != [] && BracketFree(vault[t]))
    && (forall t, u :: t in vault && u in vault && vault[t] == vault[u] ==> t == u)
  }

  /** What `Deanonymize` puts in place of each vault token. */
  function Replacement(vault: map<string, string>, scope: map<string, nat>, policy: string): map<string, string> {
    map t | t in vault :: if policy == "restore" && t in scope then vault[t] else Label(t)
  }

  lemma {:induction false} ReplacementTokens(vault: map<string, string>, scope: map<string, nat>, policy: string)
    requires VaultOk(vault)
    ensures Tokens(Replacement(vault, scope, policy))
    ensures forall t :: t in vault ==> 38 <= |t| <= 49 && (forall i :: 0 < i < |t| - 1 ==> TokenChar(t[i]))
    ensures forall t :: t in vault && !(policy == "restore" && t in scope) ==>
      var mark := Replacement(vault, scope, policy)[t]; Bracketed(mark) && !IsToken(mark)
  {
    forall t | t in vault
      ensures Bracketed(t) && 38 <= |t| <= 49 && (forall i :: 0 < i < |t| - 1 ==> TokenChar(t[i]))
      ensures Bracketed(Label(t)) && !IsToken(Label(t))
    {
      TokenShape(t);
      var order :| 0 <= order < |TYPES| && IsTokenOf(t, order);
      LabelOfToken(t, order);
    }
  }

  lemma {:induction false} ReplacementKeys(vault: map<string, string>, scope: map<string, nat>, policy: string)
    requires VaultOk(vault)
    ensures Tokens(Replacement(vault, scope, policy)) && Tokens(vault)
    ensures Replacement(vault, scope, policy).Keys == vault.Keys && [] !in vault
  {
    hide IsTokenOf, IsToken;
    ReplacementTokens(vault, scope, policy);
  }

  /** What a token of the answer turns into: its value under `restore` if it was inserted for this request, else its
      label. */
  lemma {:induction false} TokenAlone(vault: map<string, string>, scope: map<string, nat>, policy: string, t: string)
    requires VaultOk(vault) && t in vault
    ensures var r := Replacement(vault, scope, policy);
      Tokens(r) && Simultaneous(t, r) == if policy == "restore" && t in scope then vault[t] else Label(t)
  {
    ReplacementTokens(vault, scope, policy);
    var r := Replacement(vault, scope, policy);
    SimultaneousAt(t, t, r);
    assert t[|t|..] == [] && r[t] + [] == r[t];
  }

  /** No stored value occurs inside a different token. */
  ghost predicate ValuesApart(vault: map<string, string>) {
    forall t, p :: t in vault && p in vault && t != p ==> !Contains(p, vault[t])
  }

  /** Under `mask` (any policy but `restore`) the replacements never interfere. */
  lemma {:induction false} MaskIsIndependent(vault: map<string, string>, scope: map<string, nat>, policy: string)
    requires VaultOk(vault) && policy != "restore"
    ensures Independent(Replacement(vault, scope, policy))
  {
    ReplacementTokens(vault, scope, policy);
  }

  /** Under `restore` they do not interfere when the values stay apart from the tokens. */
  lemma {:induction false} RestoreIsIndependent(vault: map<string, string>, scope: map<string, nat>, policy: string)
    requires VaultOk(vault) && ValuesApart(vault)
    ensures Independent(Replacement(vault, scope, policy))
  {
    ReplacementTokens(vault, scope, policy);
  }

  /** `deanonymize`: one `replace` per vault entry, in whatever order the map yields them. */
  method Deanonymize(text: string, vault: map<string, string>, scope: map<string, nat>, policy: string)
      returns (out: string, ghost order: seq<string>)
    requires [] !in vault
    ensures Enumerates(order, Replacement(vault, scope, policy))
    ensures out == Sequential(text, order, Replacement(vault, scope, policy))
    ensures VaultOk(vault) ==> Tokens(Replacement(vault, scope, policy))
    ensures VaultOk(vault) && (policy == "restore" ==> ValuesApart(vault)) ==>
      out == Simultaneous(text, Replacement(vault, scope, policy))
  {
    ghost var r := Replacement(vault, scope, policy);
    out, order := text, [];
    var remaining := vault.Keys;
    while remaining != {}
      invariant remaining <= vault.Keys
      invariant forall t :: t in order <==> t in r && t !in remaining
      invariant forall i, j :: 0 <= i < j < |order| ==> order[i] != order[j]
      invariant out == Sequential(text, order, r)
      decreases remaining
    {
      var token :| token in remaining;
      OnePass(text, order, token, r);
      if policy == "restore" && token in scope {
        out := ReplaceAll(out, token, vault[token]);
      } else {
        out := ReplaceAll(out, token, Label(token));
      }
      order := order + [token];
      remaining := remaining - {token};
    }
    if VaultOk(vault) { OneText(text, order, vault, scope, policy); }
  }

  lemma {:induction false} OnePass(text: string, order: seq<string>, token: string, r: map<string, string>)
    requires (forall t :: t in order ==> t in r && t != []) && token in r && token != []
    ensures forall t :: t in order + [token] <==> t in order || t == token
    ensures Sequential(text, order + [token], r) == ReplaceAll(Sequential(text, order, r), token, r[token])
  {
    assert (order + [token])[..|order|] == order;
  }

  /** The text that `Deanonymize` returns does not depend on the iteration order, and is that of one
      left-to-right pass: always under `mask`, and under `restore` when values stay apart from tokens. */
  lemma {:induction false} OneText(text: string, order: seq<string>, vault: map<string, string>,
                                   scope: map<string, nat>, policy: string)
    requires VaultOk(vault) && Enumerates(order, Replacement(vault, scope, policy))
    ensures Tokens(Replacement(vault, scope, policy))
    ensures policy != "restore" || ValuesApart(vault) ==>
      Sequential(text, order, Replacement(vault, scope, policy)) ==
        Simultaneous(text, Replacement(vault, scope, policy))
  {
    ReplacementTokens(vault, scope, policy);
    if policy != "restore" || ValuesApart(vault) {
      if policy != "restore" {
        MaskIsIndependent(vault, scope, policy);
      } else {
        RestoreIsIndependent(vault, scope, policy);
      }
      SequentialIsSimultaneous(text, order, Replacement(vault, scope, policy));
    }
  }

  /** Exactly when `restore` is independent of the iteration order, on every text: when no value occurs
      inside another token. */
  lemma {:induction false} OrderIndependentIff(vault: map<string, string>, scope: map<string, nat>)
    requires VaultOk(vault) && vault.Keys <= scope.Keys
    ensures Tokens(Replacement(vault, scope, "restore"))
    ensures ValuesApart(vault) <==>
      forall text, o, o' :: Enumerates(o, vault) && Enumerates(o', vault) ==>
        Sequential(text, o, Replacement(vault, scope, "restore")) ==
          Sequential(text, o', Replacement(vault, scope, "restore"))
  {
    var r := Replacement(vault, scope, "restore");
    ReplacementTokens(vault, scope, "restore");
    assert r == vault;
    if ValuesApart(vault) {
      RestoreIsIndependent(vault, scope, "restore");
      forall text, o, o' | Enumerates(o, vault) && Enumerates(o', vault)
        ensures Sequential(text, o, r) == Sequential(text, o', r)
      {
        SequentialIsSimultaneous(text, o, r);
        SequentialIsSimultaneous(text, o', r);
      }
    } else {
      var t, p :| t in vault && p in vault && t != p && Contains(p, vault[t]);
      var text, o, o' := OrderMatters(vault, t, p);
    }
  }

  lemma {:induction false} OrderMatters(vault: map<string, string>, t: string, p: string)
      returns (text: string, o: seq<string>, o': seq<string>)
    requires Tokens(vault) && VaultOk(vault) && t in vault && p in vault && t != p && Contains(p, vault[t])
    ensures Enumerates(o, vault) && Enumerates(o', vault) && Sequential(text, o, vault) != Sequential(text, o', vault)
  {
    assert vault[p] != p by { assert p[0] == '['; }
    text, o, o' := InterferenceShows(vault, t, p);
  }
}
