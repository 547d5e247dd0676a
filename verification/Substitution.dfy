/** Replacing bracketed tokens in a text: one `str::replace` per token, in some order, against one
    simultaneous left-to-right pass. */
module Substitution {

  /** Rust's `str::replace`: every leftmost, non-overlapping occurrence of `pat`. */
  function ReplaceAll(s: string, pat: string, rep: string): string
    requires pat != []
    decreases |s|
  {
    if s == [] then []
    else if pat <= s then rep + ReplaceAll(s[|pat|..], pat, rep)
    else [s[0]] + ReplaceAll(s[1..], pat, rep)
  }

  predicate NoOpen(s: string) {
    forall i :: 0 <= i < |s| ==> s[i] != '['
  }

  predicate BracketFree(s: string) {
    forall i :: 0 <= i < |s| ==> s[i] != '[' && s[i] != ']'
  }

  /** `[` body `]` with no bracket in the body. */
  predicate Bracketed(t: string) {
    |t| >= 2 && t[0] == '[' && t[|t| - 1] == ']' && forall i :: 0 < i < |t| - 1 ==> t[i] != '[' && t[i] != ']'
  }

  ghost predicate Contains(s: string, sub: string) {
    exists i :: 0 <= i <= |s| && sub <= s[i..]
  }

  ghost predicate Tokens(r: map<string, string>) {
    forall t :: t in r ==> Bracketed(t)
  }

  /** Each token of `order` replaced in turn, by one pass over the whole text each. */
  function Sequential(s: string, order: seq<string>, r: map<string, string>): string
    requires forall t :: t in order ==> t in r && t != []
  {
    if order == [] then s
    else
      var n := |order| - 1;
      assert order[n] in order && forall t :: t in order[..n] ==> t in order;
      ReplaceAll(Sequential(s, order[..n], r), order[n], r[order[n]])
  }

  /** All tokens replaced in a single left-to-right pass; replaced text is not looked at again. */
  ghost function Simultaneous(s: string, r: map<string, string>): string
    requires Tokens(r)
    decreases |s|
  {
    if s == [] then []
    else if exists t :: t in r && t <= s then
      var t :| t in r && t <= s;
      r[t] + Simultaneous(s[|t|..], r)
    else [s[0]] + Simultaneous(s[1..], r)
  }

  /** An enumeration of a map's keys: what iterating over a hash map yields, in some order. */
  ghost predicate Enumerates(order: seq<string>, r: map<string, string>) {
    && (forall t :: t in order <==> t in r)
    && (forall i, j :: 0 <= i < j < |order| ==> order[i] != order[j])
  }

  /** The replacement text `rep` can neither complete nor contain an occurrence of token `p`. */
  ghost predicate Inert(rep: string, p: string) {
    || (BracketFree(rep) && !Contains(p, rep))
    || (Bracketed(rep) && rep != p)
  }

  ghost predicate Independent(r: map<string, string>) {
    forall t, p :: t in r && p in r && t != p ==> Inert(r[t], p)
  }

  // ---------- Bracket structure: tokens neither nest nor overlap ----------

  lemma {:induction false} BracketedPrefixUnique(t: string, p: string, s: string)
    requires Bracketed(t) && Bracketed(p) && t <= s && p <= s
    ensures t == p
  {
    ClosesAt(t, s);
    ClosesAt(p, s);
  }

  /** A bracketed prefix ends at the first `]`. */
  lemma {:induction false} ClosesAt(t: string, s: string)
    requires Bracketed(t) && t <= s
    ensures s[|t| - 1] == ']' && forall i :: 0 <= i < |t| - 1 ==> s[i] != ']'
  {
    assert forall i :: 0 <= i < |t| ==> s[i] == t[i];
  }

  lemma {:induction false} SimultaneousAt(s: string, t: string, r: map<string, string>)
    requires Tokens(r) && t in r && t <= s
    ensures Simultaneous(s, r) == r[t] + Simultaneous(s[|t|..], r)
  {
    var u :| u in r && u <= s && Simultaneous(s, r) == r[u] + Simultaneous(s[|u|..], r);
    BracketedPrefixUnique(t, u, s);
  }

  /** Text that starts with no bracket is copied by a pass. */
  lemma {:induction false} ReplaceAllCopies(a: string, s: string, pat: string, rep: string)
    requires Bracketed(pat) && NoOpen(a)
    ensures ReplaceAll(a + s, pat, rep) == a + ReplaceAll(s, pat, rep)
  {
    if a == [] {
      assert a + s == s;
    } else {
      assert (a + s)[1..] == a[1..] + s;
      assert (a + s)[0] == a[0] != pat[0];
      ReplaceAllCopies(a[1..], s, pat, rep);
    }
  }

  /** A bracketed group other than the pattern is copied by a pass. */
  lemma {:induction false} ReplaceAllSkips(g: string, s: string, pat: string, rep: string)
    requires Bracketed(g) && Bracketed(pat) && g != pat
    ensures ReplaceAll(g + s, pat, rep) == g + ReplaceAll(s, pat, rep)
  {
    if pat <= g + s { BracketedPrefixUnique(g, pat, g + s); }
    assert (g + s)[1..] == g[1..] + s;
    ReplaceAllCopies(g[1..], s, pat, rep);
  }

  lemma {:induction false} SimultaneousCopies(a: string, s: string, r: map<string, string>)
    requires Tokens(r) && NoOpen(a)
    ensures Simultaneous(a + s, r) == a + Simultaneous(s, r)
  {
    if a == [] {
      assert a + s == s;
    } else {
      assert (a + s)[1..] == a[1..] + s;
      assert (a + s)[0] == a[0];
      SimultaneousCopies(a[1..], s, r);
    }
  }

  lemma {:induction false} SimultaneousSkips(g: string, s: string, r: map<string, string>)
    requires Tokens(r) && Bracketed(g) && g !in r
    ensures Simultaneous(g + s, r) == g + Simultaneous(s, r)
  {
    forall t | t in r && t <= g + s ensures false { BracketedPrefixUnique(t, g, g + s); }
    assert (g + s)[1..] == g[1..] + s;
    SimultaneousCopies(g[1..], s, r);
  }

  // ---------- One more pass adds one more token ----------

  lemma {:induction false} ContainsInTail(p: string, v: string)
    requires p != [] && Contains(p[1..], v)
    ensures Contains(p, v)
  {
    var i :| 0 <= i <= |p[1..]| && v <= p[1..][i..];
    assert p[1..][i..] == p[i + 1..];
  }

  predicate TokenTail(q: string) {
    |q| >= 1 && q[|q| - 1] == ']' && forall i :: 0 <= i < |q| - 1 ==> q[i] != '[' && q[i] != ']'
  }

  lemma {:induction false} TailNotInReplacement(q: string, v: string, y: string)
    requires TokenTail(q)
    requires Bracketed(v) || (BracketFree(v) && !Contains(q, v))
    ensures !(q <= v + y)
  {
    assert q[0] != '[';
    if Bracketed(v) {
      assert (v + y)[0] == '[';
    } else if |v| < |q| {
      var q0 := q[0..];
      assert q <= v + y ==> v <= q0;
    } else {
      assert (v + y)[|q| - 1] == v[|q| - 1] != ']';
    }
  }

  /** A token tail that appears after a pass was there before, unless a replacement fits inside it. */
  lemma {:induction false} TailWasThere(q: string, s: string, r: map<string, string>)
    requires Tokens(r) && TokenTail(q)
    requires forall t :: t in r ==> Bracketed(r[t]) || (BracketFree(r[t]) && !Contains(q, r[t]))
    ensures q <= Simultaneous(s, r) ==> q <= s
    decreases |s|
  {
    if s == [] {
    } else if t :| t in r && t <= s {
      SimultaneousAt(s, t, r);
      TailNotInReplacement(q, r[t], Simultaneous(s[|t|..], r));
    } else {
      var out := Simultaneous(s, r);
      assert out[0] == s[0] && out[1..] == Simultaneous(s[1..], r);
      if |q| > 1 {
        var q' := q[1..];
        forall t | t in r && BracketFree(r[t]) && Contains(q', r[t]) ensures Contains(q, r[t]) {
          ContainsInTail(q, r[t]);
        }
        TailWasThere(q', s[1..], r);
      }
    }
  }

  /** A simultaneous pass for `r` followed by a pass for one further token `p` is one simultaneous
      pass for both, when no replacement of `r` can touch `p`. */
  lemma {:induction false} OneMoreToken(s: string, r: map<string, string>, p: string, v: string)
    requires Tokens(r) && Bracketed(p) && p !in r
    requires forall t :: t in r ==> Inert(r[t], p)
    ensures Tokens(r[p := v])
    ensures ReplaceAll(Simultaneous(s, r), p, v) == Simultaneous(s, r[p := v])
    decreases |s|
  {
    var r' := r[p := v];
    if s == [] {
    } else if t :| t in r && t <= s {
      SimultaneousAt(s, t, r);
      SimultaneousAt(s, t, r');
      var y := Simultaneous(s[|t|..], r);
      OneMoreToken(s[|t|..], r, p, v);
      if BracketFree(r[t]) { ReplaceAllCopies(r[t], y, p, v); } else { ReplaceAllSkips(r[t], y, p, v); }
    } else if p <= s {
      SimultaneousAt(s, p, r');
      var rest := s[|p|..];
      assert s == p + rest;
      SimultaneousSkips(p, rest, r);
      OneMoreToken(rest, r, p, v);
      assert (p + Simultaneous(rest, r))[|p|..] == Simultaneous(rest, r);
    } else {
      OneMoreToken(s[1..], r, p, v);
      var out := Simultaneous(s, r);
      assert out == [s[0]] + Simultaneous(s[1..], r) && out[1..] == Simultaneous(s[1..], r);
      assert forall t :: t in r' && t <= s ==> t in r || t == p;
      if p <= out { NotCompleted(s, r, p); }
    }
  }

  lemma {:induction false} NotCompleted(s: string, r: map<string, string>, p: string)
    requires s != [] && Tokens(r) && Bracketed(p) && !(p <= s)
    requires forall t :: t in r ==> Inert(r[t], p) && !(t <= s)
    ensures !(p <= Simultaneous(s, r))
  {
    var out := Simultaneous(s, r);
    assert out[0] == s[0] && out[1..] == Simultaneous(s[1..], r);
    var q := p[1..];
    forall t | t in r && BracketFree(r[t]) && Contains(q, r[t]) ensures Contains(p, r[t]) {
      ContainsInTail(p, r[t]);
    }
    TailWasThere(q, s[1..], r);
    var rest := out[1..];
    assert p <= out ==> q <= rest;
    assert q <= s[1..] && p[0] == s[0] ==> p <= s;
  }

  // ---------- Sequential replacement is simultaneous replacement ----------

  function Restrict(r: map<string, string>, keys: seq<string>): map<string, string> {
    map t | t in r && t in keys :: r[t]
  }

  ghost predicate OrderSafe(order: seq<string>, r: map<string, string>)
    requires forall t :: t in order ==> t in r
  {
    forall i, j :: 0 <= i < j < |order| ==> order[i] != order[j] && Inert(r[order[i]], order[j])
  }

  lemma {:induction false} SequentialIsRestricted(s: string, order: seq<string>, r: map<string, string>)
    requires Tokens(r) && (forall t :: t in order ==> t in r) && OrderSafe(order, r)
    ensures Sequential(s, order, r) == Simultaneous(s, Restrict(r, order))
  {
    if order == [] {
      NoTokens(s, Restrict(r, order));
    } else {
      var n := |order| - 1;
      var before, p := order[..n], order[n];
      SequentialIsRestricted(s, before, r);
      RestrictOneMore(order, r);
      OneMoreToken(s, Restrict(r, before), p, r[p]);
    }
  }

  lemma {:induction false} RestrictOneMore(order: seq<string>, r: map<string, string>)
    requires order != [] && (forall t :: t in order ==> t in r) && OrderSafe(order, r)
    ensures var n := |order| - 1; var r0 := Restrict(r, order[..n]); var p := order[n];
      p in r && p !in r0 && Restrict(r, order) == r0[p := r[p]] && forall t :: t in r0 ==> Inert(r0[t], p)
  {
    var n := |order| - 1;
    var before, p := order[..n], order[n];
    assert order == before + [p];
    assert p !in before;
    forall t | t in before ensures Inert(r[t], p) {
      var i :| 0 <= i < n && before[i] == t;
      assert order[i] == t;
    }
  }

  lemma {:induction false} NoTokens(s: string, r: map<string, string>)
    requires r == map[]
    ensures Simultaneous(s, r) == s
    decreases |s|
  {
    if s != [] { NoTokens(s[1..], r); }
  }

  /** When no replacement can touch another token, every order gives the same text: that of a single
      left-to-right pass. */
  lemma {:induction false} SequentialIsSimultaneous(s: string, order: seq<string>, r: map<string, string>)
    requires Tokens(r) && Enumerates(order, r) && Independent(r)
    ensures Sequential(s, order, r) == Simultaneous(s, r)
  {
    forall i, j | 0 <= i < j < |order| ensures order[i] != order[j] && Inert(r[order[i]], order[j]) {
      assert order[i] in order && order[j] in order;
    }
    SequentialIsRestricted(s, order, r);
    assert Restrict(r, order) == r;
  }

  // ---------- Cutting the text between tokens ----------

  /** No occurrence of a token starts in `a` and ends in `b`. */
  ghost predicate CleanCut(a: string, b: string, r: map<string, string>) {
    forall i, t :: 0 <= i < |a| && t in r && t <= a[i..] + b ==> |t| <= |a| - i
  }

  lemma {:induction false} SimultaneousSplits(a: string, b: string, r: map<string, string>)
    requires Tokens(r) && CleanCut(a, b, r)
    ensures Simultaneous(a + b, r) == Simultaneous(a, r) + Simultaneous(b, r)
    decreases |a|
  {
    if a == [] {
      assert a + b == b;
    } else if t :| t in r && t <= a + b {
      assert a[0..] + b == a + b;
      CleanCutLater(a, b, r, |t|);
      SimultaneousSplits(a[|t|..], b, r);
      TokenAtStart(a, b, r, t);
      Associative(r[t], Simultaneous(a[|t|..], r), Simultaneous(b, r));
    } else {
      CleanCutLater(a, b, r, 1);
      SimultaneousSplits(a[1..], b, r);
      NoTokenAtStart(a, b, r);
      Associative([a[0]], Simultaneous(a[1..], r), Simultaneous(b, r));
    }
  }

  lemma {:induction false} Associative(x: string, y: string, z: string)
    ensures x + (y + z) == x + y + z
  {
  }

  lemma {:induction false} TokenAtStart(a: string, b: string, r: map<string, string>, t: string)
    requires Tokens(r) && t in r && t <= a + b && |t| <= |a|
    ensures Simultaneous(a + b, r) == r[t] + Simultaneous(a[|t|..] + b, r)
    ensures Simultaneous(a, r) == r[t] + Simultaneous(a[|t|..], r)
  {
    assert t <= a;
    assert (a + b)[|t|..] == a[|t|..] + b;
    SimultaneousAt(a + b, t, r);
    SimultaneousAt(a, t, r);
  }

  lemma {:induction false} NoTokenAtStart(a: string, b: string, r: map<string, string>)
    requires a != [] && Tokens(r) && forall t :: t in r ==> !(t <= a + b)
    ensures Simultaneous(a + b, r) == [a[0]] + Simultaneous(a[1..] + b, r)
    ensures Simultaneous(a, r) == [a[0]] + Simultaneous(a[1..], r)
  {
    assert (a + b)[1..] == a[1..] + b;
    forall t | t in r ensures !(t <= a) {
      assert t <= a ==> t <= a + b;
    }
  }

  lemma {:induction false} CleanCutLater(a: string, b: string, r: map<string, string>, k: nat)
    requires CleanCut(a, b, r) && k <= |a|
    ensures CleanCut(a[k..], b, r)
  {
    forall i, t | 0 <= i < |a[k..]| && t in r && t <= a[k..][i..] + b ensures |t| <= |a[k..]| - i {
      assert a[k..][i..] == a[k + i..];
    }
  }

  // ---------- When replacements do interfere ----------

  /** An opening bracket, bracket-free text, and another opening bracket: no token starts there. */
  lemma {:induction false} NoTokenAcrossOpen(a: string, s: string, q: string)
    requires Bracketed(q) && a != [] && BracketFree(a[1..]) && s != [] && s[0] == '['
    ensures !(q <= a + s)
  {
    var w, k := a + s, |q| - 1;
    if k < |a| {
      assert w[k] == a[1..][k - 1] != q[k];
    } else if k == |a| {
      assert w[k] == s[0] != q[k];
    } else {
      assert w[|a|] == s[0] != q[|a|];
    }
  }

  /** Around a token, inside a text whose outer brackets belong to nothing, a pass sees only that token. */
  lemma {:induction false} AroundToken(a: string, t: string, b: string, q: string, v: string)
    requires Bracketed(t) && Bracketed(q) && a != [] && BracketFree(a[1..]) && NoOpen(b)
    ensures ReplaceAll(a + t + b, q, v) == a + (if q == t then v else t) + b
  {
    var s := t + b;
    Associative(a, t, b);
    NoTokenAcrossOpen(a, s, q);
    AtToken(t, b, q, v);
    Associative(a, if q == t then v else t, b);
    AfterFirst(a, s, q, v);
  }

  lemma {:induction false} AfterFirst(a: string, s: string, q: string, v: string)
    requires Bracketed(q) && a != [] && BracketFree(a[1..]) && !(q <= a + s)
    ensures ReplaceAll(a + s, q, v) == a + ReplaceAll(s, q, v)
  {
    assert (a + s)[1..] == a[1..] + s;
    ReplaceAllCopies(a[1..], s, q, v);
    var y := ReplaceAll(s, q, v);
    assert [a[0]] + a[1..] == a;
    Associative([a[0]], a[1..], y);
  }

  lemma {:induction false} AtToken(t: string, b: string, q: string, v: string)
    requires Bracketed(t) && Bracketed(q) && NoOpen(b)
    ensures ReplaceAll(t + b, q, v) == (if q == t then v else t) + b
  {
    assert b + [] == b;
    ReplaceAllCopies(b, [], q, v);
    if q == t {
      assert (t + b)[|t|..] == b;
    } else {
      ReplaceAllSkips(t, b, q, v);
    }
  }

  /** The text on which the order decides: a token in place of its own value `v` inside token `p`. */
  lemma {:induction false} Witness(p: string, v: string) returns (a: string, b: string)
    requires Bracketed(p) && v != [] && BracketFree(v) && Contains(p, v)
    ensures a != [] && a[0] == '[' && BracketFree(a[1..])
    ensures TokenTail(b)
    ensures a + v + b == p
  {
    var i :| 0 <= i <= |p| && v <= p[i..];
    SplitAround(p, v, i);
    a, b := p[..i], p[i + |v|..];
    PartsAround(p, i, i + |v|, v);
  }

  lemma {:induction false} PartsAround(p: string, i: nat, j: nat, v: string)
    requires Bracketed(p) && v != [] && BracketFree(v) && i + |v| == j <= |p|
    requires forall k :: 0 <= k < |v| ==> v[k] == p[i + k]
    ensures i >= 1 && p[..i][0] == '[' && BracketFree(p[..i][1..]) && TokenTail(p[j..])
  {
    assert p[i + 0] == v[0];
    assert p[i + (|v| - 1)] == v[|v| - 1];
    assert j < |p|;
    var b := p[j..];
    assert forall k :: 0 <= k < |b| ==> b[k] == p[j + k];
  }

  lemma {:induction false} SplitAround(p: string, v: string, i: nat)
    requires i <= |p| && v <= p[i..]
    ensures i + |v| <= |p| && p == p[..i] + v + p[i + |v|..]
    ensures forall k :: 0 <= k < |v| ==> v[k] == p[i + k]
  {
    assert forall k :: 0 <= k < |v| ==> v[k] == p[i..][k] == p[i + k];
  }

  lemma {:induction false} OthersLeaveAlone(a: string, t: string, b: string, order: seq<string>, r: map<string, string>)
    requires Tokens(r) && (forall q :: q in order ==> q in r && q != t)
    requires Bracketed(t) && a != [] && BracketFree(a[1..]) && NoOpen(b)
    ensures Sequential(a + t + b, order, r) == a + t + b
  {
    if order != [] {
      var n := |order| - 1;
      assert order[n] in order && forall q :: q in order[..n] ==> q in order;
      OthersLeaveAlone(a, t, b, order[..n], r);
      AroundToken(a, t, b, order[n], r[order[n]]);
    }
  }

  lemma {:induction false} EnumerationExists(keys: set<string>) returns (order: seq<string>)
    ensures forall t :: t in order <==> t in keys
    ensures forall i, j :: 0 <= i < j < |order| ==> order[i] != order[j]
    decreases |keys|
  {
    if keys == {} {
      order := [];
    } else {
      var t :| t in keys;
      var rest := EnumerationExists(keys - {t});
      order := [t] + rest;
    }
  }

  /** If the value of one token occurs inside another token, two iteration orders give different texts. */
  lemma {:induction false} InterferenceShows(r: map<string, string>, t: string, p: string)
      returns (text: string, order: seq<string>, order': seq<string>)
    requires Tokens(r) && t in r && p in r && t != p
    requires r[t] != [] && BracketFree(r[t]) && Contains(p, r[t]) && r[p] != p
    ensures Enumerates(order, r) && Enumerates(order', r)
    ensures Sequential(text, order, r) != Sequential(text, order', r)
  {
    var a, b := Witness(p, r[t]);
    var others := EnumerationExists(r.Keys - {t, p});
    text, order, order' := a + t + b, others + [p, t], others + [t, p];
    PairOrder(others, p, t, r);
    PairOrder(others, t, p, r);
    OthersLeaveAlone(a, t, b, others, r);
    TwoMore(text, others, p, t, r);
    TwoMore(text, others, t, p, r);
    AroundToken(a, t, b, p, r[p]);
    AroundToken(a, t, b, t, r[t]);
    WholeToken(p, r[p]);
  }

  lemma {:induction false} WholeToken(p: string, v: string)
    requires Bracketed(p)
    ensures ReplaceAll(p, p, v) == v
  {
    assert p[|p|..] == [];
  }

  lemma {:induction false} PairOrder(others: seq<string>, x: string, y: string, r: map<string, string>)
    requires x in r && y in r && x != y
    requires forall t :: t in others <==> t in r.Keys - {x, y}
    requires forall i, j :: 0 <= i < j < |others| ==> others[i] != others[j]
    ensures Enumerates(others + [x, y], r)
  {
    var o := others + [x, y];
    var n := |others|;
    assert o[n] == x && o[n + 1] == y;
    forall t ensures t in o <==> t in r {
      if t in others {
        var i :| 0 <= i < n && others[i] == t;
        assert o[i] == t;
      }
    }
    forall i, j | 0 <= i < j < |o| ensures o[i] != o[j] {
      if i < n { assert o[i] == others[i] && others[i] in others; }
      if j < n { assert o[j] == others[j]; }
    }
  }

  lemma {:induction false} TwoMore(s: string, order: seq<string>, x: string, y: string, r: map<string, string>)
    requires Tokens(r) && (forall t :: t in order ==> t in r) && x in r && y in r
    ensures Sequential(s, order + [x, y], r)
         == ReplaceAll(ReplaceAll(Sequential(s, order, r), x, r[x]), y, r[y])
  {
    var o := order + [x, y];
    assert o[..|o| - 1] == order + [x];
    assert (order + [x])[..|order|] == order;
  }

  // ---------- Texts without a complete group ----------

  lemma {:induction false} SequentialKeeps(s: string, order: seq<string>, r: map<string, string>)
    requires Tokens(r) && forall t :: t in order ==> t in r && t != []
    requires NoOpen(s) || forall i :: 0 <= i < |s| ==> s[i] != ']'
    ensures Sequential(s, order, r) == s
  {
    if order != [] {
      var n := |order| - 1;
      assert order[n] in order && forall q :: q in order[..n] ==> q in order;
      SequentialKeeps(s, order[..n], r);
      PassKeeps(s, order[n], r[order[n]]);
    }
  }

  lemma {:induction false} PassKeeps(s: string, p: string, v: string)
    requires Bracketed(p)
    requires NoOpen(s) || forall i :: 0 <= i < |s| ==> s[i] != ']'
    ensures ReplaceAll(s, p, v) == s
    decreases |s|
  {
    if s != [] {
      if |p| <= |s| { assert s[0] != p[0] || s[|p| - 1] != p[|p| - 1]; }
      PassKeeps(s[1..], p, v);
    }
  }

  /** A pass leaves no occurrence of its token behind, unless the value put in its place occurs inside it. */
  lemma {:induction false} PassLeavesNone(s: string, p: string, v: string)
    requires Bracketed(p) && BracketFree(v) && !Contains(p, v)
    ensures !Contains(ReplaceAll(s, p, v), p)
    decreases |s|
  {
    var out := ReplaceAll(s, p, v);
    if s == [] {
    } else if p <= s {
      var rest := ReplaceAll(s[|p|..], p, v);
      PassLeavesNone(s[|p|..], p, v);
      forall i | 0 <= i <= |out| ensures !(p <= out[i..]) {
        if i < |v| { assert out[i..][0] == v[i]; } else { assert out[i..] == rest[i - |v|..]; }
      }
    } else {
      PassLeavesNone(s[1..], p, v);
      NotRecreated(s, p, v);
      forall i | 0 <= i <= |out| ensures !(p <= out[i..]) {
        if i == 0 { assert out[0..] == out; } else { assert out[i..] == ReplaceAll(s[1..], p, v)[i - 1..]; }
      }
    }
  }

  lemma {:induction false} NotRecreated(s: string, p: string, v: string)
    requires Bracketed(p) && BracketFree(v) && !Contains(p, v) && s != [] && !(p <= s)
    ensures !(p <= ReplaceAll(s, p, v))
  {
    var q, rest, r := p[1..], ReplaceAll(s[1..], p, v), map[p := v];
    NoTokens(s[1..], map[]);
    OneMoreToken(s[1..], map[], p, v);
    assert map[][p := v] == r;
    if Contains(q, v) { ContainsInTail(p, v); }
    assert p[0] == s[0] && q <= s[1..] ==> p <= s;
    assert p <= [s[0]] + rest ==> q <= rest && p[0] == s[0];
    TailWasThere(q, s[1..], r);
  }
}
