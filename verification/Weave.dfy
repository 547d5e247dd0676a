/** A masked message as literal text woven with inserted tokens, and what a restore makes of it. */
module Weave {
  import opened Substitution

  /** `lits[0] + xs[0] + lits[1] + xs[1] + ... + lits[n]`. */
  function Woven(lits: seq<string>, xs: seq<string>): string
    requires |lits| == |xs| + 1
  {
    if xs == [] then lits[0] else lits[0] + xs[0] + Woven(lits[1..], xs[1..])
  }

  function Swap(xs: seq<string>, p: string, v: string): (ys: seq<string>)
    ensures |ys| == |xs| && forall i :: 0 <= i < |xs| ==> ys[i] == if xs[i] == p then v else xs[i]
  {
    if xs == [] then [] else [if xs[0] == p then v else xs[0]] + Swap(xs[1..], p, v)
  }

  /** Each inserted text is either a bracketed group or the original, bracket-free value. */
  ghost predicate Pieces(xs: seq<string>, vals: seq<string>) {
    && |xs| == |vals|
    && forall i :: 0 <= i < |xs| ==> BracketFree(vals[i]) && (Bracketed(xs[i]) || xs[i] == vals[i])
  }

  lemma {:induction false} ContainsLater(a: string, s: string, p: string)
    requires Contains(s, p)
    ensures Contains(a + s, p)
  {
    var i :| 0 <= i <= |s| && p <= s[i..];
    assert (a + s)[|a| + i..] == s[i..];
  }

  lemma {:induction false} Regroup(c: string, l: string, x: string, w: string)
    ensures c + l + x + w == c + (l + x + w)
  {
  }

  /** Dropping the first character of the first literal drops it from the text. */
  lemma {:induction false} DropFirst(lits: seq<string>, xs: seq<string>)
    requires |lits| == |xs| + 1 && lits[0] != []
    ensures Woven(lits, xs) == [lits[0][0]] + Woven([lits[0][1..]] + lits[1..], xs)
  {
    var l := [lits[0][1..]] + lits[1..];
    assert l[1..] == lits[1..];
    assert lits[0] == [lits[0][0]] + l[0];
    if xs != [] {
      var w := Woven(lits[1..], xs[1..]);
      assert Woven(l, xs) == l[0] + xs[0] + w;
      Regroup([lits[0][0]], l[0], xs[0], w);
    }
  }

  /** A token tail cannot run into a bracketed piece, so it reads the original text. */
  lemma {:induction false} TailReadsOriginal(q: string, lits: seq<string>, xs: seq<string>, vals: seq<string>)
    requires |lits| == |xs| + 1 && Pieces(xs, vals) && TokenTail(q)
    ensures q <= Woven(lits, xs) ==> q <= Woven(lits, vals)
    decreases |xs|, |lits[0]|, 1
  {
    if lits[0] != [] {
      DropFirst(lits, xs);
      DropFirst(lits, vals);
      if |q| > 1 {
        var q' := q[1..];
        TailReadsOriginal(q', [lits[0][1..]] + lits[1..], xs, vals);
        PrefixStep(q, Woven(lits, xs), Woven([lits[0][1..]] + lits[1..], xs));
        PrefixStep(q, Woven(lits, vals), Woven([lits[0][1..]] + lits[1..], vals));
      }
    } else if xs != [] {
      TailAcrossPiece(q, lits, xs, vals);
    }
  }

  lemma {:induction false} PrefixStep(q: string, w: string, w': string)
    requires q != [] && w != [] && w == [w[0]] + w'
    ensures q <= w <==> q[0] == w[0] && q[1..] <= w'
  {
    assert w[1..] == w';
    if q[0] == w[0] && q[1..] <= w' { assert q == [q[0]] + q[1..]; }
  }

  lemma {:induction false} PrefixAcross(q: string, v: string, rest: string)
    requires |v| <= |q|
    ensures q <= v + rest <==> q[..|v|] == v && q[|v|..] <= rest
  {
    assert q == q[..|v|] + q[|v|..];
    assert (v + rest)[|v|..] == rest;
    if q <= v + rest {
      assert (v + rest)[..|q|] == q;
      assert rest[..|q| - |v|] == q[|v|..];
    }
  }

  lemma {:induction false} TailAcrossPiece(q: string, lits: seq<string>, xs: seq<string>, vals: seq<string>)
    requires |lits| == |xs| + 1 && Pieces(xs, vals) && TokenTail(q) && lits[0] == [] && xs != []
    ensures q <= Woven(lits, xs) ==> q <= Woven(lits, vals)
    decreases |xs|, 0, 0
  {
    WovenPiece(lits, xs);
    WovenPiece(lits, vals);
    if xs[0] == vals[0] && |vals[0]| < |q| {
      TailOfTail(q, |vals[0]|);
      TailReadsOriginal(q[|vals[0]|..], lits[1..], xs[1..], vals[1..]);
    }
    TailAcross(q, xs[0], vals[0], Woven(lits[1..], xs[1..]), Woven(lits[1..], vals[1..]));
  }

  lemma {:induction false} TailOfTail(q: string, k: nat)
    requires TokenTail(q) && k < |q|
    ensures TokenTail(q[k..])
  {
  }

  lemma {:induction false} TailAcross(q: string, x: string, v: string, rest: string, rest': string)
    requires TokenTail(q) && BracketFree(v) && (Bracketed(x) || x == v)
    requires x == v && |v| < |q| ==> (q[|v|..] <= rest ==> q[|v|..] <= rest')
    ensures q <= x + rest ==> q <= v + rest'
  {
    if Bracketed(x) {
      assert (x + rest)[0] == '[' != q[0];
    } else if |v| < |q| {
      PrefixAcross(q, v, rest);
      PrefixAcross(q, v, rest');
    } else {
      assert (v + rest)[|q| - 1] == v[|q| - 1] != ']';
    }
  }

  lemma {:induction false} PassOverPiece(x: string, rest: string, p: string, v: string)
    requires Bracketed(p) && (Bracketed(x) || BracketFree(x))
    ensures ReplaceAll(x + rest, p, v) == (if x == p then v else x) + ReplaceAll(rest, p, v)
  {
    if x == p {
      assert (x + rest)[|p|..] == rest;
    } else if Bracketed(x) {
      ReplaceAllSkips(x, rest, p, v);
    } else {
      ReplaceAllCopies(x, rest, p, v);
    }
  }

  lemma {:induction false} WovenPiece(lits: seq<string>, xs: seq<string>)
    requires |lits| == |xs| + 1 && lits[0] == [] && xs != []
    ensures Woven(lits, xs) == xs[0] + Woven(lits[1..], xs[1..])
  {
    assert lits[0] + xs[0] == xs[0];
  }

  /** One pass replaces exactly the inserted copies of its token, when the token does not occur in the
      original text. */
  lemma {:induction false} PassOverWoven(lits: seq<string>, xs: seq<string>, vals: seq<string>, p: string, v: string)
    requires |lits| == |xs| + 1 && Pieces(xs, vals) && Bracketed(p)
    requires !Contains(Woven(lits, vals), p)
    ensures ReplaceAll(Woven(lits, xs), p, v) == Woven(lits, Swap(xs, p, v))
    decreases |xs|, |lits[0]|
  {
    if lits[0] != [] {
      var l := [lits[0][1..]] + lits[1..];
      DropFirst(lits, vals);
      if Contains(Woven(l, vals), p) { ContainsLater([lits[0][0]], Woven(l, vals), p); }
      PassOverWoven(l, xs, vals, p, v);
      NotAtStart(lits, xs, vals, p);
      DropFirst(lits, xs);
      assert Woven(lits, xs)[1..] == Woven(l, xs);
      DropFirst(lits, Swap(xs, p, v));
    } else if xs != [] {
      WovenPiece(lits, vals);
      var rest := Woven(lits[1..], vals[1..]);
      if Contains(rest, p) { ContainsLater(vals[0], rest, p); }
      PassOverWoven(lits[1..], xs[1..], vals[1..], p, v);
      WovenPiece(lits, xs);
      PassOverPiece(xs[0], Woven(lits[1..], xs[1..]), p, v);
      WovenPiece(lits, Swap(xs, p, v));
      assert Swap(xs, p, v)[1..] == Swap(xs[1..], p, v);
    }
  }

  lemma {:induction false} NotAtStart(lits: seq<string>, xs: seq<string>, vals: seq<string>, p: string)
    requires |lits| == |xs| + 1 && Pieces(xs, vals) && Bracketed(p) && lits[0] != []
    requires !Contains(Woven(lits, vals), p)
    ensures !(p <= Woven(lits, xs))
  {
    var l := [lits[0][1..]] + lits[1..];
    DropFirst(lits, xs);
    DropFirst(lits, vals);
    var q := p[1..];
    TailReadsOriginal(q, l, xs, vals);
    PrefixStep(p, Woven(lits, xs), Woven(l, xs));
    PrefixStep(p, Woven(lits, vals), Woven(l, vals));
    var w := Woven(lits, vals);
    assert w[0..] == w;
    assert p <= w ==> Contains(w, p);
  }

  /** What stands at each inserted place after the tokens of `order` have been replaced. */
  function Settled(toks: seq<string>, order: seq<string>, r: map<string, string>): (ys: seq<string>)
    requires forall t :: t in toks ==> t in r
    ensures |ys| == |toks|
    ensures forall i :: 0 <= i < |toks| ==> ys[i] == if toks[i] in order then r[toks[i]] else toks[i]
  {
    if toks == [] then []
    else [if toks[0] in order then r[toks[0]] else toks[0]] + Settled(toks[1..], order, r)
  }

  /** Replacing tokens one after another, in any order, turns each inserted token into its own
      replacement and changes nothing else, provided no token occurs in the original text. */
  lemma {:induction false} RestoreWoven(lits: seq<string>, toks: seq<string>, vals: seq<string>, order: seq<string>,
                                        r: map<string, string>)
    requires |lits| == |toks| + 1 && |vals| == |toks| && Tokens(r)
    requires forall t :: t in order ==> t in r
    requires forall i, j :: 0 <= i < j < |order| ==> order[i] != order[j]
    requires forall i :: 0 <= i < |toks| ==> toks[i] in r && BracketFree(vals[i])
    requires forall i :: 0 <= i < |toks| ==> r[toks[i]] == vals[i] || (Bracketed(r[toks[i]]) && r[toks[i]] !in r)
    requires forall t :: t in r ==> !Contains(Woven(lits, vals), t)
    ensures Sequential(Woven(lits, toks), order, r) == Woven(lits, Settled(toks, order, r))
  {
    if order == [] {
      assert Settled(toks, order, r) == toks;
    } else {
      var n := |order| - 1;
      var before, p := order[..n], order[n];
      assert p in order && forall t :: t in before ==> t in order;
      RestoreWoven(lits, toks, vals, before, r);
      SettleOneMore(toks, vals, before, p, r);
      assert order == before + [p];
      PassOverWoven(lits, Settled(toks, before, r), vals, p, r[p]);
    }
  }

  lemma {:induction false} SettleOneMore(toks: seq<string>, vals: seq<string>, before: seq<string>, p: string,
                                         r: map<string, string>)
    requires |vals| == |toks| && Tokens(r) && p in r && p !in before
    requires forall i :: 0 <= i < |toks| ==> toks[i] in r && BracketFree(vals[i])
    requires forall i :: 0 <= i < |toks| ==> r[toks[i]] == vals[i] || (Bracketed(r[toks[i]]) && r[toks[i]] !in r)
    ensures Pieces(Settled(toks, before, r), vals)
    ensures Swap(Settled(toks, before, r), p, r[p]) == Settled(toks, before + [p], r)
  {
    if toks != [] {
      SettleOne(toks[0], vals[0], before, p, r);
      SettleOneMore(toks[1..], vals[1..], before, p, r);
      var xs := Settled(toks, before, r);
      assert xs[1..] == Settled(toks[1..], before, r);
      PiecesFirst(xs, vals);
    }
  }

  lemma {:induction false} PiecesFirst(xs: seq<string>, vals: seq<string>)
    requires |xs| == |vals| && xs != [] && Pieces(xs[1..], vals[1..])
    requires BracketFree(vals[0]) && (Bracketed(xs[0]) || xs[0] == vals[0])
    ensures Pieces(xs, vals)
  {
    assert forall i :: 0 < i < |xs| ==> xs[i] == xs[1..][i - 1] && vals[i] == vals[1..][i - 1];
  }

  lemma {:induction false} SettleOne(t: string, val: string, before: seq<string>, p: string, r: map<string, string>)
    requires Tokens(r) && t in r && p in r && BracketFree(val) && p !in before
    requires r[t] == val || (Bracketed(r[t]) && r[t] !in r)
    ensures var x := if t in before then r[t] else t;
      && (Bracketed(x) || x == val)
      && (if x == p then r[p] else x) == (if t in before + [p] then r[t] else t)
  {
    assert Bracketed(p) && p[0] == '[';
  }
}
