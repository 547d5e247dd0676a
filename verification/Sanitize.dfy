/** `sanitize`: collect detector hits, accept greedily, replace back to front. */
module Sanitize {
  import opened Substitution
  import opened Weave
  import opened Dlp

  datatype Span = Span(start: nat, end: nat)
  datatype Hit = Hit(start: nat, end: nat, order: nat)

  /** What is known of the detectors: every match is a non-empty span inside the text, holding no
      bracket. One list of spans per detector, in profile order. */
  predicate Detected(text: string, found: seq<seq<Span>>) {
    && |found| == |TYPES|
    && forall k, j :: 0 <= k < |found| && 0 <= j < |found[k]| ==> SpanOk(text, found[k][j].start, found[k][j].end)
  }

  predicate SpanOk(text: string, start: nat, end: nat) {
    start < end <= |text| && BracketFree(text[start..end])
  }

  predicate HitsOk(text: string, hits: seq<Hit>) {
    forall i :: 0 <= i < |hits| ==> HitOk(text, hits[i])
  }

  predicate HitOk(text: string, h: Hit) {
    SpanOk(text, h.start, h.end) && h.order < |TYPES|
  }

  /** A hit is the match of its detector, end to end. */
  ghost predicate FromDetector(found: seq<seq<Span>>, h: Hit) {
    h.order < |found| && exists j :: 0 <= j < |found[h.order]| && found[h.order][j] == Span(h.start, h.end)
  }

  // ---------- Collecting and sorting ----------

  function HitsOf(spans: seq<Span>, order: nat): (hits: seq<Hit>)
    ensures |hits| == |spans|
    ensures forall i :: 0 <= i < |spans| ==> hits[i] == Hit(spans[i].start, spans[i].end, order)
  {
    seq(|spans|, i requires 0 <= i < |spans| => Hit(spans[i].start, spans[i].end, order))
  }

  function Collect(found: seq<seq<Span>>): seq<Hit> {
    if found == [] then []
    else Collect(found[..|found| - 1]) + HitsOf(found[|found| - 1], |found| - 1)
  }

  /** The sort key: position first, profile order second. */
  predicate Before(a: Hit, b: Hit) {
    a.start < b.start || (a.start == b.start && a.order <= b.order)
  }

  function Insert(h: Hit, hits: seq<Hit>): seq<Hit> {
    if hits == [] || Before(h, hits[0]) then [h] + hits else [hits[0]] + Insert(h, hits[1..])
  }

  /** A stable sort by key. */
  function SortHits(hits: seq<Hit>): seq<Hit> {
    if hits == [] then [] else Insert(hits[0], SortHits(hits[1..]))
  }

  predicate Sorted(hits: seq<Hit>) {
    forall i, j :: 0 <= i < j < |hits| ==> Before(hits[i], hits[j])
  }

  lemma {:induction false} SortedCons(first: Hit, rest: seq<Hit>, bag: multiset<Hit>)
    requires Sorted(rest) && multiset(rest) == bag && forall x :: x in bag ==> Before(first, x)
    ensures Sorted([first] + rest)
  {
    forall i | 0 <= i < |rest| ensures Before(first, rest[i]) {
      assert rest[i] in multiset(rest);
    }
  }

  lemma {:induction false} InsertSorts(h: Hit, hits: seq<Hit>)
    requires Sorted(hits)
    ensures Sorted(Insert(h, hits)) && multiset(Insert(h, hits)) == multiset(hits) + multiset{h}
  {
    if hits == [] {
    } else if Before(h, hits[0]) {
      forall x | x in multiset(hits) ensures Before(h, x) {
        assert x == hits[0] || Before(hits[0], x);
      }
      SortedCons(h, hits, multiset(hits));
    } else {
      var first, rest := hits[0], hits[1..];
      InsertSorts(h, rest);
      SortedCons(first, Insert(h, rest), multiset(rest) + multiset{h});
      assert hits == [first] + rest;
    }
  }

  lemma {:induction false} SortHitsSorts(hits: seq<Hit>)
    ensures Sorted(SortHits(hits)) && multiset(SortHits(hits)) == multiset(hits)
  {
    if hits != [] {
      SortHitsSorts(hits[1..]);
      InsertSorts(hits[0], SortHits(hits[1..]));
      assert hits == [hits[0]] + hits[1..];
      assert multiset(hits) == multiset(hits[1..]) + multiset{hits[0]};
    }
  }

  // ---------- Greedy acceptance ----------

  function Greedy(hits: seq<Hit>, lastEnd: nat): seq<Hit> {
    if hits == [] then []
    else if hits[0].start >= lastEnd then [hits[0]] + Greedy(hits[1..], hits[0].end)
    else Greedy(hits[1..], lastEnd)
  }

  /** The spans that `Sanitize` rewrites. */
  function Accepted(found: seq<seq<Span>>): seq<Hit> {
    Greedy(SortHits(Collect(found)), 0)
  }

  /** Spans in text order, from `from` on, none overlapping the next. */
  predicate Ordered(text: string, acc: seq<Hit>, from: nat)
    decreases |acc|
  {
    if acc == [] then from <= |text|
    else from <= acc[0].start && HitOk(text, acc[0]) && Ordered(text, acc[1..], acc[0].end)
  }

  lemma {:induction false} GreedyOrdered(text: string, hits: seq<Hit>, lastEnd: nat)
    requires forall h :: h in hits ==> HitOk(text, h)
    requires lastEnd <= |text|
    ensures Ordered(text, Greedy(hits, lastEnd), lastEnd)
  {
    if hits != [] {
      assert hits[0] in hits;
      GreedyOrdered(text, hits[1..], if hits[0].start >= lastEnd then hits[0].end else lastEnd);
    }
  }

  /** The detected position `h.start` lies in an accepted span. */
  ghost predicate Covered(h: Hit, acc: seq<Hit>) {
    exists a :: a in acc && a.start <= h.start < a.end
  }

  lemma {:induction false} GreedyWithin(hits: seq<Hit>, lastEnd: nat, a: Hit)
    requires a in Greedy(hits, lastEnd) && forall h :: h in hits ==> h.start < h.end
    ensures a in hits && a.start >= lastEnd
  {
    var first := hits[0];
    if first.start >= lastEnd {
      if a != first { GreedyWithin(hits[1..], first.end, a); }
    } else {
      GreedyWithin(hits[1..], lastEnd, a);
    }
  }

  lemma {:induction false} GreedyCovers(hits: seq<Hit>, lastEnd: nat, h: Hit)
    requires Sorted(hits) && h in hits && lastEnd <= h.start < h.end
    ensures Covered(h, Greedy(hits, lastEnd))
  {
    var first, rest := hits[0], hits[1..];
    var acc := Greedy(hits, lastEnd);
    if h == first {
      assert first in acc;
    } else if first.start < lastEnd {
      GreedyCovers(rest, lastEnd, h);
    } else if h.start < first.end {
      assert Before(first, h);
      assert first in acc;
    } else {
      GreedyCovers(rest, first.end, h);
      var a :| a in Greedy(rest, first.end) && a.start <= h.start < a.end;
      assert a in acc;
    }
  }

  lemma {:induction false} GreedyPriority(hits: seq<Hit>, lastEnd: nat, a: Hit, h: Hit)
    requires Sorted(hits) && (forall x :: x in hits ==> x.start < x.end)
    requires a in Greedy(hits, lastEnd) && h in hits && h.start == a.start
    ensures a.order <= h.order
  {
    var first, rest := hits[0], hits[1..];
    if a == first {
      assert h == first || Before(first, h);
    } else {
      var end := if first.start >= lastEnd then first.end else lastEnd;
      assert a in Greedy(rest, end);
      GreedyWithin(rest, end, a);
      GreedyPriority(rest, end, a, h);
    }
  }

  lemma {:induction false} CollectedHits(text: string, found: seq<seq<Span>>)
    requires |found| <= |TYPES|
    requires forall k, j :: 0 <= k < |found| && 0 <= j < |found[k]| ==> SpanOk(text, found[k][j].start, found[k][j].end)
    ensures forall h :: h in Collect(found) ==> HitOk(text, h)
    ensures forall k, j :: 0 <= k < |found| && 0 <= j < |found[k]| ==>
      Hit(found[k][j].start, found[k][j].end, k) in Collect(found)
    ensures Collect(found) == [] <==> forall k :: 0 <= k < |found| ==> found[k] == []
  {
    if found != [] {
      var n := |found| - 1;
      var init := found[..n];
      assert forall k :: 0 <= k < n ==> init[k] == found[k];
      CollectedHits(text, init);
      var last := HitsOf(found[n], n);
      assert Collect(found) == Collect(init) + last;
      forall k, j | 0 <= k < |found| && 0 <= j < |found[k]|
        ensures Hit(found[k][j].start, found[k][j].end, k) in Collect(found)
      {
        if k == n { assert last[j] in last; } else { assert Hit(init[k][j].start, init[k][j].end, k) in Collect(init); }
      }
    }
  }

  lemma {:induction false} CollectedFromDetectors(found: seq<seq<Span>>, h: Hit)
    requires h in Collect(found)
    ensures FromDetector(found, h)
  {
    var n := |found| - 1;
    var init, last := found[..n], HitsOf(found[n], n);
    if h in last {
      var j :| 0 <= j < |last| && last[j] == h;
      assert found[n][j] == Span(h.start, h.end);
    } else {
      CollectedFromDetectors(init, h);
      var j :| 0 <= j < |init[h.order]| && init[h.order][j] == Span(h.start, h.end);
      assert found[h.order][j] == Span(h.start, h.end);
    }
  }

  /** Accepted spans are detector spans, in text order and disjoint; every detector hit starts inside one; where
      several hits start at the same place, the accepted one is the earliest in the profile. */
  lemma {:induction false} AcceptedSpans(text: string, found: seq<seq<Span>>)
    requires Detected(text, found)
    ensures Ordered(text, Accepted(found), 0)
    ensures forall a :: a in Accepted(found) ==> FromDetector(found, a)
    ensures forall k, j :: 0 <= k < |found| && 0 <= j < |found[k]| ==>
      exists a :: a in Accepted(found) && a.start <= found[k][j].start < a.end
        && (a.start == found[k][j].start ==> a.order <= k)
    ensures Accepted(found) == [] <==> forall k :: 0 <= k < |found| ==> found[k] == []
  {
    SortedHits(text, found);
    var sorted := SortHits(Collect(found));
    GreedyOrdered(text, sorted, 0);
    forall a | a in Accepted(found) ensures FromDetector(found, a) { GreedyWithin(sorted, 0, a); }
    forall k, j | 0 <= k < |found| && 0 <= j < |found[k]|
      ensures exists a :: a in Accepted(found) && a.start <= found[k][j].start < a.end &&
                          (a.start == found[k][j].start ==> a.order <= k)
    {
      var a := AcceptedOver(sorted, Hit(found[k][j].start, found[k][j].end, k));
    }
    if sorted != [] { assert sorted[0] in Accepted(found); }
  }

  lemma {:induction false} AcceptedOver(sorted: seq<Hit>, h: Hit) returns (a: Hit)
    requires Sorted(sorted) && (forall x :: x in sorted ==> x.start < x.end) && h in sorted
    ensures a in Greedy(sorted, 0) && a.start <= h.start < a.end && (a.start == h.start ==> a.order <= h.order)
  {
    var acc := Greedy(sorted, 0);
    GreedyCovers(sorted, 0, h);
    a :| a in acc && a.start <= h.start < a.end;
    if a.start == h.start { GreedyPriority(sorted, 0, a, h); }
  }

  lemma {:induction false} SortedHits(text: string, found: seq<seq<Span>>)
    requires Detected(text, found)
    ensures var sorted := SortHits(Collect(found));
      && Sorted(sorted) && (forall h :: h in sorted ==> HitOk(text, h) && FromDetector(found, h))
      && (forall k, j :: 0 <= k < |found| && 0 <= j < |found[k]| ==>
        Hit(found[k][j].start, found[k][j].end, k) in sorted)
      && (sorted == [] <==> forall k :: 0 <= k < |found| ==> found[k] == [])
  {
    var hits := Collect(found);
    var sorted := SortHits(hits);
    CollectedHits(text, found);
    SortHitsSorts(hits);
    forall h | h in hits ensures FromDetector(found, h) { CollectedFromDetectors(found, h); }
    hide FromDetector, Collect, SortHits;
    assert |sorted| == |multiset(sorted)| == |multiset(hits)| == |hits|;
    forall h ensures h in sorted <==> h in hits { assert h in multiset(sorted) <==> h in multiset(hits); }
  }

  // ---------- Text pieces ----------

  /** The text between accepted spans, front to back. */
  function Literals(text: string, acc: seq<Hit>, from: nat): (lits: seq<string>)
    requires Ordered(text, acc, from)
    ensures |lits| == |acc| + 1
    decreases |acc|
  {
    if acc == [] then [text[from..]]
    else [text[from..acc[0].start]] + Literals(text, acc[1..], acc[0].end)
  }

  function Values(text: string, acc: seq<Hit>): (vals: seq<string>)
    requires HitsOk(text, acc)
    ensures |vals| == |acc| && forall i :: 0 <= i < |acc| ==> vals[i] == text[acc[i].start..acc[i].end]
  {
    seq(|acc|, i requires 0 <= i < |acc| => text[acc[i].start..acc[i].end])
  }

  lemma {:induction false} OrderedHits(text: string, acc: seq<Hit>, from: nat)
    requires Ordered(text, acc, from)
    ensures from + |acc| <= |text| && HitsOk(text, acc)
    ensures forall i :: 0 <= i < |acc| ==> from <= acc[i].start
    ensures forall i, j :: 0 <= i < j < |acc| ==> acc[i].end <= acc[j].start
    decreases |acc|
  {
    if acc != [] {
      var rest := acc[1..];
      OrderedHits(text, rest, acc[0].end);
      assert forall j :: 0 < j < |acc| ==> acc[j] == rest[j - 1];
    }
  }

  /** The literals woven with the original values are the original text. */
  lemma {:induction false} LiteralsRebuildText(text: string, acc: seq<Hit>, from: nat)
    requires Ordered(text, acc, from) && HitsOk(text, acc)
    ensures Woven(Literals(text, acc, from), Values(text, acc)) == text[from..]
    decreases |acc|
  {
    if acc != [] {
      LiteralsRebuildText(text, acc[1..], acc[0].end);
      assert Values(text, acc)[1..] == Values(text, acc[1..]);
      var h := acc[0];
      assert text[from..] == text[from..h.start] + text[h.start..h.end] + text[h.end..];
    }
  }

  // ---------- Fresh tokens ----------

  /** `n` as a fixed-width hexadecimal string. */
  function HexOf(n: nat, width: nat): string {
    if width == 0 then []
    else
      var d := n % 16;
      HexOf(n / 16, width - 1) + [if d < 10 then ('0' as int + d) as char else ('a' as int + d - 10) as char]
  }

  function Power16(width: nat): nat {
    if width == 0 then 1 else 16 * Power16(width - 1)
  }

  lemma {:induction false} HexOfShape(n: nat, width: nat)
    ensures |HexOf(n, width)| == width && forall c :: c in HexOf(n, width) ==> '0' <= c <= '9' || 'a' <= c <= 'f'
  {
    if width > 0 { HexOfShape(n / 16, width - 1); }
  }

  lemma {:induction false} HexOfInjective(m: nat, n: nat, width: nat)
    requires m < Power16(width) && n < Power16(width) && HexOf(m, width) == HexOf(n, width)
    ensures m == n
  {
    if width > 0 {
      var a, b := HexOf(m, width), HexOf(n, width);
      HexOfShape(m / 16, width - 1);
      HexOfShape(n / 16, width - 1);
      assert a[..width - 1] == HexOf(m / 16, width - 1) && b[..width - 1] == HexOf(n / 16, width - 1);
      assert a[width - 1] == b[width - 1];
      HexOfInjective(m / 16, n / 16, width - 1);
    }
  }

  function NthToken(order: nat, n: nat): string
    requires order < |TYPES|
  {
    MakeToken(TYPES[order], HexOf(n, 32))
  }

  lemma {:induction false} NthTokens(order: nat, m: nat, n: nat)
    requires order < |TYPES| && m < SUFFIXES && n < SUFFIXES
    ensures IsTokenOf(NthToken(order, n), order)
    ensures NthToken(order, m) == NthToken(order, n) ==> m == n
  {
    HexOfShape(m, 32);
    HexOfShape(n, 32);
    var k := |TYPES[order]| + 2;
    assert NthToken(order, n)[k..k + 32] == HexOf(n, 32);
    assert NthToken(order, m)[k..k + 32] == HexOf(m, 32);
    assert Power16(8) == 0x1_0000_0000;
    assert Power16(16) == 0x1_0000_0000 * Power16(8);
    assert Power16(24) == 0x1_0000_0000 * Power16(16);
    assert Power16(32) == 0x1_0000_0000 * Power16(24);
    if HexOf(m, 32) == HexOf(n, 32) { HexOfInjective(m, n, 32); }
  }

  function TokenSet(order: nat, n: nat): set<string>
    requires order < |TYPES|
  {
    if n == 0 then {} else TokenSet(order, n - 1) + {NthToken(order, n - 1)}
  }

  lemma {:induction false} TokenSetMember(order: nat, n: nat, t: string) returns (i: nat)
    requires order < |TYPES| && t in TokenSet(order, n)
    ensures i < n && t == NthToken(order, i)
  {
    if t == NthToken(order, n - 1) { i := n - 1; } else { i := TokenSetMember(order, n - 1, t); }
  }

  /** The first `n` tokens of a type are `n` different strings. */
  lemma {:induction false} TokenSetSize(order: nat, n: nat)
    requires order < |TYPES| && n <= SUFFIXES
    ensures |TokenSet(order, n)| == n
  {
    if n > 0 {
      TokenSetSize(order, n - 1);
      if NthToken(order, n - 1) in TokenSet(order, n - 1) {
        var i := TokenSetMember(order, n - 1, NthToken(order, n - 1));
        NthTokens(order, i, n - 1);
      }
    }
  }

  lemma {:induction false} SubsetSize(a: set<string>, b: set<string>)
    requires a <= b
    ensures |a| <= |b|
  {
    assert b == a + (b - a);
  }

  /** While the vault holds fewer entries than there are suffixes, drawing again finds an unused token. */
  lemma {:induction false} FreshTokenExists(vault: map<string, string>, order: nat) returns (t: string)
    requires order < |TYPES| && |vault| < SUFFIXES
    ensures IsTokenOf(t, order) && t !in vault
  {
    var s := TokenSet(order, |vault| + 1);
    TokenSetSize(order, |vault| + 1);
    if s <= vault.Keys { SubsetSize(s, vault.Keys); }
    t :| t in s && t !in vault.Keys;
    var i := TokenSetMember(order, |vault| + 1, t);
    NthTokens(order, i, i);
  }

  // ---------- The per-request state ----------

  /** How often a token has been inserted so far. */
  function Count(scope: map<string, nat>, t: string): nat {
    if t in scope then scope[t] else 0
  }

  /** End of the last accepted span before index `i`. */
  function EndBefore(acc: seq<Hit>, i: nat): nat
    requires i <= |acc|
  {
    if i == 0 then 0 else acc[i - 1].end
  }

  lemma {:induction false} OrderedFrom(text: string, acc: seq<Hit>, from: nat, i: nat)
    requires Ordered(text, acc, from) && i <= |acc|
    ensures Ordered(text, acc[i..], if i == 0 then from else acc[i - 1].end)
    decreases i
  {
    if i == 0 {
      assert acc[0..] == acc;
    } else {
      OrderedFrom(text, acc[1..], acc[0].end, i - 1);
      assert acc[1..][i - 1..] == acc[i..];
    }
  }

  /** The text when the spans from index `i` on have been rewritten. */
  function Rewritten(text: string, acc: seq<Hit>, i: nat, toks: seq<string>): string
    requires Ordered(text, acc, 0) && i <= |acc| && |toks| == |acc| - i
  {
    OrderedFrom(text, acc, 0, i);
    OrderedHits(text, acc[i..], EndBefore(acc, i));
    text[..EndBefore(acc, i)] + Woven(Literals(text, acc[i..], EndBefore(acc, i)), toks)
  }

  lemma {:induction false} RewrittenNone(text: string, acc: seq<Hit>)
    requires Ordered(text, acc, 0)
    ensures Rewritten(text, acc, |acc|, []) == text
  {
    var e := EndBefore(acc, |acc|);
    OrderedFrom(text, acc, 0, |acc|);
    assert acc[|acc|..] == [];
    assert text == text[..e] + text[e..];
  }

  lemma {:induction false} RewrittenAll(text: string, acc: seq<Hit>, toks: seq<string>)
    requires Ordered(text, acc, 0) && |toks| == |acc|
    ensures Rewritten(text, acc, 0, toks) == Woven(Literals(text, acc, 0), toks)
  {
    assert acc[0..] == acc;
  }

  /** One step of the back-to-front rewrite: the span still reads as in the original text, and putting
      a token there extends the front-to-back weaving by one piece. */
  lemma {:induction false} RewriteOne(text: string, acc: seq<Hit>, i: nat, toks: seq<string>, token: string)
    requires Ordered(text, acc, 0) && 0 < i <= |acc| && |toks| == |acc| - i
    ensures var h := acc[i - 1]; var out := Rewritten(text, acc, i, toks);
      && HitOk(text, h) && HitOk(out, h) && out[h.start..h.end] == text[h.start..h.end]
      && out[..h.start] + token + out[h.end..] == Rewritten(text, acc, i - 1, [token] + toks)
  {
    OrderedHits(text, acc, 0);
    OrderedFrom(text, acc, 0, i);
    OrderedFrom(text, acc, 0, i - 1);
    var h, from := acc[i - 1], EndBefore(acc, i - 1);
    assert acc[i - 1..][0] == h && acc[i - 1..][1..] == acc[i..];
    var w := Woven(Literals(text, acc[i..], h.end), toks);
    Pieces3(text, from, h.start, h.end, token, w);
    assert ([token] + toks)[1..] == toks;
  }

  lemma {:induction false} Pieces3(text: string, from: nat, start: nat, end: nat, token: string, w: string)
    requires from <= start <= end <= |text|
    ensures var out := text[..end] + w;
      && out[start..end] == text[start..end]
      && out[..start] + token + out[end..] == text[..from] + (text[from..start] + token + w)
  {
    var out := text[..end] + w;
    assert out[..start] == text[..from] + text[from..start];
    assert out[end..] == w;
  }

  /** What a call to `Sanitize` returns and does to the shared vault and scope. */
  ghost predicate Masked(text: string, acc: seq<Hit>, toks: seq<string>, out: string, vault: map<string, string>,
                         vault': map<string, string>, scope: map<string, nat>, scope': map<string, nat>)
    requires Ordered(text, acc, 0)
  {
    && |toks| == |acc|
    && out == Woven(Literals(text, acc, 0), toks)
    && Recorded(text, acc, toks, vault, vault', scope, scope')
  }

  /** The vault only grows, and only by tokens that were inserted. */
  ghost predicate Grew(vault: map<string, string>, vault': map<string, string>, toks: seq<string>) {
    && (forall t :: t in vault ==> t in vault' && vault'[t] == vault[t])
    && (forall t :: t in vault' ==> t in vault || t in toks)
  }

  /** Each inserted token stands for the text of its span. */
  ghost predicate StandFor(text: string, acc: seq<Hit>, toks: seq<string>, vault: map<string, string>) {
    && |toks| == |acc| && HitsOk(text, acc)
    && forall i :: 0 <= i < |toks| ==> toks[i] in vault && vault[toks[i]] == text[acc[i].start..acc[i].end]
  }

  /** A token drawn during the call carries the type of one of the hits it was inserted for. */
  ghost predicate Typed(acc: seq<Hit>, toks: seq<string>, vault: map<string, string>, vault': map<string, string>)
    requires |toks| == |acc|
  {
    forall t :: t in vault' && t !in vault ==> exists i :: 0 <= i < |toks| && toks[i] == t && IsTokenOf(t, acc[i].order)
  }

  /** The scope counts insertions. */
  ghost predicate Counted(toks: seq<string>, scope: map<string, nat>, scope': map<string, nat>) {
    forall t :: Count(scope', t) == Count(scope, t) + multiset(toks)[t]
  }

  ghost predicate Recorded(text: string, acc: seq<Hit>, toks: seq<string>, vault: map<string, string>,
                           vault': map<string, string>, scope: map<string, nat>, scope': map<string, nat>)
  {
    && StandFor(text, acc, toks, vault') && Grew(vault, vault', toks)
    && Typed(acc, toks, vault, vault') && Counted(toks, scope, scope')
  }

  /** The vault after one more insertion. */
  ghost predicate Added(v: map<string, string>, v': map<string, string>, token: string, val: string, order: nat) {
    && token in v' && v'[token] == val
    && (v' == v || (token !in v && IsTokenOf(token, order) && v' == v[token := val]))
  }

  lemma {:induction false} TypedOne(h: Hit, rest: seq<Hit>, token: string, toks: seq<string>, v: map<string, string>,
                                    v1: map<string, string>, v2: map<string, string>, val: string)
    requires |toks| == |rest| && Typed(rest, toks, v, v1) && Added(v1, v2, token, val, h.order)
    ensures Typed([h] + rest, [token] + toks, v, v2)
  {
    hide IsTokenOf;
    var acc, ts := [h] + rest, [token] + toks;
    forall t | t in v2 && t !in v ensures exists i :: 0 <= i < |ts| && ts[i] == t && IsTokenOf(t, acc[i].order) {
      if t in v1 {
        var i :| 0 <= i < |toks| && toks[i] == t && IsTokenOf(t, rest[i].order);
        assert ts[i + 1] == t && acc[i + 1] == rest[i];
      } else {
        assert ts[0] == t && acc[0] == h;
      }
    }
  }

  lemma {:induction false} StandForOne(text: string, h: Hit, rest: seq<Hit>, token: string, toks: seq<string>,
                                       v1: map<string, string>, v2: map<string, string>)
    requires StandFor(text, rest, toks, v1) && HitOk(text, h)
    requires Added(v1, v2, token, text[h.start..h.end], h.order)
    ensures StandFor(text, [h] + rest, [token] + toks, v2)
  {
    var acc, ts := [h] + rest, [token] + toks;
    assert forall i :: 0 < i < |acc| ==> acc[i] == rest[i - 1] && ts[i] == toks[i - 1];
  }

  lemma {:induction false} RecordOne(text: string, h: Hit, rest: seq<Hit>, token: string, toks: seq<string>,
                                     v: map<string, string>, v1: map<string, string>, v2: map<string, string>,
                                     s: map<string, nat>, s1: map<string, nat>)
    requires Recorded(text, rest, toks, v, v1, s, s1) && HitOk(text, h)
    requires Added(v1, v2, token, text[h.start..h.end], h.order)
    ensures Recorded(text, [h] + rest, [token] + toks, v, v2, s, s1[token := Count(s1, token) + 1])
  {
    GrewOne(token, toks, v, v1, v2, text[h.start..h.end], h.order);
    CountedOne(token, toks, s, s1);
    TypedOne(h, rest, token, toks, v, v1, v2, text[h.start..h.end]);
    StandForOne(text, h, rest, token, toks, v1, v2);
    hide Grew, Counted, Typed, StandFor, Added;
  }

  lemma {:induction false} GrewOne(token: string, toks: seq<string>, v: map<string, string>, v1: map<string, string>,
                                   v2: map<string, string>, val: string, order: nat)
    requires Grew(v, v1, toks) && Added(v1, v2, token, val, order)
    ensures Grew(v, v2, [token] + toks)
  {
    hide IsTokenOf;
    assert forall t :: t in [token] + toks <==> t == token || t in toks;
  }

  lemma {:induction false} CountedOne(token: string, toks: seq<string>, s: map<string, nat>, s1: map<string, nat>)
    requires Counted(toks, s, s1)
    ensures Counted([token] + toks, s, s1[token := Count(s1, token) + 1])
  {
    assert multiset([token] + toks) == multiset{token} + multiset(toks);
  }

  lemma {:induction false} RecordNone(text: string, v: map<string, string>, s: map<string, nat>)
    ensures Recorded(text, [], [], v, v, s, s)
  {
  }

  lemma {:induction false} VaultAdd(vault: map<string, string>, token: string, val: string, order: nat)
    requires VaultOk(vault) && token !in vault && IsTokenOf(token, order) && val != [] && BracketFree(val)
    requires forall t :: t in vault ==> vault[t] != val
    ensures VaultOk(vault[token := val])
  {
    assert IsToken(token);
    hide IsTokenOf, IsToken;
  }

  class DlpState {
    var vault: map<string, string>
    var scope: map<string, nat>

    ghost predicate Valid()
      reads this
    {
      VaultOk(vault) && vault.Keys == scope.Keys
    }

    constructor ()
      ensures Valid() && vault == map[] && scope == map[]
    {
      vault, scope := map[], map[];
    }

    /** The token for a value: the one already in use, or a freshly drawn one that is then stored. */
    method TokenFor(val: string, order: nat) returns (token: string)
      requires VaultOk(vault) && val != [] && BracketFree(val) && order < |TYPES| && |vault| < SUFFIXES
      modifies this`vault
      ensures VaultOk(vault) && Added(old(vault), vault, token, val, order)
      ensures vault.Keys == old(vault).Keys + {token} && |vault| <= old(|vault|) + 1
    {
      hide IsTokenOf, IsToken, VaultOk;
      if t :| t in vault && vault[t] == val {
        assert vault.Keys + {t} == vault.Keys;
        return t;
      }
      ghost var unused := FreshTokenExists(vault, order);
      token :| IsTokenOf(token, order) && token !in vault;
      VaultAdd(vault, token, val, order);
      vault := vault[token := val];
    }

    /** Puts a token in place of one span and counts it. */
    method ReplaceHit(text: string, h: Hit) returns (out: string, token: string)
      requires Valid() && HitOk(text, h) && |vault| < SUFFIXES
      modifies this
      ensures Valid() && Added(old(vault), vault, token, text[h.start..h.end], h.order)
      ensures scope == old(scope)[token := Count(old(scope), token) + 1]
      ensures |vault| <= old(|vault|) + 1
      ensures out == text[..h.start] + token + text[h.end..]
    {
      hide IsTokenOf, IsToken, VaultOk, Added;
      var val := text[h.start..h.end];
      token := TokenFor(val, h.order);
      scope := scope[token := Count(scope, token) + 1];
      out := text[..h.start] + token + text[h.end..];
    }

    /** Replaces the accepted spans from the last to the first, so that earlier offsets stay valid. */
    method ReplaceHits(text: string, acc: seq<Hit>) returns (out: string, ghost toks: seq<string>)
      requires Valid() && Ordered(text, acc, 0) && |vault| + |acc| <= SUFFIXES
      modifies this
      ensures Valid() && |vault| <= old(|vault|) + |acc|
      ensures Masked(text, acc, toks, out, old(vault), vault, old(scope), scope)
    {
      hide IsTokenOf, IsToken, VaultOk, Recorded, Added, Rewritten, Ordered;
      RewrittenNone(text, acc);
      RecordNone(text, vault, scope);
      out, toks := text, [];
      var i := |acc|;
      assert acc[i..] == [];
      while i > 0
        invariant 0 <= i <= |acc| && |toks| == |acc| - i
        invariant Valid() && |vault| <= old(|vault|) + |toks|
        invariant out == Rewritten(text, acc, i, toks)
        invariant Recorded(text, acc[i..], toks, old(vault), vault, old(scope), scope)
      {
        i := i - 1;
        var h := acc[i];
        ghost var v1, s1 := vault, scope;
        RewriteOne(text, acc, i + 1, toks, "");
        var token;
        out, token := ReplaceHit(out, h);
        RewriteOne(text, acc, i + 1, toks, token);
        RecordOne(text, h, acc[i + 1..], token, toks, old(vault), v1, vault, old(scope), s1);
        assert acc[i..] == [h] + acc[i + 1..];
        toks := [token] + toks;
      }
      assert acc[0..] == acc;
      RewrittenAll(text, acc, toks);
    }

    /** Masks one text against the shared vault and scope, returning the masked text. */
    method Sanitize(text: string, found: seq<seq<Span>>) returns (out: string, ghost toks: seq<string>)
      requires Valid() && Detected(text, found) && |vault| + |text| <= SUFFIXES
      modifies this
      ensures Valid() && |vault| <= old(|vault|) + |text|
      ensures Ordered(text, Accepted(found), 0)
      ensures forall a :: a in Accepted(found) ==> FromDetector(found, a)
      ensures forall k, j :: 0 <= k < |found| && 0 <= j < |found[k]| ==>
        exists a :: a in Accepted(found) && a.start <= found[k][j].start < a.end &&
                    (a.start == found[k][j].start ==> a.order <= k)
      ensures Masked(text, Accepted(found), toks, out, old(vault), vault, old(scope), scope)
      ensures out == text <==> forall k :: 0 <= k < |found| ==> found[k] == []
    {
      hide IsTokenOf, IsToken, VaultOk, Grew, Typed, Counted, FromDetector;
      var hits := CollectHits(found);
      var accepted := AcceptHits(SortHits(hits));
      AcceptedSpans(text, found);
      OrderedHits(text, accepted, 0);
      out, toks := ReplaceHits(text, accepted);
      MaskingChangesText(text, accepted, toks, vault);
    }
  }

  method CollectHits(found: seq<seq<Span>>) returns (hits: seq<Hit>)
    ensures hits == Collect(found)
  {
    hits := [];
    for order := 0 to |found|
      invariant hits == Collect(found[..order])
    {
      var spans := found[order];
      ghost var before := hits;
      for j := 0 to |spans|
        invariant hits == before + HitsOf(spans, order)[..j]
      {
        hits := hits + [Hit(spans[j].start, spans[j].end, order)];
      }
      assert found[..order + 1][..order] == found[..order];
    }
    assert found[..|found|] == found;
  }

  method AcceptHits(hits: seq<Hit>) returns (accepted: seq<Hit>)
    ensures accepted == Greedy(hits, 0)
  {
    accepted := [];
    var lastEnd := 0;
    for i := 0 to |hits|
      invariant accepted + Greedy(hits[i..], lastEnd) == Greedy(hits, 0)
    {
      var h := hits[i];
      assert hits[i..][1..] == hits[i + 1..];
      if h.start >= lastEnd {
        lastEnd := h.end;
        accepted := accepted + [h];
      }
    }
  }

  // ---------- Masking always shows ----------

  function Opens(s: string): nat {
    if s == [] then 0 else (if s[0] == '[' then 1 else 0) + Opens(s[1..])
  }

  lemma {:induction false} OpensConcat(a: string, b: string)
    ensures Opens(a + b) == Opens(a) + Opens(b)
  {
    if a == [] {
      assert a + b == b;
    } else {
      assert (a + b)[1..] == a[1..] + b;
      OpensConcat(a[1..], b);
    }
  }

  lemma {:induction false} OpensFree(s: string)
    requires NoOpen(s)
    ensures Opens(s) == 0
  {
    if s != [] { OpensFree(s[1..]); }
  }

  /** Each inserted token adds one opening bracket to the text it replaces. */
  lemma {:induction false} OpensWoven(lits: seq<string>, toks: seq<string>, vals: seq<string>)
    requires |lits| == |toks| + 1 && |vals| == |toks|
    requires forall i :: 0 <= i < |toks| ==> Bracketed(toks[i]) && BracketFree(vals[i])
    ensures Opens(Woven(lits, toks)) == Opens(Woven(lits, vals)) + |toks|
  {
    if toks != [] {
      OpensWoven(lits[1..], toks[1..], vals[1..]);
      OpensConcat(lits[0] + toks[0], Woven(lits[1..], toks[1..]));
      OpensConcat(lits[0] + vals[0], Woven(lits[1..], vals[1..]));
      OpensConcat(lits[0], toks[0]);
      OpensConcat(lits[0], vals[0]);
      OpensFree(vals[0]);
      OpensFree(toks[0][1..]);
    }
  }

  lemma {:induction false} StoodFor(text: string, acc: seq<Hit>, toks: seq<string>, vault: map<string, string>)
    requires VaultOk(vault) && StandFor(text, acc, toks, vault)
    ensures forall i :: 0 <= i < |toks| ==> Bracketed(toks[i]) && BracketFree(Values(text, acc)[i])
  {
    forall i | 0 <= i < |toks| ensures Bracketed(toks[i]) { TokenShape(toks[i]); }
  }

  /** The masked text equals the original exactly when nothing was accepted. */
  lemma {:induction false} MaskingChangesText(text: string, acc: seq<Hit>, toks: seq<string>,
                                              vault: map<string, string>)
    requires Ordered(text, acc, 0) && VaultOk(vault) && StandFor(text, acc, toks, vault)
    ensures Woven(Literals(text, acc, 0), toks) == text <==> acc == []
  {
    OrderedHits(text, acc, 0);
    LiteralsRebuildText(text, acc, 0);
    StoodFor(text, acc, toks, vault);
    OpensWoven(Literals(text, acc, 0), toks, Values(text, acc));
    assert text[0..] == text;
  }

  // ---------- Main results ----------

  lemma {:induction false} RestoreMasked(text: string, acc: seq<Hit>, toks: seq<string>, r: map<string, string>,
                                         order: seq<string>)
    requires Ordered(text, acc, 0) && |toks| == |acc| && Tokens(r) && HitsOk(text, acc)
    requires Enumerates(order, r) && (forall t :: t in r ==> !Contains(text, t))
    requires forall i :: 0 <= i < |toks| ==> toks[i] in r && BracketFree(text[acc[i].start..acc[i].end])
    requires forall i :: 0 <= i < |toks| ==>
      r[toks[i]] == text[acc[i].start..acc[i].end] || (Bracketed(r[toks[i]]) && r[toks[i]] !in r)
    ensures Sequential(Woven(Literals(text, acc, 0), toks), order, r) ==
      Woven(Literals(text, acc, 0), Settled(toks, order, r))
  {
    LiteralsRebuildText(text, acc, 0);
    assert text[0..] == text;
    RestoreWoven(Literals(text, acc, 0), toks, Values(text, acc), order, r);
  }

  /** Round trip: restoring a masked text with the final vault, in any iteration order, gives back the
      original text, provided no vault token occurs in it. */
  lemma {:induction false} RestoreUndoesSanitize(text: string, acc: seq<Hit>, toks: seq<string>,
                                                 vault: map<string, string>, scope: map<string, nat>,
                                                 order: seq<string>)
    requires Ordered(text, acc, 0) && VaultOk(vault) && vault.Keys <= scope.Keys && StandFor(text, acc, toks, vault)
    requires Enumerates(order, vault)
    requires forall t :: t in vault ==> !Contains(text, t)
    ensures Tokens(vault) && Replacement(vault, scope, "restore") == vault
    ensures Sequential(Woven(Literals(text, acc, 0), toks), order, vault) == text
  {
    ReplacementKeys(vault, scope, "restore");
    ReplacementRestores(vault, scope);
    hide VaultOk;
    RestoreMasked(text, acc, toks, vault, order);
    assert Settled(toks, order, vault) == Values(text, acc);
    LiteralsRebuildText(text, acc, 0);
    assert text[0..] == text;
  }

  lemma {:induction false} ReplacementRestores(vault: map<string, string>, scope: map<string, nat>)
    requires vault.Keys <= scope.Keys
    ensures Replacement(vault, scope, "restore") == vault
  {
  }

  /** Under `mask` the same text comes back with each span shown as its type label, whatever the values. */
  lemma {:induction false} MaskShowsLabels(text: string, acc: seq<Hit>, toks: seq<string>, vault: map<string, string>,
                                           scope: map<string, nat>, policy: string, r: map<string, string>,
                                           order: seq<string>)
    requires Ordered(text, acc, 0) && VaultOk(vault) && StandFor(text, acc, toks, vault)
    requires policy != "restore" && r == Replacement(vault, scope, policy) && Enumerates(order, r)
    requires forall t :: t in vault ==> !Contains(text, t)
    ensures Tokens(r)
    ensures Sequential(Woven(Literals(text, acc, 0), toks), order, r) == Woven(Literals(text, acc, 0), Labels(toks))
  {
    ReplacementLabels(vault, scope, policy);
    SettleLabels(toks, order, r);
    hide VaultOk, Replacement, Label, Literals, Woven, Sequential, Ordered;
    RestoreMasked(text, acc, toks, r, order);
  }

  lemma {:induction false} SettleLabels(toks: seq<string>, order: seq<string>, r: map<string, string>)
    requires Enumerates(order, r) && (forall t :: t in toks ==> t in r) && (forall t :: t in r ==> r[t] == Label(t))
    ensures Settled(toks, order, r) == Labels(toks)
  {
    forall i | 0 <= i < |toks| ensures Settled(toks, order, r)[i] == Labels(toks)[i] {
      assert toks[i] in toks;
    }
  }

  lemma {:induction false} ReplacementLabels(vault: map<string, string>, scope: map<string, nat>, policy: string)
    requires VaultOk(vault) && policy != "restore"
    ensures var r := Replacement(vault, scope, policy);
      r.Keys == vault.Keys && Tokens(r) && forall t :: t in r ==> r[t] == Label(t) && Bracketed(r[t]) && r[t] !in r
  {
    hide IsTokenOf, IsToken;
    ReplacementTokens(vault, scope, policy);
  }

  function Labels(toks: seq<string>): (ls: seq<string>)
    ensures |ls| == |toks| && forall i :: 0 <= i < |toks| ==> ls[i] == Label(toks[i])
  {
    seq(|toks|, i requires 0 <= i < |toks| => Label(toks[i]))
  }

  // ---------- When the proviso is needed ----------

  lemma {:induction false} ReplaceAllOpens(s: string, p: string, v: string)
    requires Bracketed(p) && BracketFree(v)
    ensures Opens(ReplaceAll(s, p, v)) <= Opens(s)
    ensures if Contains(s, p) then Opens(ReplaceAll(s, p, v)) < Opens(s) else ReplaceAll(s, p, v) == s
    decreases |s|
  {
    if s == [] {
    } else if p <= s {
      var rest := s[|p|..];
      assert p <= s[0..];
      assert s == p + rest;
      ReplaceAllOpens(rest, p, v);
      OpensConcat(v, ReplaceAll(rest, p, v));
      OpensConcat(p, rest);
      OpensFree(v);
    } else {
      ReplaceAllOpens(s[1..], p, v);
      ContainsFirst(s, p);
    }
  }

  lemma {:induction false} ContainsFirst(s: string, p: string)
    requires s != [] && !(p <= s)
    ensures Contains(s, p) <==> Contains(s[1..], p)
  {
    if Contains(s, p) {
      var i :| 0 <= i <= |s| && p <= s[i..];
      assert s[0..] == s;
      assert s[1..][i - 1..] == s[i..];
    }
    if Contains(s[1..], p) { ContainsInTail(s, p); }
  }

  lemma {:induction false} SequentialOpens(s: string, order: seq<string>, r: map<string, string>)
    requires Tokens(r) && (forall t :: t in order ==> t in r && t != [] && BracketFree(r[t]))
    ensures if exists t :: t in order && Contains(s, t) then Opens(Sequential(s, order, r)) < Opens(s)
            else Sequential(s, order, r) == s
  {
    if order != [] {
      var n := |order| - 1;
      var before, p := order[..n], order[n];
      assert order == before + [p];
      assert p in order && forall t :: t in before ==> t in order;
      SequentialOpens(s, before, r);
      ReplaceAllOpens(Sequential(s, before, r), p, r[p]);
    }
  }

  /** The proviso is exact for a text without detector hits: restoring gives the text back if and only if
      no vault token occurs in it. */
  lemma {:induction false} RestoreKeepsIff(text: string, vault: map<string, string>, order: seq<string>)
    requires VaultOk(vault) && Enumerates(order, vault)
    ensures Tokens(vault)
    ensures Sequential(text, order, vault) == text <==> forall t :: t in vault ==> !Contains(text, t)
  {
    ReplacementKeys(vault, map[], "restore");
    hide IsToken, IsTokenOf;
    SequentialOpens(text, order, vault);
  }

  /** The proviso is exact for a masked text too, with hits or without, when no value occurs in its own token:
      every iteration order gives the text back if and only if no vault token occurs in the text. */
  lemma {:induction false} RestoreUndoesIff(text: string, acc: seq<Hit>, toks: seq<string>,
                                            vault: map<string, string>, scope: map<string, nat>)
    requires Ordered(text, acc, 0) && VaultOk(vault) && vault.Keys <= scope.Keys && StandFor(text, acc, toks, vault)
    requires forall t :: t in vault ==> !Contains(t, vault[t])
    ensures Tokens(vault) && Replacement(vault, scope, "restore") == vault
    ensures (forall order :: Enumerates(order, vault) ==>
      Sequential(Woven(Literals(text, acc, 0), toks), order, vault) == text)
            <==> forall t :: t in vault ==> !Contains(text, t)
  {
    ReplacementKeys(vault, scope, "restore");
    ReplacementRestores(vault, scope);
    var masked := Woven(Literals(text, acc, 0), toks);
    if forall t :: t in vault ==> !Contains(text, t) {
      hide Contains, Woven, Literals;
      forall order | Enumerates(order, vault) ensures Sequential(masked, order, vault) == text {
        RestoreUndoesSanitize(text, acc, toks, vault, scope, order);
      }
    } else {
      hide Contains, Woven, Literals, VaultOk, Sequential;
      var t :| t in vault && Contains(text, t);
      LastLeavesNone(masked, vault, t, text);
    }
  }

  /** With its token replaced last, a text that holds the token does not come back. */
  lemma {:induction false} LastLeavesNone(masked: string, vault: map<string, string>, t: string, text: string)
    requires Tokens(vault) && VaultOk(vault) && t in vault && !Contains(t, vault[t]) && Contains(text, t)
    ensures exists order :: Enumerates(order, vault) && Sequential(masked, order, vault) != text
  {
    hide Contains, IsToken, IsTokenOf;
    assert Bracketed(t) && BracketFree(vault[t]);
    hide VaultOk, Bracketed, BracketFree, ReplaceAll;
    var others := EnumerationExists(vault.Keys - {t});
    var order := others + [t];
    assert order[..|others|] == others;
    PassLeavesNone(Sequential(masked, others, vault), t, vault[t]);
    assert Enumerates(order, vault);
    assert Sequential(masked, order, vault) != text;
  }
}
