/** A streamed answer from its deltas to its audit row: the decoder's output is what the stream's finalisers see. */
module StreamedAnswer {
  import opened Wrappers
  import opened Substitution
  import opened Dlp
  import opened StreamRestore
  import opened StreamLifecycle

  /** What arrives or happens: a chunk with a delta, a chunk without text, the end of the items, or any other event
      of the stream. */
  datatype Item = Delta(usage: Option<Usage>, delta: string) | NoText(usage: Option<Usage>) | End | Other(event: Event)

  predicate Plain(i: Item) {
    i.Other? ==> !i.event.Chunk? && !i.event.EndOfItems?
  }

  /** Everything received. */
  function Fed(items: seq<Item>): string {
    if items == [] then []
    else
      var i := items[|items| - 1];
      Fed(items[..|items| - 1]) + (if i.Delta? then i.delta else [])
  }

  /** What the decoder holds back. */
  function Carried(items: seq<Item>): string {
    if items == [] then []
    else
      var before, i := Carried(items[..|items| - 1]), items[|items| - 1];
      if i.Delta? then TailOf(before + i.delta) else if i.End? then [] else before
  }

  /** The stream's event for the next item: deltas and the end carry what `Session.Feed` and `Session.Flush` return
      for them, under `mask` always and under `restore` when no value occurs inside a different token. */
  ghost function EventOf(items: seq<Item>, i: Item, r: map<string, string>): Event
    requires Tokens(r)
  {
    match i
    case Delta(usage, delta) => Chunk(usage, Simultaneous(HeadOf(Carried(items) + delta), r))
    case NoText(usage) => Chunk(usage, [])
    case End => EndOfItems(Simultaneous(Carried(items), r))
    case Other(e) => e
  }

  ghost predicate Plays(c: Config, items: seq<Item>, r: map<string, string>)
    requires Tokens(r)
  {
    items == [] ||
    var n := |items| - 1;
    && Plays(c, items[..n], r) && Plain(items[n])
    && Enabled(StateAfter(c, items[..n], r), EventOf(items[..n], items[n], r))
  }

  ghost function StateAfter(c: Config, items: seq<Item>, r: map<string, string>): State
    requires Tokens(r)
  {
    if items == [] then START
    else
      var n := |items| - 1;
      var s, e := StateAfter(c, items[..n], r), EventOf(items[..n], items[n], r);
      if Enabled(s, e) then Next(c, s, e) else s
  }

  /** Until the end the text so far begins one pass over everything received; from then on it is that pass. */
  ghost predicate TextOk(s: State, items: seq<Item>, r: map<string, string>)
    requires Tokens(r)
  {
    if s.phase == Streaming then Continues(Fed(items), s.text, Carried(items), r)
    else s.text == Simultaneous(Fed(items), r)
  }

  /** Events other than chunks and the end leave the text alone, and nothing returns to streaming. */
  lemma {:induction false} TextStays(c: Config, s: State, e: Event)
    requires Enabled(s, e) && !e.Chunk? && !e.EndOfItems?
    ensures Next(c, s, e).text == s.text && (Next(c, s, e).phase == Streaming <==> s.phase == Streaming)
  {
    hide UsageNumbers, Captured, StartsCharge, Current;
  }

  lemma {:induction false} ItemKeepsText(c: Config, items: seq<Item>, r: map<string, string>)
    requires Tokens(r) && Decodable(r) && items != [] && Plays(c, items, r)
    requires TextOk(StateAfter(c, items[..|items| - 1], r), items[..|items| - 1], r)
    ensures TextOk(StateAfter(c, items, r), items, r)
  {
    hide Simultaneous, Continues, TailOf, HeadOf, Decodable, Tokens;
    var n := |items| - 1;
    var before, i := items[..n], items[n];
    var s, e := StateAfter(c, before, r), EventOf(before, i, r);
    var s' := Next(c, s, e);
    match i
    case Delta(_, delta) => FeedContinues(Fed(before), s.text, Carried(before), delta, r);
    case NoText(_) => assert Fed(before) + [] == Fed(before) && s.text + [] == s.text;
    case End =>
      assert Fed(before) + [] == Fed(before);
      FlushCompletes(Fed(before), s.text, Carried(before), r);
    case Other(_) =>
      assert Fed(before) + [] == Fed(before);
      TextStays(c, s, e);
  }

  lemma {:induction false} AnswerInv(c: Config, items: seq<Item>, r: map<string, string>)
    requires Tokens(r) && Decodable(r) && Plays(c, items, r)
    ensures TextOk(StateAfter(c, items, r), items, r) && Inv(c, StateAfter(c, items, r))
  {
    if items == [] {
      StartContinues(r);
      StartInv(c);
    } else {
      var n := |items| - 1;
      AnswerInv(c, items[..n], r);
      ItemKeepsText(c, items, r);
      StepInv(c, StateAfter(c, items[..n], r), EventOf(items[..n], items[n], r));
      hide Inv, Next, TextOk, Decodable, Tokens;
    }
  }

  /** The audited text, under every interleaving: an "ok" row holds one restoring pass over everything that the
      provider sent, and any other row that pass, too, once the items had ended, and before that its beginning. */
  lemma {:induction false} RowHoldsAnswer(c: Config, items: seq<Item>, vault: map<string, string>,
                                          scope: map<string, nat>, policy: string)
    requires VaultOk(vault) && Plays(c, items, Restoring(vault, scope, policy))
    ensures var r := Restoring(vault, scope, policy); var s := StateAfter(c, items, r);
      forall row :: row in s.rows ==>
        && (row.code == Ok || s.phase != Streaming ==> row.text == Simultaneous(Fed(items), r))
        && (s.phase == Streaming ==> Continues(Fed(items), row.text, Carried(items), r))
  {
    hide Simultaneous, Continues, VaultOk, Replacement;
    var r := Restoring(vault, scope, policy);
    SanitizedIsDecodable(vault, scope, policy);
    AnswerInv(c, items, r);
  }

  /** The replacements of a session. */
  function Restoring(vault: map<string, string>, scope: map<string, nat>, policy: string): (r: map<string, string>)
    requires VaultOk(vault)
    ensures Tokens(r)
  {
    SanitizedIsDecodable(vault, scope, policy);
    Replacement(vault, scope, policy)
  }
}
