/** The masking part of the inspector chain: all messages of a request share one vault. */
module InspectorChain {
  import opened Wrappers
  import opened Substitution
  import opened Weave
  import opened Dlp
  import opened Sanitize

  datatype Message = Message(role: string, content: Option<string>)

  /** The detectors applied to a text. */
  type Detectors = string -> seq<seq<Span>>

  predicate HasHits(found: seq<seq<Span>>) {
    exists k :: 0 <= k < |found| && found[k] != []
  }

  predicate Sensitive(m: Message, detect: Detectors) {
    m.content.Some? && HasHits(detect(m.content.value))
  }

  function Length(m: Message): nat {
    match m.content case Some(c) => |c| case None => 0
  }

  function TotalLength(ms: seq<Message>): nat {
    if ms == [] then 0 else TotalLength(ms[..|ms| - 1]) + Length(ms[|ms| - 1])
  }

  /** `m'` is `m` with every accepted span replaced by a token that the vault maps back to its text. */
  ghost predicate MaskedMessage(m: Message, m': Message, vault: map<string, string>, detect: Detectors) {
    && m'.role == m.role
    && match m.content
       case None => m'.content == None
       case Some(c) =>
         var acc := Accepted(detect(c));
         && Ordered(c, acc, 0)
         && exists toks: seq<string> :: StandFor(c, acc, toks, vault) &&
                                        m'.content == Some(Woven(Literals(c, acc, 0), toks))
  }

  lemma {:induction false} MaskedStays(m: Message, m': Message, vault: map<string, string>,
                                       vault': map<string, string>, detect: Detectors)
    requires MaskedMessage(m, m', vault, detect)
    requires forall t :: t in vault ==> t in vault' && vault'[t] == vault[t]
    ensures MaskedMessage(m, m', vault', detect)
  {
    hide Literals, Woven, Accepted, Ordered;
    if m.content.Some? {
      var c := m.content.value;
      var acc := Accepted(detect(c));
      var toks :| StandFor(c, acc, toks, vault) && m'.content == Some(Woven(Literals(c, acc, 0), toks));
      assert StandFor(c, acc, toks, vault');
    }
  }

  ghost predicate AllMasked(ms: seq<Message>, ms': seq<Message>, vault: map<string, string>, detect: Detectors) {
    |ms'| == |ms| && forall i :: 0 <= i < |ms| ==> MaskedMessage(ms[i], ms'[i], vault, detect)
  }

  lemma {:induction false} OneMoreMasked(ms: seq<Message>, ms': seq<Message>, m: Message, m': Message,
                                         vault: map<string, string>, vault': map<string, string>, detect: Detectors)
    requires AllMasked(ms, ms', vault, detect) && MaskedMessage(m, m', vault', detect)
    requires forall t :: t in vault ==> t in vault' && vault'[t] == vault[t]
    ensures AllMasked(ms + [m], ms' + [m'], vault', detect)
  {
    hide MaskedMessage;
    forall i | 0 <= i < |ms| ensures MaskedMessage(ms[i], ms'[i], vault', detect) {
      MaskedStays(ms[i], ms'[i], vault, vault', detect);
    }
  }

  lemma {:induction false} SanitizedMessage(m: Message, out: string, detect: Detectors, toks: seq<string>,
                                            vault: map<string, string>)
    requires m.content.Some?
    requires var c := m.content.value; var acc := Accepted(detect(c));
      Ordered(c, acc, 0) && StandFor(c, acc, toks, vault) && out == Woven(Literals(c, acc, 0), toks)
    ensures MaskedMessage(m, m.(content := Some(out)), vault, detect)
  {
  }

  lemma {:induction false} LengthStep(ms: seq<Message>, i: nat)
    requires i < |ms|
    ensures TotalLength(ms[..i + 1]) == TotalLength(ms[..i]) + Length(ms[i])
    ensures TotalLength(ms[..i + 1]) <= TotalLength(ms)
  {
    assert ms[..i + 1][..i] == ms[..i];
    LengthGrows(ms, i + 1);
  }

  lemma {:induction false} NothingYet(ms: seq<Message>)
    ensures TotalLength(ms[..0]) == 0
  {
  }

  lemma {:induction false} LengthGrows(ms: seq<Message>, i: nat)
    requires i <= |ms|
    ensures TotalLength(ms[..i]) <= TotalLength(ms)
  {
    if i < |ms| {
      LengthGrows(ms[..|ms| - 1], i);
      assert ms[..|ms| - 1][..i] == ms[..i];
    } else {
      assert ms[..i] == ms;
    }
  }

  /** Every message content of a conversation comes back when restored with the final vault, whatever the
      iteration order, as long as no vault token occurs in it. */
  lemma {:induction false} ConversationRoundTrip(ms: seq<Message>, ms': seq<Message>, vault: map<string, string>,
                                                 scope: map<string, nat>, detect: Detectors, i: nat,
                                                 order: seq<string>)
    requires AllMasked(ms, ms', vault, detect) && i < |ms| && ms[i].content.Some?
    requires VaultOk(vault) && vault.Keys <= scope.Keys && Enumerates(order, vault)
    requires forall t :: t in vault ==> !Contains(ms[i].content.value, t)
    ensures Tokens(vault) && Replacement(vault, scope, "restore") == vault
    ensures ms'[i].content.Some? && Sequential(ms'[i].content.value, order, vault) == ms[i].content.value
  {
    hide VaultOk, Literals, Woven, Accepted, Ordered, Contains;
    assert MaskedMessage(ms[i], ms'[i], vault, detect);
    var c := ms[i].content.value;
    var acc := Accepted(detect(c));
    var toks :| StandFor(c, acc, toks, vault) && ms'[i].content == Some(Woven(Literals(c, acc, 0), toks));
    RestoreUndoesSanitize(c, acc, toks, vault, scope, order);
  }

  lemma {:induction false} SwapOne(now: seq<Message>, done: seq<Message>, before: seq<Message>, i: nat, m: Message)
    requires i < |before| && |done| == i && now == done + before[i..]
    ensures now[i := m] == (done + [m]) + before[i + 1..]
  {
  }

  class Chain {
    const mode: string
    const restorePolicy: string

    constructor (mode: string, restorePolicy: string)
      ensures this.mode == mode && this.restorePolicy == restorePolicy
    {
      this.mode, this.restorePolicy := mode, restorePolicy;
    }

    method MaskOne(m: Message, detect: Detectors, state: DlpState) returns (m': Message)
      requires state.Valid() && (forall s: string :: Detected(s, detect(s)))
      requires |state.vault| + Length(m) <= SUFFIXES
      modifies state
      ensures state.Valid() && |state.vault| <= old(|state.vault|) + Length(m)
      ensures MaskedMessage(m, m', state.vault, detect)
      ensures forall t :: t in old(state.vault) ==> t in state.vault && state.vault[t] == old(state.vault)[t]
    {
      hide VaultOk, Accepted, Ordered, Detected, StandFor, Typed, Counted, MaskedMessage;
      if m.content.Some? {
        var content := m.content.value;
        ghost var toks;
        var masked;
        masked, toks := state.Sanitize(content, detect(content));
        SanitizedMessage(m, masked, detect, toks, state.vault);
        m' := m.(content := Some(masked));
      } else {
        NoContent(m, state.vault, detect);
        m' := m;
      }
    }

    /** `mask`: rewrites every message text against one shared vault. */
    method MaskAll(messages: array<Message>, detect: Detectors, state: DlpState)
      requires state.Valid() && state.vault == map[]
      requires forall s: string :: Detected(s, detect(s))
      requires TotalLength(messages[..]) <= SUFFIXES
      modifies messages, state
      ensures state.Valid()
      ensures AllMasked(old(messages[..]), messages[..], state.vault, detect)
    {
      hide MaskedMessage, VaultOk, Detected, TotalLength, AllMasked;
      ghost var before := messages[..];
      ghost var done := [];
      NothingYet(before);
      assert AllMasked(before[..0], done, state.vault, detect) by { NoneMasked(state.vault, detect); }
      for i := 0 to messages.Length
        invariant state.Valid() && |state.vault| <= TotalLength(before[..i])
        invariant messages[..] == done + before[i..] && |done| == i
        invariant AllMasked(before[..i], done, state.vault, detect)
      {
        LengthStep(before, i);
        ghost var v := state.vault;
        assert messages[i] == messages[..][i] == before[i];
        var masked := MaskOne(messages[i], detect, state);
        OneMoreMasked(before[..i], done, before[i], masked, v, state.vault, detect);
        assert before[..i + 1] == before[..i] + [before[i]];
        SwapOne(messages[..], done, before, i, masked);
        messages[i] := masked;
        done := done + [masked];
      }
      assert before[..messages.Length] == before && messages[..] == done;
    }

    method IsSensitive(m: Message, detect: Detectors) returns (found: bool)
      requires (forall s: string :: Detected(s, detect(s))) && Length(m) <= SUFFIXES
      ensures found <==> Sensitive(m, detect)
    {
      hide VaultOk, Accepted, Ordered, Detected, Masked;
      if m.content.None? {
        return false;
      }
      var content := m.content.value;
      var tmp := new DlpState();
      ghost var toks;
      var sanitized;
      sanitized, toks := tmp.Sanitize(content, detect(content));
      return sanitized != content;
    }

    /** `block`: refuses the request at the first text that sanitizing would change. */
    method FindSensitive(messages: array<Message>, detect: Detectors) returns (found: bool)
      requires forall s: string :: Detected(s, detect(s))
      requires TotalLength(messages[..]) <= SUFFIXES
      ensures found <==> exists i :: 0 <= i < messages.Length && Sensitive(messages[i], detect)
    {
      hide Sensitive, Detected, TotalLength;
      for i := 0 to messages.Length
        invariant forall j :: 0 <= j < i ==> !Sensitive(messages[j], detect)
      {
        LengthStep(messages[..], i);
        found := IsSensitive(messages[i], detect);
        if found {
          return;
        }
      }
      return false;
    }

    /** The masking part of a request: an error in `block` mode, a filled vault in `mask` mode, and an
        untouched payload otherwise. */
    method ProcessRequest(messages: array<Message>, detect: Detectors) returns (r: Result<DlpState, string>)
      requires forall s: string :: Detected(s, detect(s))
      requires TotalLength(messages[..]) <= SUFFIXES
      modifies messages
      ensures r.Failure? <==>
        mode == "block" && exists i :: 0 <= i < messages.Length && Sensitive(old(messages[i]), detect)
      ensures r.Success? ==> fresh(r.value) && r.value.Valid()
      ensures mode != "mask" ==> messages[..] == old(messages[..]) && (r.Success? ==> r.value.vault == map[])
      ensures mode == "mask" ==> AllMasked(old(messages[..]), messages[..], r.value.vault, detect)
    {
      var state := new DlpState();
      if mode == "block" {
        var found := FindSensitive(messages, detect);
        if found {
          return Failure("sensitive data detected (DLP block mode)");
        }
      } else if mode == "mask" {
        MaskAll(messages, detect, state);
      }
      return Success(state);
    }

    /** The answer side: nothing when masking is off, else `Deanonymize` under the configured policy. */
    method ProcessResponse(text: string, state: DlpState) returns (out: string, ghost order: seq<string>)
      requires state.Valid()
      ensures mode == "off" ==> out == text
      ensures mode != "off" ==>
        var r := Replacement(state.vault, state.scope, if restorePolicy == "restore" then "restore" else "mask");
        && Tokens(r) && Enumerates(order, r) && out == Sequential(text, order, r)
        && (restorePolicy != "restore" || ValuesApart(state.vault) ==> out == Simultaneous(text, r))
    {
      if mode == "off" {
        return text, [];
      }
      var policy := if restorePolicy == "restore" then "restore" else "mask";
      ReplacementKeys(state.vault, state.scope, policy);
      out, order := Deanonymize(text, state.vault, state.scope, policy);
    }
  }

  lemma {:induction false} NoneMasked(vault: map<string, string>, detect: Detectors)
    ensures forall ms: seq<Message> :: ms == [] ==> AllMasked(ms, [], vault, detect)
  {
  }

  lemma {:induction false} NoContent(m: Message, vault: map<string, string>, detect: Detectors)
    requires m.content.None?
    ensures MaskedMessage(m, m, vault, detect)
  {
  }
}
