/** The policy engine: which provider serves a request, given blocked sources, the attack override, the
    configured chain and the budget rules. */
module PolicyEngine {
  import opened Wrappers
  import opened DayKeys
  import opened AttackWindow

  datatype Threshold = Threshold(gt: Option<real>, gte: Option<real>, lt: Option<real>, lte: Option<real>)
  {
    predicate Matches(value: real) {
      && (gt.Some? ==> value > gt.value)
      && (gte.Some? ==> value >= gte.value)
      && (lt.Some? ==> value < lt.value)
      && (lte.Some? ==> value <= lte.value)
    }
  }

  datatype Rule = Rule(provider: Option<string>, tokensToday: Option<Threshold>, nextInChain: bool,
                       switchTo: Option<string>)

  datatype Routing = Routing(chain: seq<string>, mapping: map<string, map<string, string>>, rules: seq<Rule>,
                             failover: Failover)

  datatype RoutingError = Blocked | BudgetExhausted(candidates: seq<string>)

  /** Tokens per provider and day. */
  type Tokens = map<(string, string), int>

  function Used(tokens: Tokens, provider: string, day: string): int {
    if (provider, day) in tokens then tokens[(provider, day)] else 0
  }

  predicate Violates(rule: Rule, provider: string, used: int) {
    && (rule.provider.Some? ==> rule.provider.value == provider)
    && (rule.tokensToday.Some? ==> rule.tokensToday.value.Matches(used as real))
  }

  /** The rules that a provider violates, in order. */
  function Violating(rules: seq<Rule>, provider: string, used: int): seq<Rule> {
    if rules == [] then []
    else
      var n := |rules| - 1;
      Violating(rules[..n], provider, used) + (if Violates(rules[n], provider, used) then [rules[n]] else [])
  }

  /** Who serves when it is this candidate's turn; `None` passes on to the next one. */
  function Decision(rules: seq<Rule>, used: string -> int, candidate: string): Option<string> {
    var violating := Violating(rules, candidate, used(candidate));
    if violating == [] then Some(candidate) else violating[0].switchTo
  }

  /** The decision of the first candidate that has one. */
  function Pick(rules: seq<Rule>, used: string -> int, candidates: seq<string>): Option<string> {
    if candidates == [] then None
    else
      var d := Decision(rules, used, candidates[0]);
      if d.Some? then d else Pick(rules, used, candidates[1..])
  }

  function ChainOf(r: Routing): seq<string> {
    if r.chain == [] then ["default"] else r.chain
  }

  /** Removes repeats that stand next to each other. */
  function Dedup(s: seq<string>): seq<string> {
    if |s| <= 1 then s else if s[0] == s[1] then Dedup(s[1..]) else [s[0]] + Dedup(s[1..])
  }

  function Candidates(r: Routing, override: Option<string>): seq<string> {
    if override.Some? then Dedup([override.value] + ChainOf(r)) else ChainOf(r)
  }

  function ConcreteModel(r: Routing, model: string, provider: string): string {
    if model in r.mapping && provider in r.mapping[model] then r.mapping[model][provider] else model
  }

  function Choice(r: Routing, used: string -> int, candidates: seq<string>, model: string)
      : Result<(string, string), RoutingError> {
    match Pick(r.rules, used, candidates)
    case Some(p) => Success((p, ConcreteModel(r, model, p)))
    case None => Failure(BudgetExhausted(candidates))
  }

  // ---------- First match ----------

  /** Rule `k` is the first that the provider violates. */
  ghost predicate FirstViolated(rules: seq<Rule>, provider: string, used: int, k: int) {
    && 0 <= k < |rules| && Violates(rules[k], provider, used)
    && forall j :: 0 <= j < k ==> !Violates(rules[j], provider, used)
  }

  ghost predicate Clean(rules: seq<Rule>, provider: string, used: int) {
    forall k :: 0 <= k < |rules| ==> !Violates(rules[k], provider, used)
  }

  /** A candidate decides for `p`: it violates nothing and is `p`, or the first rule it violates switches to `p`. */
  ghost predicate DecidesFor(rules: seq<Rule>, used: string -> int, candidate: string, p: string) {
    || (Clean(rules, candidate, used(candidate)) && p == candidate)
    || exists k :: FirstViolated(rules, candidate, used(candidate), k) && rules[k].switchTo == Some(p)
  }

  /** A candidate passes: the first rule it violates names no provider to switch to. */
  ghost predicate Passes(rules: seq<Rule>, used: string -> int, candidate: string) {
    exists k :: FirstViolated(rules, candidate, used(candidate), k) && rules[k].switchTo.None?
  }

  lemma {:induction false} ViolatingClean(rules: seq<Rule>, provider: string, used: int)
    ensures Violating(rules, provider, used) == [] <==> Clean(rules, provider, used)
  {
    hide Violates;
    if rules != [] {
      var n := |rules| - 1;
      assert forall k :: 0 <= k < n ==> rules[..n][k] == rules[k];
      ViolatingClean(rules[..n], provider, used);
    }
  }

  lemma {:induction false} ViolatingFirst(rules: seq<Rule>, provider: string, used: int)
    ensures Violating(rules, provider, used) == [] <==> Clean(rules, provider, used)
    ensures Violating(rules, provider, used) != [] ==>
      exists k :: FirstViolated(rules, provider, used, k) && rules[k] == Violating(rules, provider, used)[0]
  {
    hide Violates;
    ViolatingClean(rules, provider, used);
    if Violating(rules, provider, used) != [] {
      var n := |rules| - 1;
      var init := rules[..n];
      ViolatingClean(init, provider, used);
      if Violating(init, provider, used) == [] {
        assert forall k :: 0 <= k < n ==> init[k] == rules[k];
        assert FirstViolated(rules, provider, used, n);
      } else {
        ViolatingFirst(init, provider, used);
        var k :| FirstViolated(init, provider, used, k) && init[k] == Violating(init, provider, used)[0];
        assert forall j :: 0 <= j <= k ==> init[j] == rules[j];
        assert FirstViolated(rules, provider, used, k);
      }
    }
  }

  lemma {:induction false} DecisionMeans(rules: seq<Rule>, used: string -> int, candidate: string)
    ensures forall p :: Decision(rules, used, candidate) == Some(p) <==> DecidesFor(rules, used, candidate, p)
    ensures Decision(rules, used, candidate).None? <==> Passes(rules, used, candidate)
  {
    ViolatingFirst(rules, candidate, used(candidate));
    hide Violating, Violates;
  }

  /** First match: `p` is picked exactly when some candidate decides for it and all before that one pass, and
      none is picked exactly when all pass. */
  lemma {:induction false} PickIsFirstMatch(rules: seq<Rule>, used: string -> int, candidates: seq<string>)
    ensures forall p :: Pick(rules, used, candidates) == Some(p) <==>
      exists i :: 0 <= i < |candidates| && DecidesFor(rules, used, candidates[i], p) &&
                  forall j :: 0 <= j < i ==> Passes(rules, used, candidates[j])
    ensures Pick(rules, used, candidates).None? <==>
      forall j :: 0 <= j < |candidates| ==> Passes(rules, used, candidates[j])
  {
    forall c ensures forall p :: Decision(rules, used, c) == Some(p) <==> DecidesFor(rules, used, c, p) {
      DecisionMeans(rules, used, c);
    }
    forall c ensures Decision(rules, used, c).None? <==> Passes(rules, used, c) { DecisionMeans(rules, used, c); }
    hide Decision, DecidesFor, Passes;
    PickAt(rules, used, candidates);
  }

  lemma {:induction false} PickAt(rules: seq<Rule>, used: string -> int, candidates: seq<string>)
    ensures forall p :: Pick(rules, used, candidates) == Some(p) <==>
      exists i :: 0 <= i < |candidates| && Decision(rules, used, candidates[i]) == Some(p) &&
                  forall j :: 0 <= j < i ==> Decision(rules, used, candidates[j]).None?
    ensures Pick(rules, used, candidates).None? <==>
      forall j :: 0 <= j < |candidates| ==> Decision(rules, used, candidates[j]).None?
  {
    hide Decision;
    if candidates != [] {
      var rest := candidates[1..];
      PickAt(rules, used, rest);
      assert forall i :: 0 <= i < |rest| ==> rest[i] == candidates[i + 1];
      if Decision(rules, used, candidates[0]).None? && Pick(rules, used, rest).Some? {
        var p := Pick(rules, used, rest).value;
        var i :| 0 <= i < |rest| && Decision(rules, used, rest[i]) == Some(p) &&
                 forall j :: 0 <= j < i ==> Decision(rules, used, rest[j]).None?;
        assert forall j :: 0 <= j < i + 1 ==> Decision(rules, used, candidates[j]).None?;
      }
    }
  }

  // ---------- The override in front of the chain ----------

  /** A chain without one provider. */
  function Without(chain: seq<string>, p: string): seq<string> {
    if chain == [] then [] else (if chain[0] == p then [] else [chain[0]]) + Without(chain[1..], p)
  }

  lemma {:induction false} DedupKeepsPick(rules: seq<Rule>, used: string -> int, s: seq<string>)
    ensures Pick(rules, used, Dedup(s)) == Pick(rules, used, s)
  {
    hide Decision;
    if |s| > 1 {
      DedupKeepsPick(rules, used, s[1..]);
      assert ([s[0]] + Dedup(s[1..]))[1..] == Dedup(s[1..]);
    }
  }

  lemma {:induction false} WithoutKeepsPick(rules: seq<Rule>, used: string -> int, chain: seq<string>, p: string)
    requires Decision(rules, used, p).None?
    ensures Pick(rules, used, Without(chain, p)) == Pick(rules, used, chain)
  {
    hide Decision;
    if chain != [] {
      WithoutKeepsPick(rules, used, chain[1..], p);
      assert [] + Without(chain[1..], p) == Without(chain[1..], p);
      assert ([chain[0]] + Without(chain[1..], p))[1..] == Without(chain[1..], p);
    }
  }

  /** Putting the override in front and dropping adjacent repeats picks as filtering it out of the chain does,
      wherever and however often the chain names it. */
  lemma {:induction false} OverrideFormsAgree(rules: seq<Rule>, used: string -> int, chain: seq<string>, p: string)
    ensures Pick(rules, used, Dedup([p] + chain)) == Pick(rules, used, [p] + Without(chain, p))
  {
    DedupKeepsPick(rules, used, [p] + chain);
    assert ([p] + chain)[1..] == chain && ([p] + Without(chain, p))[1..] == Without(chain, p);
    if Decision(rules, used, p).None? { WithoutKeepsPick(rules, used, chain, p); }
  }

  /** A switch that the Python resolver does not follow: to nobody, or to another candidate. */
  predicate Ignored(target: string, all: seq<string>) {
    target == "" || target in all
  }

  /** Its decision on one candidate. */
  function FilteredDecision(rules: seq<Rule>, used: string -> int, all: seq<string>, candidate: string)
      : Option<string> {
    var violating := Violating(rules, candidate, used(candidate));
    if violating == [] then Some(candidate)
    else if violating[0].switchTo.Some? && !Ignored(violating[0].switchTo.value, all) then violating[0].switchTo
    else None
  }

  function FilteredPick(rules: seq<Rule>, used: string -> int, candidates: seq<string>, all: seq<string>)
      : Option<string> {
    if candidates == [] then None
    else
      var d := FilteredDecision(rules, used, all, candidates[0]);
      if d.Some? then d else FilteredPick(rules, used, candidates[1..], all)
  }

  /** The first rule that a candidate violates switches to `v`. */
  ghost predicate SwitchesTo(rules: seq<Rule>, used: string -> int, candidate: string, v: string) {
    exists k :: FirstViolated(rules, candidate, used(candidate), k) && rules[k].switchTo == Some(v)
  }

  /** The first rule that a candidate violates names nobody, or a provider that is not switched to. */
  ghost predicate FilteredPasses(rules: seq<Rule>, used: string -> int, all: seq<string>, candidate: string) {
    exists k :: FirstViolated(rules, candidate, used(candidate), k) &&
                (rules[k].switchTo.None? || Ignored(rules[k].switchTo.value, all))
  }

  /** Some candidate is `v` and violates nothing, and all before it are passed. */
  ghost predicate ReachesClean(rules: seq<Rule>, used: string -> int, candidates: seq<string>, all: seq<string>,
                               v: string) {
    exists i :: 0 <= i < |candidates| && candidates[i] == v && Clean(rules, v, used(v)) &&
                forall j :: 0 <= j < i ==> FilteredPasses(rules, used, all, candidates[j])
  }

  lemma {:induction false} FilteredDecisionMeans(rules: seq<Rule>, used: string -> int, all: seq<string>,
                                                 candidate: string)
    ensures FilteredDecision(rules, used, all, candidate).None? <==> FilteredPasses(rules, used, all, candidate)
    ensures forall v :: Ignored(v, all) ==>
      (FilteredDecision(rules, used, all, candidate) == Some(v) <==> candidate == v && Clean(rules, v, used(v)))
  {
    ViolatingFirst(rules, candidate, used(candidate));
    hide Violating, Violates;
  }

  /** The Python resolver picks a provider that it does not switch to exactly when it reaches it clean. */
  lemma {:induction false} FilteredPickIs(rules: seq<Rule>, used: string -> int, candidates: seq<string>,
                                          all: seq<string>, v: string)
    requires Ignored(v, all)
    ensures FilteredPick(rules, used, candidates, all) == Some(v) <==> ReachesClean(rules, used, candidates, all, v)
  {
    if candidates != [] {
      var c, rest := candidates[0], candidates[1..];
      FilteredPickIs(rules, used, rest, all, v);
      FilteredDecisionMeans(rules, used, all, c);
      hide FilteredDecision, FilteredPasses, Clean;
      if FilteredPasses(rules, used, all, c) {
        ReachesLater(rules, used, candidates, all, v);
      } else if c == v && Clean(rules, v, used(v)) {
        assert ReachesClean(rules, used, candidates, all, v);
      }
    }
  }

  lemma {:induction false} ReachesLater(rules: seq<Rule>, used: string -> int, candidates: seq<string>,
                                        all: seq<string>, v: string)
    requires candidates != [] && FilteredPasses(rules, used, all, candidates[0])
    ensures ReachesClean(rules, used, candidates, all, v) <==> ReachesClean(rules, used, candidates[1..], all, v)
  {
    var rest := candidates[1..];
    PassedIsNotClean(rules, used, all, candidates[0]);
    hide FilteredPasses, Clean;
    if ReachesClean(rules, used, candidates, all, v) {
      var i :| 0 <= i < |candidates| && candidates[i] == v && Clean(rules, v, used(v)) &&
               forall j :: 0 <= j < i ==> FilteredPasses(rules, used, all, candidates[j]);
      assert rest[i - 1] == v && forall j :: 0 <= j < i - 1 ==> rest[j] == candidates[j + 1];
    }
    if ReachesClean(rules, used, rest, all, v) {
      var i :| 0 <= i < |rest| && rest[i] == v && Clean(rules, v, used(v)) &&
               forall j :: 0 <= j < i ==> FilteredPasses(rules, used, all, rest[j]);
      assert candidates[i + 1] == v;
      assert forall j :: 0 < j < i + 1 ==> candidates[j] == rest[j - 1];
      assert forall j :: 0 <= j < i + 1 ==> FilteredPasses(rules, used, all, candidates[j]);
    }
  }

  lemma {:induction false} PassedIsNotClean(rules: seq<Rule>, used: string -> int, all: seq<string>, candidate: string)
    requires FilteredPasses(rules, used, all, candidate)
    ensures !Clean(rules, candidate, used(candidate))
  {
    hide Violates;
  }

  ghost predicate AgreesAt(rules: seq<Rule>, used: string -> int, candidates: seq<string>, all: seq<string>, i: nat)
    requires i < |candidates|
  {
    (forall j :: 0 <= j < i ==> Passes(rules, used, candidates[j])) ==>
      forall v :: SwitchesTo(rules, used, candidates[i], v) && Ignored(v, all) ==>
        ReachesClean(rules, used, candidates[i + 1..], all, v)
  }

  /** What the two implementations need to agree: if the first candidate that does not pass switches to a target
      that Python ignores, then Python must reach that very target, clean, among the later candidates. */
  ghost predicate Agreeable(rules: seq<Rule>, used: string -> int, candidates: seq<string>, all: seq<string>) {
    forall i :: 0 <= i < |candidates| ==> AgreesAt(rules, used, candidates, all, i)
  }

  /** Both resolvers pick alike exactly then. */
  lemma {:induction false} ResolversAgreeIff(rules: seq<Rule>, used: string -> int, candidates: seq<string>,
                                             all: seq<string>)
    ensures FilteredPick(rules, used, candidates, all) == Pick(rules, used, candidates) <==>
      Agreeable(rules, used, candidates, all)
  {
    if candidates != [] {
      var c, rest := candidates[0], candidates[1..];
      DecisionMeans(rules, used, c);
      if Passes(rules, used, c) {
        ResolversAgreeIff(rules, used, rest, all);
        PassesBoth(rules, used, all, c);
        AgreeableLater(rules, used, candidates, all);
      } else {
        DecidesFirst(rules, used, candidates, all);
      }
    }
  }

  lemma {:induction false} PassesBoth(rules: seq<Rule>, used: string -> int, all: seq<string>, c: string)
    requires Passes(rules, used, c)
    ensures FilteredDecision(rules, used, all, c).None? && Decision(rules, used, c).None?
    ensures forall v :: !SwitchesTo(rules, used, c, v)
  {
    FilteredDecisionMeans(rules, used, all, c);
    DecisionMeans(rules, used, c);
    hide Violates, FilteredDecision, Decision;
  }

  lemma {:induction false} AgreeableLater(rules: seq<Rule>, used: string -> int, candidates: seq<string>,
                                          all: seq<string>)
    requires candidates != [] && Passes(rules, used, candidates[0])
    ensures Agreeable(rules, used, candidates, all) <==> Agreeable(rules, used, candidates[1..], all)
  {
    var rest := candidates[1..];
    PassesBoth(rules, used, all, candidates[0]);
    assert AgreesAt(rules, used, candidates, all, 0) by { hide ReachesClean, Passes, Ignored; }
    forall i | 0 <= i < |rest| ensures AgreesAt(rules, used, candidates, all, i + 1) <==>
      AgreesAt(rules, used, rest, all, i) {
      AgreesShifted(rules, used, candidates, all, i);
    }
    hide AgreesAt;
    forall i | 0 < i < |candidates|
      ensures AgreesAt(rules, used, candidates, all, i) <==> AgreesAt(rules, used, rest, all, i - 1)
    {
      var k := i - 1;
      assert AgreesAt(rules, used, candidates, all, k + 1) <==> AgreesAt(rules, used, rest, all, k);
    }
  }

  lemma {:induction false} AgreesShifted(rules: seq<Rule>, used: string -> int, candidates: seq<string>,
                                         all: seq<string>, i: nat)
    requires i + 1 < |candidates| && Passes(rules, used, candidates[0])
    ensures AgreesAt(rules, used, candidates, all, i + 1) <==> AgreesAt(rules, used, candidates[1..], all, i)
  {
    var rest := candidates[1..];
    hide Passes, SwitchesTo, ReachesClean, Ignored;
    assert rest[i + 1..] == candidates[i + 2..];
    assert forall j :: 0 <= j <= i ==> rest[j] == candidates[j + 1];
    assert forall j :: 0 < j <= i ==> candidates[j] == rest[j - 1];
  }

  lemma {:induction false} AgreeableFirst(rules: seq<Rule>, used: string -> int, candidates: seq<string>,
                                          all: seq<string>)
    requires candidates != [] && !Passes(rules, used, candidates[0])
    ensures Agreeable(rules, used, candidates, all) <==>
      forall v :: SwitchesTo(rules, used, candidates[0], v) && Ignored(v, all) ==>
      ReachesClean(rules, used, candidates[1..], all, v)
  {
    hide Passes, SwitchesTo, ReachesClean, Ignored;
    forall i | 0 < i < |candidates| ensures AgreesAt(rules, used, candidates, all, i) { }
    assert Agreeable(rules, used, candidates, all) <==> AgreesAt(rules, used, candidates, all, 0) by { hide AgreesAt; }
  }

  lemma {:induction false} DecidesFirst(rules: seq<Rule>, used: string -> int, candidates: seq<string>,
                                        all: seq<string>)
    requires candidates != [] && !Passes(rules, used, candidates[0])
    ensures FilteredPick(rules, used, candidates, all) == Pick(rules, used, candidates) <==>
      Agreeable(rules, used, candidates, all)
  {
    var c, rest := candidates[0], candidates[1..];
    AgreeableFirst(rules, used, candidates, all);
    OneTarget(rules, used, c, all);
    hide Passes, ReachesClean, Agreeable, Decision, FilteredDecision, SwitchesTo;
    if FilteredDecision(rules, used, all, c).None? {
      FilteredPickIs(rules, used, rest, all, Decision(rules, used, c).value);
    }
  }

  /** A deciding candidate: both decide alike, or it switches to one target that Python ignores. */
  lemma {:induction false} OneTarget(rules: seq<Rule>, used: string -> int, c: string, all: seq<string>)
    requires !Passes(rules, used, c)
    ensures var d, d' := Decision(rules, used, c), FilteredDecision(rules, used, all, c);
      && d.Some?
      && (d'.Some? ==> d' == d && forall v :: SwitchesTo(rules, used, c, v) ==> !Ignored(v, all))
      && (d'.None? ==> Ignored(d.value, all) && forall v :: SwitchesTo(rules, used, c, v) <==> v == d.value)
  {
    ViolatingFirst(rules, c, used(c));
    hide Violating, Violates, Ignored;
  }

  /** In particular when no rule switches to a candidate. */
  ghost predicate SwitchesLeaveChain(rules: seq<Rule>, all: seq<string>) {
    forall k :: 0 <= k < |rules| && rules[k].switchTo.Some? ==> !Ignored(rules[k].switchTo.value, all)
  }

  lemma {:induction false} ResolversAgree(rules: seq<Rule>, used: string -> int, candidates: seq<string>,
                                          all: seq<string>)
    requires SwitchesLeaveChain(rules, all)
    ensures FilteredPick(rules, used, candidates, all) == Pick(rules, used, candidates)
  {
    ResolversAgreeIff(rules, used, candidates, all);
    hide Pick, FilteredPick, ReachesClean, Passes, Ignored, Violates;
  }

  lemma {:induction false} OneRule(rule: Rule, provider: string, used: int)
    requires Violates(rule, provider, used)
    ensures Violating([rule], provider, used) == [rule]
  {
    assert [rule][..0] == [];
  }

  /** They part when a rule sends a provider to a later, exhausted one: one resolver serves it, the other fails. */
  lemma {:induction false} ResolversPart()
    ensures exists rules: seq<Rule>, used: string -> int, all: seq<string> ::
      Pick(rules, used, all).Some? && FilteredPick(rules, used, all, all).None?
  {
    var rule := Rule(None, None, false, Some("b"));
    var rules, all, used := [rule], ["a", "b"], (p: string) => 0;
    assert all[1..] == ["b"] && all[1..][1..] == [] && all[1] == "b";
    OneRule(rule, "a", 0);
    OneRule(rule, "b", 0);
    hide Violating;
    assert Ignored("b", all);
    assert FilteredPick(rules, used, all[1..], all).None?;
    assert Pick(rules, used, all).Some? && FilteredPick(rules, used, all, all).None?;
  }

  /** A rule is violated unless it names another provider, or one of its bounds on the day's tokens does not hold. */
  lemma {:induction false} ViolatesIff(rule: Rule, provider: string, used: int)
    ensures !Violates(rule, provider, used) <==>
      || (rule.provider.Some? && rule.provider.value != provider)
      || (rule.tokensToday.Some? &&
          var t := rule.tokensToday.value;
          || (t.gt.Some? && used as real <= t.gt.value)
          || (t.gte.Some? && (used as real) < t.gte.value)
          || (t.lt.Some? && used as real >= t.lt.value)
          || (t.lte.Some? && used as real > t.lte.value))
  {
  }

  // ---------- Only known providers ----------

  ghost predicate RoutingValid(r: Routing, known: seq<string>) {
    && (forall i :: 0 <= i < |r.chain| ==> r.chain[i] in known)
    && (r.failover.switchTo.Some? ==> r.failover.switchTo.value in known)
  }

  /** Accepts exactly the routings whose chain and failover target are known; else names the first unknown. */
  method ValidateRouting(r: Routing, known: seq<string>) returns (res: Result<(), string>)
    ensures res.Success? <==> RoutingValid(r, known)
    ensures res.Failure? ==> res.error !in known
    ensures res.Failure? ==>
      || (exists i :: 0 <= i < |r.chain| && r.chain[i] == res.error && forall j :: 0 <= j < i ==> r.chain[j] in known)
      || ((forall i :: 0 <= i < |r.chain| ==> r.chain[i] in known) && r.failover.switchTo == Some(res.error))
  {
    for i := 0 to |r.chain|
      invariant forall j :: 0 <= j < i ==> r.chain[j] in known
    {
      if r.chain[i] !in known {
        return Failure(r.chain[i]);
      }
    }
    if r.failover.switchTo.Some? && r.failover.switchTo.value !in known {
      return Failure(r.failover.switchTo.value);
    }
    return Success(());
  }

  ghost predicate RuleTargetsKnown(rules: seq<Rule>, known: seq<string>) {
    forall k :: 0 <= k < |rules| && rules[k].switchTo.Some? ==> rules[k].switchTo.value in known
  }

  lemma {:induction false} DedupMembers(s: seq<string>)
    ensures forall c :: c in Dedup(s) <==> c in s
  {
    if |s| > 1 {
      DedupMembers(s[1..]);
      assert s == [s[0]] + s[1..];
    }
  }

  // ---------- Whole runs ----------

  datatype Engine = Engine(alarms: Alarms, tokens: Tokens)

  const START := Engine(QUIET, map[])

  datatype Event = Attacked(attack: Attack) | Spent(provider: string, amount: int, now: real)
                 | Asked(model: string, client: string, now: real)

  function TimeOf(e: Event): real {
    match e
    case Attacked(a) => a.now
    case Spent(_, _, now) => now
    case Asked(_, _, now) => now
  }

  function AddTokens(tokens: Tokens, provider: string, amount: int, day: string): Tokens {
    tokens[(provider, day) := Used(tokens, provider, day) + amount]
  }

  /** A request that is not blocked clears an override whose cooldown is over. */
  function AfterAsking(a: Alarms, client: string, now: real): Alarms {
    if !IsBlocked(a, client, now) && a.override.Some? && !OverrideActive(a, now) then a.(override := None) else a
  }

  function Step(r: Routing, s: Engine, e: Event): Engine {
    match e
    case Attacked(a) => s.(alarms := Detected(r.failover, s.alarms, a))
    case Spent(p, n, now) => s.(tokens := AddTokens(s.tokens, p, n, DayString(DayOf(now))))
    case Asked(_, client, now) => s.(alarms := AfterAsking(s.alarms, client, now))
  }

  function Run(r: Routing, es: seq<Event>): Engine {
    if es == [] then START else Step(r, Run(r, es[..|es| - 1]), es[|es| - 1])
  }

  function Active(override: Option<(string, real)>, now: real): Option<string> {
    if override.Some? && now < override.value.1 then Some(override.value.0) else None
  }

  function UsedOn(tokens: Tokens, day: string): string -> int {
    p => Used(tokens, p, day)
  }

  /** The engine's answer to a request. */
  function Answer(r: Routing, s: Engine, model: string, client: string, now: real)
      : Result<(string, string), RoutingError> {
    if IsBlocked(s.alarms, client, now) then Failure(Blocked)
    else Choice(r, UsedOn(s.tokens, DayString(DayOf(now))), Candidates(r, Active(s.alarms.override, now)), model)
  }

  /** The attacks among the events. */
  function AttacksOf(es: seq<Event>): seq<Attack> {
    if es == [] then []
    else
      var e := es[|es| - 1];
      AttacksOf(es[..|es| - 1]) + (if e.Attacked? then [e.attack] else [])
  }

  /** What a provider has been used on one day. */
  function SpentOn(es: seq<Event>, provider: string, day: int): int {
    if es == [] then 0
    else
      var e := es[|es| - 1];
      SpentOn(es[..|es| - 1], provider, day)
        + (if e.Spent? && e.provider == provider && DayOf(e.now) == day then e.amount else 0)
  }

  function SpentThatDay(es: seq<Event>, day: int): string -> int {
    p => SpentOn(es, p, day)
  }

  /** Whether a client's latest trigger is less than the block time ago. */
  predicate RecentlyTriggered(f: Failover, es: seq<Attack>, client: string, now: real) {
    var h := History(f, es, client);
    f.blockSource && client != "" && UsedUp(f, h) > 0 && now < h[UsedUp(f, h) - 1] + f.blockTtl as real
  }

  /** The answer that the events so far call for, told without any engine state. */
  function AnswerFromHistory(r: Routing, es: seq<Event>, model: string, client: string, now: real)
      : Result<(string, string), RoutingError> {
    if RecentlyTriggered(r.failover, AttacksOf(es), client, now) then Failure(Blocked)
    else
      Choice(r, SpentThatDay(es, DayOf(now)), Candidates(r, Active(LatestOverride(r.failover, AttacksOf(es)), now)),
        model)
  }

  predicate Timely(es: seq<Event>) {
    forall i, j :: 0 <= i < j < |es| ==> TimeOf(es[i]) <= TimeOf(es[j])
  }

  /** Who is asked, told from the configuration and the override alone. */
  function Asking(r: Routing, s: Engine, now: real): seq<string> {
    var chain := if r.chain == [] then ["default"] else r.chain;
    if s.alarms.override.Some? && now < s.alarms.override.value.1 then [s.alarms.override.value.0] + chain else chain
  }

  /** What an answer has to be: a blocked client is refused; else the provider that the first candidate decides for
      serves, an active override being asked before the chain, under the model name mapped for it; and the request
      fails if all candidates pass. */
  ghost predicate FirstMatch(r: Routing, s: Engine, model: string, client: string, now: real,
                             a: Result<(string, string), RoutingError>)
  {
    var cs, used := Asking(r, s, now), UsedOn(s.tokens, DayString(DayOf(now)));
    match a
    case Failure(Blocked) => (if client in s.alarms.blocked then s.alarms.blocked[client] else 0.0) > now
    case Failure(BudgetExhausted(_)) =>
      && (if client in s.alarms.blocked then s.alarms.blocked[client] else 0.0) <= now
      && forall j :: 0 <= j < |cs| ==> Passes(r.rules, used, cs[j])
    case Success((p, name)) =>
      && (if client in s.alarms.blocked then s.alarms.blocked[client] else 0.0) <= now
      && name == (if model in r.mapping && p in r.mapping[model] then r.mapping[model][p] else model)
      && exists i :: 0 <= i < |cs| && DecidesFor(r.rules, used, cs[i], p) &&
                     forall j :: 0 <= j < i ==> Passes(r.rules, used, cs[j])
  }

  lemma {:induction false} PickFirst(rules: seq<Rule>, used: string -> int, cs: seq<string>, p: string)
    ensures Pick(rules, used, cs) == Some(p) <==>
      exists i :: 0 <= i < |cs| && DecidesFor(rules, used, cs[i], p) &&
                  forall j :: 0 <= j < i ==> Passes(rules, used, cs[j])
  {
    PickIsFirstMatch(rules, used, cs);
    hide Pick, DecidesFor, Passes;
  }

  lemma {:induction false} AnswerIsFirstMatch(r: Routing, s: Engine, model: string, client: string, now: real)
    ensures FirstMatch(r, s, model, client, now, Answer(r, s, model, client, now))
  {
    var used, cs, a := UsedOn(s.tokens, DayString(DayOf(now))), Asking(r, s, now), Answer(r, s, model, client, now);
    DedupKeepsPick(r.rules, used, cs);
    assert Pick(r.rules, used, Candidates(r, Active(s.alarms.override, now))) == Pick(r.rules, used, cs);
    PickIsFirstMatch(r.rules, used, cs);
    if a.Success? { PickFirst(r.rules, used, cs, a.value.0); }
    hide DayString, DayOf, UsedOn, Pick, Dedup, DecidesFor, Passes, Asking, Candidates, Active;
  }

  /** While an override is active it is asked first: a request that is not blocked is served by whom the override
      decides for, and as the chain alone would serve it if the override passes. */
  lemma {:induction false} OverrideComesFirst(r: Routing, s: Engine, p: string, until: real, q: string, model: string,
                                              client: string, now: real)
    requires s.alarms.override == Some((p, until)) && now < until && !IsBlocked(s.alarms, client, now)
    ensures var used := UsedOn(s.tokens, DayString(DayOf(now)));
      var a := Answer(r, s, model, client, now);
      var alone := Answer(r, s.(alarms := s.alarms.(override := None)), model, client, now);
      && (DecidesFor(r.rules, used, p, q) ==> a.Success? && a.value.0 == q)
      && (Passes(r.rules, used, p) ==> a.Success? == alone.Success? && (a.Success? ==> a == alone))
  {
    var used := UsedOn(s.tokens, DayString(DayOf(now)));
    var chain := ChainOf(r);
    DedupKeepsPick(r.rules, used, [p] + chain);
    assert ([p] + chain)[1..] == chain;
    DecisionMeans(r.rules, used, p);
    hide DayString, DayOf, UsedOn, Dedup, DecidesFor, Passes, Decision;
  }

  /** Daily counters add up, for every provider and day. */
  lemma {:induction false} TokensAddUp(r: Routing, es: seq<Event>, provider: string, day: int)
    ensures Used(Run(r, es).tokens, provider, DayString(day)) == SpentOn(es, provider, day)
  {
    if es != [] {
      var n := |es| - 1;
      TokensAddUp(r, es[..n], provider, day);
      if es[n].Spent? { DayStringInjective(DayOf(es[n].now), day); }
      hide DayString, DayOf, Detected, AfterAsking;
    }
  }

  lemma {:induction false} AttacksInOrder(es: seq<Event>)
    requires Timely(es)
    ensures InOrder(AttacksOf(es)) && forall a :: a in AttacksOf(es) ==> es != [] && a.now <= TimeOf(es[|es| - 1])
  {
    if es != [] {
      var n := |es| - 1;
      AttacksInOrder(es[..n]);
      var o := AttacksOf(es[..n]);
      if n > 0 { assert TimeOf(es[n - 1]) <= TimeOf(es[n]); }
      assert forall i :: 0 <= i < |o| ==> o[i] in o;
    }
  }

  /** The engine's alarms are those of its attacks, but for an override that has run out. */
  ghost predicate SameButExpired(a: Alarms, b: Alarms, now: real) {
    && a.times == b.times && a.blocked == b.blocked
    && (a.override == b.override || (a.override.None? && b.override.value.1 <= now))
  }

  lemma {:induction false} SameStep(f: Failover, a: Alarms, b: Alarms, e: Event, now: real)
    requires SameButExpired(a, b, now) && now <= TimeOf(e)
    ensures match e
      case Attacked(at) => SameButExpired(Detected(f, a, at), Detected(f, b, at), at.now)
      case Asked(_, client, t) => SameButExpired(AfterAsking(a, client, t), b, t)
      case Spent(_, _, t) => SameButExpired(a, b, t)
  {
    hide Since, Qualifies;
  }

  lemma {:induction false} AlarmsOfRun(r: Routing, es: seq<Event>)
    requires Timely(es)
    ensures SameButExpired(Run(r, es).alarms, DetectedAll(r.failover, QUIET, AttacksOf(es)),
                           if es == [] then 0.0 else TimeOf(es[|es| - 1]))
  {
    if es != [] {
      var n := |es| - 1;
      AlarmsOfRun(r, es[..n]);
      var o := AttacksOf(es[..n]);
      var b := DetectedAll(r.failover, QUIET, o);
      if n > 0 { assert TimeOf(es[n - 1]) <= TimeOf(es[n]); }
      SameStep(r.failover, Run(r, es[..n]).alarms, b, es[n], if n > 0 then TimeOf(es[n - 1]) else TimeOf(es[n]));
      if es[n].Attacked? { assert (o + [es[n].attack])[..|o|] == o; } else { assert o + [] == o; }
      hide Detected, AfterAsking;
    }
  }

  lemma {:induction false} PickByUse(rules: seq<Rule>, used: string -> int, used': string -> int,
                                     candidates: seq<string>)
    requires forall p :: used(p) == used'(p)
    ensures Pick(rules, used, candidates) == Pick(rules, used', candidates)
  {
    if candidates != [] {
      PickByUse(rules, used, used', candidates[1..]);
      hide Violating;
    }
  }

  /** Blocking and the override, as the engine's state and the history tell them. */
  lemma {:induction false} AlarmsFollowHistory(r: Routing, es: seq<Event>, client: string, now: real)
    requires Timely(es) && now >= 0.0 && (es == [] || TimeOf(es[|es| - 1]) <= now)
    ensures IsBlocked(Run(r, es).alarms, client, now) <==> RecentlyTriggered(r.failover, AttacksOf(es), client, now)
    ensures Active(Run(r, es).alarms.override, now) == Active(LatestOverride(r.failover, AttacksOf(es)), now)
  {
    AttacksInOrder(es);
    AlarmsOfRun(r, es);
    hide Timely, InOrder, Run, AttacksOf, DetectedAll, LatestOverride, UsedUp, History;
    OrderIsSteady(r.failover, AttacksOf(es), client);
    BlockedIff(r.failover, AttacksOf(es), client, now);
    OverrideMatchesHistory(r.failover, AttacksOf(es));
  }

  /** Main result: after any run with a clock that does not run backwards, the engine's pruned, expiring and
      lazily cleared state answers a request as the full history does. */
  lemma {:induction false} AnswersFollowHistory(r: Routing, es: seq<Event>, model: string, client: string, now: real)
    requires Timely(es) && now >= 0.0 && (es == [] || TimeOf(es[|es| - 1]) <= now)
    ensures Answer(r, Run(r, es), model, client, now) == AnswerFromHistory(r, es, model, client, now)
  {
    var s, attacks, day := Run(r, es), AttacksOf(es), DayOf(now);
    AlarmsFollowHistory(r, es, client, now);
    forall p ensures UsedOn(s.tokens, DayString(day))(p) == SpentThatDay(es, day)(p) { TokensAddUp(r, es, p, day); }
    PickByUse(r.rules, UsedOn(s.tokens, DayString(day)), SpentThatDay(es, day),
      Candidates(r, Active(s.alarms.override, now)));
    hide Run, AttacksOf, LatestOverride, RecentlyTriggered, IsBlocked, Active, UsedOn, SpentThatDay, Candidates, Pick,
         ConcreteModel, DayString, DayOf, Timely;
  }

  /** The override only ever names the failover target. */
  lemma {:induction false} OverrideIsTarget(r: Routing, es: seq<Event>)
    ensures var o := Run(r, es).alarms.override; o.Some? ==> r.failover.switchTo == Some(o.value.0)
  {
    if es != [] {
      OverrideIsTarget(r, es[..|es| - 1]);
      hide Since, Qualifies, IsBlocked;
    }
  }

  /** The candidates of a validated routing are known, but for the "default" of an empty chain. */
  lemma {:induction false} CandidatesKnown(r: Routing, override: Option<string>, known: seq<string>)
    requires RoutingValid(r, known) && (override.Some? ==> r.failover.switchTo == override)
    ensures forall c :: c in Candidates(r, override) ==> c in known || (r.chain == [] && c == "default")
  {
    if override.Some? { DedupMembers([override.value] + ChainOf(r)); }
  }

  /** A candidate decides for a provider that is not known. */
  ghost predicate DecidesUnknown(r: Routing, used: string -> int, candidate: string, known: seq<string>) {
    || (exists k :: FirstViolated(r.rules, candidate, used(candidate), k) && r.rules[k].switchTo.Some? &&
                    r.rules[k].switchTo.value !in known)
    || (r.chain == [] && candidate == "default" && "default" !in known && Clean(r.rules, candidate, used(candidate)))
  }

  /** After any run, a validated routing serves a request from an unknown provider if and only if the first
      candidate that does not pass either violates first a rule with an unknown target, which validation does not
      look at, or is the unknown "default" that stands for an empty chain. */
  lemma {:induction false} ServesUnknownIff(r: Routing, es: seq<Event>, model: string, client: string, now: real,
                                            known: seq<string>)
    requires RoutingValid(r, known)
    ensures var s := Run(r, es); var a := Answer(r, s, model, client, now);
      var used, candidates := UsedOn(s.tokens, DayString(DayOf(now))), Candidates(r, Active(s.alarms.override, now));
      a.Success? && a.value.0 !in known <==>
        !IsBlocked(s.alarms, client, now) &&
        exists i :: 0 <= i < |candidates| && DecidesUnknown(r, used, candidates[i], known) &&
                    forall j :: 0 <= j < i ==> Passes(r.rules, used, candidates[j])
  {
    var s := Run(r, es);
    var used, candidates := UsedOn(s.tokens, DayString(DayOf(now))), Candidates(r, Active(s.alarms.override, now));
    OverrideIsTarget(r, es);
    CandidatesKnown(r, Active(s.alarms.override, now), known);
    hide Run, DayString, DayOf, IsBlocked, Active, UsedOn, Candidates, RoutingValid;
    PicksUnknownIff(r, used, candidates, known);
    hide DecidesUnknown, Passes, Pick, ConcreteModel;
  }

  lemma {:induction false} PicksUnknownIff(r: Routing, used: string -> int, candidates: seq<string>, known: seq<string>)
    requires forall c :: c in candidates ==> c in known || (r.chain == [] && c == "default")
    ensures var p := Pick(r.rules, used, candidates);
      p.Some? && p.value !in known <==>
        exists i :: 0 <= i < |candidates| && DecidesUnknown(r, used, candidates[i], known) &&
                    forall j :: 0 <= j < i ==> Passes(r.rules, used, candidates[j])
  {
    PickIsFirstMatch(r.rules, used, candidates);
    forall i | 0 <= i < |candidates|
      ensures DecidesUnknown(r, used, candidates[i], known) <==>
              exists p :: DecidesFor(r.rules, used, candidates[i], p) && p !in known
    {
      assert candidates[i] in candidates;
      UnknownMeans(r, used, candidates[i], known);
    }
    hide Pick, Passes, DecidesFor, DecidesUnknown;
  }

  lemma {:induction false} UnknownMeans(r: Routing, used: string -> int, c: string, known: seq<string>)
    requires c in known || (r.chain == [] && c == "default")
    ensures DecidesUnknown(r, used, c, known) <==> exists p :: DecidesFor(r.rules, used, c, p) && p !in known
  {
    hide Violates, Clean;
    if DecidesUnknown(r, used, c, known) {
      if k :| FirstViolated(r.rules, c, used(c), k) && r.rules[k].switchTo.Some? &&
              r.rules[k].switchTo.value !in known
      {
        assert DecidesFor(r.rules, used, c, r.rules[k].switchTo.value);
      } else {
        assert DecidesFor(r.rules, used, c, c);
      }
    }
  }

  /** So with rule targets known too, and a chain or a known "default", only known providers serve. */
  lemma {:induction false} ServesKnownProviders(r: Routing, es: seq<Event>, model: string, client: string, now: real,
                                                known: seq<string>)
    requires RoutingValid(r, known) && RuleTargetsKnown(r.rules, known) && (r.chain != [] || "default" in known)
    ensures var a := Answer(r, Run(r, es), model, client, now); a.Success? ==> a.value.0 in known
  {
    ServesUnknownIff(r, es, model, client, now, known);
    hide Answer, Pick, Run, ConcreteModel, DayOf, DayString, Candidates, RoutingValid, IsBlocked, Passes, Clean;
  }

  /** Validation does not look at rule targets: a first rule without conditions decides every request that is
      not blocked, so an unknown target of it is served although the routing is valid. */
  lemma {:induction false} UncheckedRuleTarget(r: Routing, s: Engine, model: string, client: string, now: real,
                                               known: seq<string>)
    requires RoutingValid(r, known) && !IsBlocked(s.alarms, client, now)
    requires r.rules != [] && r.rules[0].provider.None? && r.rules[0].tokensToday.None?
    requires r.rules[0].switchTo.Some? && r.rules[0].switchTo.value !in known
    ensures var g := r.rules[0].switchTo.value;
      Answer(r, s, model, client, now) == Success((g, ConcreteModel(r, model, g))) && g !in known
  {
    var candidates := Candidates(r, Active(s.alarms.override, now));
    var used := UsedOn(s.tokens, DayString(DayOf(now)));
    CandidatesExist(r, Active(s.alarms.override, now));
    ViolatingFirst(r.rules, candidates[0], used(candidates[0]));
    assert Violates(r.rules[0], candidates[0], used(candidates[0]));
    hide DayString, DayOf, IsBlocked, Active, UsedOn, Candidates, Violating, ConcreteModel, Violates, RoutingValid;
  }

  lemma {:induction false} CandidatesExist(r: Routing, override: Option<string>)
    ensures Candidates(r, override) != []
  {
    if override.Some? {
      DedupMembers([override.value] + ChainOf(r));
      assert ([override.value] + ChainOf(r))[0] in Candidates(r, override);
    }
  }

  // ---------- The engine object ----------

  class PolicyEngine {
    const routing: Routing
    var overrideProvider: Option<string>
    var overrideUntil: real
    var blockedSources: map<string, real>
    var attackTimes: map<string, seq<real>>
    var providerTokens: Tokens

    ghost function Abs(): Engine
      reads this
    {
      Engine(Alarms(attackTimes, blockedSources,
                    if overrideProvider.Some? then Some((overrideProvider.value, overrideUntil)) else None),
             providerTokens)
    }

    constructor (routing: Routing)
      ensures this.routing == routing && Abs() == START
    {
      this.routing := routing;
      overrideProvider, overrideUntil := None, 0.0;
      blockedSources, attackTimes, providerTokens := map[], map[], map[];
    }

    method RecordTokens(provider: string, totalTokens: int, day: string)
      modifies this`providerTokens
      ensures providerTokens == AddTokens(old(providerTokens), provider, totalTokens, day)
    {
      var key := (provider, day);
      var entry := if key in providerTokens then providerTokens[key] else 0;
      providerTokens := providerTokens[key := entry + totalTokens];
    }

    method RecordTokensToday(provider: string, totalTokens: int, now: real)
      modifies this`providerTokens
      ensures Abs() == Step(routing, old(Abs()), Spent(provider, totalTokens, now))
    {
      RecordTokens(provider, totalTokens, DayString(DayOf(now)));
    }

    method OnAttackDetected(severity: string, client: string, now: real)
      modifies this
      ensures Abs() == Step(routing, old(Abs()), Attacked(Attack(severity, client, now)))
    {
      var af := routing.failover;
      if !af.enabled || SeverityRank(severity) < SeverityRank(af.minSeverity) {
        return;
      }
      hide SeverityRank, Since;
      var entry := if client in attackTimes then attackTimes[client] else [];
      entry := Since(entry, now - af.window as real);
      entry := entry + [now];
      if |entry| < af.count {
        attackTimes := attackTimes[client := entry];
        return;
      }
      attackTimes := attackTimes[client := []];
      if af.blockSource && client != "" {
        blockedSources := blockedSources[client := now + af.blockTtl as real];
      }
      if af.switchTo.Some? {
        overrideProvider := af.switchTo;
        overrideUntil := now + af.cooldown as real;
      }
    }

    /** The rules that a provider violates, in order. */
    method Violations(provider: string, day: string) returns (violating: seq<Rule>)
      ensures violating == Violating(routing.rules, provider, Used(providerTokens, provider, day))
    {
      violating := [];
      for i := 0 to |routing.rules|
        invariant violating == Violating(routing.rules[..i], provider, Used(providerTokens, provider, day))
      {
        assert routing.rules[..i + 1][..i] == routing.rules[..i];
        if Violates(routing.rules[i], provider, Used(providerTokens, provider, day)) {
          violating := violating + [routing.rules[i]];
        }
      }
      assert routing.rules[..|routing.rules|] == routing.rules;
    }

    /** The serving provider and its model name. */
    method ResolveRequest(model: string, client: string, now: real)
        returns (res: Result<(string, string), RoutingError>)
      modifies this`overrideProvider
      ensures res == Answer(routing, old(Abs()), model, client, now)
      ensures FirstMatch(routing, old(Abs()), model, client, now, res)
      ensures Abs() == Step(routing, old(Abs()), Asked(model, client, now))
    {
      AnswerIsFirstMatch(routing, Abs(), model, client, now);
      hide DayString, DayOf, Dedup, Choice, FirstMatch;
      if (if client in blockedSources then blockedSources[client] else 0.0) > now {
        return Failure(Blocked);
      }
      var candidates := if routing.chain == [] then ["default"] else routing.chain;
      if overrideProvider.Some? {
        if now < overrideUntil {
          candidates := Dedup([overrideProvider.value] + candidates);
        } else {
          overrideProvider := None;
        }
      }
      res := ChooseFrom(candidates, DayString(DayOf(now)), model);
    }

    /** Asks the candidates in turn. */
    method ChooseFrom(candidates: seq<string>, day: string, model: string)
        returns (res: Result<(string, string), RoutingError>)
      ensures res == Choice(routing, UsedOn(providerTokens, day), candidates, model)
    {
      ghost var used := UsedOn(providerTokens, day);
      for i := 0 to |candidates|
        invariant Pick(routing.rules, used, candidates) == Pick(routing.rules, used, candidates[i..])
      {
        var violating := Violations(candidates[i], day);
        assert candidates[i..][1..] == candidates[i + 1..];
        if violating == [] {
          return Success((candidates[i], ConcreteModel(routing, model, candidates[i])));
        }
        if violating[0].switchTo.Some? {
          return Success((violating[0].switchTo.value, ConcreteModel(routing, model, violating[0].switchTo.value)));
        }
      }
      return Failure(BudgetExhausted(candidates));
    }
  }
}
