/** The specification of the operations that rewrite an HTTPRoute or a GRPCRoute. */
module Operations {
  import opened Gateway
  import opened Labels
  import opened Names
  import opened Rules
  import opened Experiments

  /** What an operation asks the API server to do: store a new version, nothing, or nothing and report. */
  datatype Outcome = Commit(route: RouteState) | Unchanged | Fail(error: string)

  /** `wanted` is the match list of the step; `None`, a step without one, asks for removal. */
  datatype Op =
    | SetWeight(weight: Int32, exp: Experiment)
    | SetHeader(name: string, wanted: Option<seq<HeaderRule>>)
    | RemoveManaged

  function NotFound(kind: Kind): string {
    match kind
    case Http => "backendRef was not found in httpRoute"
    case Grpc => "backendRef was not found in grpcRoute"
    case Tcp => "backendRef list was not found in tcpRoute"
    case Tls => "backendRef list was not found in tlsRoute"
  }

  /** Only HTTP routes take part in experiments. */
  ghost function AfterWeight(cfg: Config, weight: Int32, exp: Experiment, rules: seq<Rule>): (after: seq<Rule>)
    ensures |after| == |rules|
  {
    var weighed := Weigh(cfg, weight, rules);
    if cfg.kind == Http then HandleRules(cfg, exp, weighed) else weighed
  }

  ghost function ApplyWeight(cfg: Config, weight: Int32, exp: Experiment, route: RouteState): Outcome {
    if !Weighable(cfg, route.rules) then Fail(NotFound(cfg.kind))
    else Commit(RouteState(AfterWeight(cfg, weight, exp, route.rules), Marked(cfg.marker, weight, route.labels)))
  }

  ghost function ApplyRemove(cfg: Config, route: RouteState): Outcome {
    var kept := Strip(route.rules, AnyManaged(cfg));
    if |kept| == |route.rules| then Unchanged else Commit(route.(rules := kept))
  }

  ghost function Upsert(cfg: Config, name: string, headers: seq<HeaderMatch>, rules: seq<Rule>): seq<Rule> {
    Strip(rules, ManagedAs(cfg, name, headers)) + Block(cfg, Sources(rules, cfg), name, headers)
  }

  ghost function ApplyHeader(cfg: Config, name: string, wanted: Option<seq<HeaderRule>>, route: RouteState): Outcome {
    if wanted.None? then ApplyRemove(cfg, route)
    else if !ValidHeaderRules(wanted.value) then Fail(INVALID_HEADER_MATCH_TYPE)
    else if Sources(route.rules, cfg) == [] then Fail(NotFound(cfg.kind))
    else Commit(route.(rules := Upsert(cfg, name, HeaderList(wanted.value), route.rules)))
  }

  // ----- TCP and TLS routes

  /** The weight of a backend after both passes: the second pass has the last word. */
  function TwoPass(canary: string, stable: string, weight: Int32, b: BackendRef): BackendRef {
    if b.name == stable then b.(weight := Some(RestOf(weight)))
    else if b.name == canary then b.(weight := Some(weight))
    else b
  }

  function TwoPassRule(cfg: Config, weight: Int32, rule: Rule): Rule {
    rule.(backends := seq(|rule.backends|, i requires 0 <= i < |rule.backends| =>
      TwoPass(cfg.canary, cfg.stable, weight, rule.backends[i])))
  }

  function TwoPassRules(cfg: Config, weight: Int32, rules: seq<Rule>): seq<Rule> {
    seq(|rules|, i requires 0 <= i < |rules| => TwoPassRule(cfg, weight, rules[i]))
  }

  predicate SomeBackend(rules: seq<Rule>, name: string) {
    exists i :: 0 <= i < |rules| && HasBackend(rules[i].backends, name)
  }

  function ApplyTcp(cfg: Config, weight: Int32, route: RouteState): Outcome {
    if !SomeBackend(route.rules, cfg.canary) || !SomeBackend(route.rules, cfg.stable) then Fail(NotFound(cfg.kind))
    else Commit(RouteState(TwoPassRules(cfg, weight, route.rules), Marked(cfg.marker, weight, route.labels)))
  }

  // ----- any route

  /** Header routes and experiments concern rules that match on headers. */
  predicate MatchesHeaders(kind: Kind) {
    kind == Http || kind == Grpc
  }

  /** What a call does to one route. On TCP and TLS routes only a weight can be set. */
  ghost function Apply(cfg: Config, op: Op, route: RouteState): Outcome {
    if MatchesHeaders(cfg.kind) then
      match op
      case SetWeight(weight, exp) => ApplyWeight(cfg, weight, exp, route)
      case SetHeader(name, wanted) => ApplyHeader(cfg, name, wanted, route)
      case RemoveManaged => ApplyRemove(cfg, route)
    else
      match op
      case SetWeight(weight, _) => ApplyTcp(cfg, weight, route)
      case SetHeader(_, _) => Unchanged
      case RemoveManaged => Unchanged
  }

  /** Once both services were found, the experiment handler finds its rule. */
  lemma {:induction false} ExperimentRuleExists(cfg: Config, weight: Int32, rules: seq<Rule>)
    requires Weighable(cfg, rules)
    ensures Selected(Weigh(cfg, weight, rules), cfg) < |rules|
  {
    var weighed := Weigh(cfg, weight, rules);
    var i :| 0 <= i < |rules| && !AnyManaged(cfg).Owns(rules[i]) && HasBackend(rules[i].backends, cfg.canary);
    var j :| 0 <= j < |rules[i].backends| && rules[i].backends[j].name == cfg.canary;
    assert weighed[i].backends[j].name == cfg.canary;
    assert Touches(weighed[i], cfg);
  }

  // ----- what setting a weight leaves, in full

  /** The canary backends weigh `weight`, the stable ones what is missing to 100, and nothing else has changed. A
      weight outside of 0..100 adds up to 100 in `int32` arithmetic. */
  ghost predicate ShowsWeight(cfg: Config, weight: Int32, was: Rule, now: Rule) {
    && now.name == was.name && now.matches == was.matches && now.filters == was.filters && now.policy == was.policy
    && |now.backends| == |was.backends|
    && forall j :: 0 <= j < |was.backends| ==>
         var b, c := was.backends[j], now.backends[j];
         if b.name == cfg.canary then c == b.(weight := Some(weight))
         else if b.name == cfg.stable
         then c == b.(weight := c.weight) && c.weight.Some? && AddsUp(weight, c.weight.value)
         else c == b
  }

  predicate AddsUp(weight: Int32, rest: Int32) {
    (0 <= weight <= 100 ==> weight as int + rest as int == 100)
    && (weight as int + rest as int - 100) % 0x1_0000_0000 == 0
  }

  lemma {:induction false} RestAddsUp(weight: Int32)
    ensures AddsUp(weight, RestOf(weight))
  {
  }

  /** A rule that looks injected is left alone. */
  ghost predicate Weighed(cfg: Config, weight: Int32, was: Rule, now: Rule) {
    if LooksInjected(cfg, was) then now == was else ShowsWeight(cfg, weight, was, now)
  }

  lemma {:induction false} WeighMeans(cfg: Config, weight: Int32, rules: seq<Rule>)
    ensures forall i :: 0 <= i < |rules| ==> Weighed(cfg, weight, rules[i], Weigh(cfg, weight, rules)[i])
    ensures Selected(Weigh(cfg, weight, rules), cfg) == Selected(rules, cfg)
  {
    var weighed := Weigh(cfg, weight, rules);
    RestAddsUp(weight);
    forall i | 0 <= i < |rules|
      ensures Weighed(cfg, weight, rules[i], weighed[i])
      ensures Touches(rules[i], cfg) <==> Touches(weighed[i], cfg)
    {
      AnyManagedMeans(cfg, rules[i]);
      SameNames(rules[i].backends, weighed[i].backends, cfg.canary);
      SameNames(rules[i].backends, weighed[i].backends, cfg.stable);
    }
    SelectedSame(rules, weighed, cfg);
  }

  lemma {:induction false} SameNames(a: seq<BackendRef>, b: seq<BackendRef>, name: string)
    requires |a| == |b| && forall j :: 0 <= j < |a| ==> a[j].name == b[j].name
    ensures HasBackend(a, name) <==> HasBackend(b, name)
  {
  }

  /** Whether the experiment handler has nothing to do on a rule. */
  predicate NothingToHandle(cfg: Config, exp: Experiment) {
    cfg.kind == Grpc || (if exp.active then exp.destinations == [] else exp.recorded == {})
  }

  /** What a successful call leaves: every rule is weighed, or left alone if it looks injected. On HTTP routes the
      first rule that names one of the services goes through the experiment handler afterwards, which does nothing
      if there is no experiment, or an active one without destinations. */
  lemma {:induction false} WeightMeans(cfg: Config, weight: Int32, exp: Experiment, route: RouteState,
                                       after: RouteState)
    returns (weighed: seq<Rule>)
    requires MatchesHeaders(cfg.kind) && Apply(cfg, SetWeight(weight, exp), route) == Commit(after)
    ensures |weighed| == |route.rules| == |after.rules|
    ensures forall i :: 0 <= i < |weighed| ==> Weighed(cfg, weight, route.rules[i], weighed[i])
    ensures NothingToHandle(cfg, exp) ==> after.rules == weighed
    ensures cfg.kind == Http ==>
              var s := Selected(route.rules, cfg);
              && s < |weighed|
              && after.rules[s] == weighed[s].(backends := Handle(cfg, exp, weighed[s].backends))
              && forall i :: 0 <= i < |weighed| && i != s ==> after.rules[i] == weighed[i]
  {
    weighed := Weigh(cfg, weight, route.rules);
    WeighMeans(cfg, weight, route.rules);
    ExperimentRuleExists(cfg, weight, route.rules);
  }

  /** Some rule that does not look injected names the backend. */
  ghost predicate UserBackend(cfg: Config, rules: seq<Rule>, name: string) {
    exists r, b :: r in rules && !LooksInjected(cfg, r) && b in r.backends && b.name == name
  }

  lemma {:induction false} FoundMeans(cfg: Config, rules: seq<Rule>, name: string)
    ensures Found(cfg, rules, name) <==> UserBackend(cfg, rules, name)
  {
    if Found(cfg, rules, name) {
      var i :| 0 <= i < |rules| && !AnyManaged(cfg).Owns(rules[i]) && HasBackend(rules[i].backends, name);
      var j :| 0 <= j < |rules[i].backends| && rules[i].backends[j].name == name;
      AnyManagedMeans(cfg, rules[i]);
      assert rules[i] in rules && rules[i].backends[j] in rules[i].backends;
    }
    if UserBackend(cfg, rules, name) {
      var r, b :| r in rules && !LooksInjected(cfg, r) && b in r.backends && b.name == name;
      var i :| 0 <= i < |rules| && rules[i] == r;
      var j :| 0 <= j < |r.backends| && r.backends[j] == b;
      AnyManagedMeans(cfg, r);
      assert HasBackend(rules[i].backends, name);
    }
  }

  /** When setting a weight succeeds, and what it reports otherwise. */
  lemma {:induction false} WeightSucceeds(cfg: Config, weight: Int32, exp: Experiment, route: RouteState)
    requires MatchesHeaders(cfg.kind)
    ensures var outcome := Apply(cfg, SetWeight(weight, exp), route);
            if UserBackend(cfg, route.rules, cfg.canary) && UserBackend(cfg, route.rules, cfg.stable)
               && cfg.canary != cfg.stable then outcome.Commit?
            else if cfg.kind == Http then outcome == Fail("backendRef was not found in httpRoute")
            else outcome == Fail("backendRef was not found in grpcRoute")
  {
    FoundMeans(cfg, route.rules, cfg.canary);
    FoundMeans(cfg, route.rules, cfg.stable);
  }

  predicate AnyBackend(rules: seq<Rule>, name: string) {
    exists r, b :: r in rules && b in r.backends && b.name == name
  }

  lemma {:induction false} SomeBackendMeans(rules: seq<Rule>, name: string)
    ensures SomeBackend(rules, name) <==> AnyBackend(rules, name)
  {
    if SomeBackend(rules, name) {
      var i :| 0 <= i < |rules| && HasBackend(rules[i].backends, name);
      var j :| 0 <= j < |rules[i].backends| && rules[i].backends[j].name == name;
      assert rules[i] in rules && rules[i].backends[j] in rules[i].backends;
    }
    if r, b :| r in rules && b in r.backends && b.name == name {
      var i :| 0 <= i < |rules| && rules[i] == r;
      var j :| 0 <= j < |r.backends| && r.backends[j] == b;
      assert HasBackend(rules[i].backends, name);
    }
  }

  /** The same for TCP and TLS routes, where no rule is taken for an injected one. If the two services are the same,
      its backends get what is missing to 100. */
  lemma {:induction false} TcpWeightMeans(cfg: Config, weight: Int32, exp: Experiment, route: RouteState)
    requires !MatchesHeaders(cfg.kind)
    ensures var outcome := Apply(cfg, SetWeight(weight, exp), route);
            if AnyBackend(route.rules, cfg.canary) && AnyBackend(route.rules, cfg.stable) then
              && outcome.Commit? && |outcome.route.rules| == |route.rules|
              && (cfg.canary != cfg.stable ==>
                    forall i :: 0 <= i < |route.rules| ==>
                      ShowsWeight(cfg, weight, route.rules[i], outcome.route.rules[i]))
              && (cfg.canary == cfg.stable ==>
                    forall i :: 0 <= i < |route.rules| ==>
                      exists rest :: AddsUp(weight, rest)
                        && ShowsWeight(cfg, rest, route.rules[i], outcome.route.rules[i]))
            else if cfg.kind == Tcp then outcome == Fail("backendRef list was not found in tcpRoute")
            else outcome == Fail("backendRef list was not found in tlsRoute")
  {
    SomeBackendMeans(route.rules, cfg.canary);
    SomeBackendMeans(route.rules, cfg.stable);
    RestAddsUp(weight);
    forall i | 0 <= i < |route.rules|
      ensures ShowsWeight(cfg, if cfg.canary == cfg.stable then RestOf(weight) else weight,
                          route.rules[i], TwoPassRules(cfg, weight, route.rules)[i])
    {
    }
  }

  // ----- what header operations leave, in full

  /** Removal keeps exactly the rules that do not look injected, in order, and stores nothing if that is all. */
  lemma {:induction false} RemovalMeans(cfg: Config, route: RouteState) returns (at: seq<nat>)
    requires MatchesHeaders(cfg.kind)
    ensures var outcome := Apply(cfg, RemoveManaged, route);
            if forall r :: r in route.rules ==> !LooksInjected(cfg, r) then outcome == Unchanged
            else && outcome.Commit? && outcome.route.labels == route.labels
                 && Picks(route.rules, outcome.route.rules, at)
                 && forall i :: 0 <= i < |route.rules| ==> (i in at <==> !LooksInjected(cfg, route.rules[i]))
    ensures forall name :: Apply(cfg, SetHeader(name, None), route) == Apply(cfg, RemoveManaged, route)
  {
    var rec := AnyManaged(cfg);
    forall r | r in route.rules
      ensures rec.Owns(r) <==> LooksInjected(cfg, r)
    {
      AnyManagedMeans(cfg, r);
    }
    StripShorter(route.rules, rec);
    at := StripPicks(route.rules, rec);
  }

  /** The rules at the places `kept` are those that an upsert does not take. */
  ghost predicate KeptAt(cfg: Config, name: string, headers: seq<HeaderMatch>, rules: seq<Rule>, kept: seq<nat>) {
    forall i :: 0 <= i < |rules| ==> (i in kept <==> !TakenBy(cfg, name, headers, rules[i]))
  }

  /** The rules at the places `from` are those that name both services. */
  ghost predicate SourcesAt(cfg: Config, rules: seq<Rule>, from: seq<nat>) {
    forall i :: 0 <= i < |rules| ==>
      (i in from <==> HasBackend(rules[i].backends, cfg.canary) && HasBackend(rules[i].backends, cfg.stable))
  }

  /** `tail` holds one injected rule for each source rule, in order, under the printed names. */
  ghost predicate InjectedRules(cfg: Config, name: string, headers: seq<HeaderMatch>, sources: seq<Rule>,
                                tail: seq<Rule>) {
    |tail| == |sources|
    && forall k :: 0 <= k < |tail| ==>
         tail[k].name == Some(RuleName(name, k)) && InjectedFor(cfg, sources[k], headers, tail[k])
  }

  /** An upsert keeps the rules that it does not take, in order, and puts behind them a rule for each of the rules
      that name both services, in order. */
  lemma {:induction false} UpsertMeans(cfg: Config, name: string, headers: seq<HeaderMatch>, rules: seq<Rule>)
    returns (kept: seq<nat>, from: seq<nat>, sources: seq<Rule>)
    ensures var after := Upsert(cfg, name, headers, rules);
            && |kept| <= |after|
            && Picks(rules, after[..|kept|], kept) && KeptAt(cfg, name, headers, rules, kept)
            && Picks(rules, sources, from) && SourcesAt(cfg, rules, from)
            && InjectedRules(cfg, name, headers, sources, after[|kept|..])
  {
    sources := Sources(rules, cfg);
    var strip, block := Strip(rules, ManagedAs(cfg, name, headers)), Block(cfg, sources, name, headers);
    kept := KeptByUpsert(cfg, name, headers, rules);
    from := SourcesPick(rules, cfg);
    SourcesMembers(rules, cfg);
    BlockMeans(cfg, name, headers, sources);
    hide Strip, Block, Sources, InjectedFor, TakenBy, RuleName, HasBackend, KeptAt;
    assert (strip + block)[..|kept|] == strip && (strip + block)[|kept|..] == block;
  }

  lemma {:induction false} KeptByUpsert(cfg: Config, name: string, headers: seq<HeaderMatch>, rules: seq<Rule>)
    returns (kept: seq<nat>)
    ensures Picks(rules, Strip(rules, ManagedAs(cfg, name, headers)), kept)
    ensures KeptAt(cfg, name, headers, rules, kept)
  {
    var rec := ManagedAs(cfg, name, headers);
    kept := StripPicks(rules, rec);
    hide Picks, Strip;
    forall i | 0 <= i < |rules|
      ensures rec.Owns(rules[i]) <==> TakenBy(cfg, name, headers, rules[i])
    {
      ManagedAsMeans(cfg, name, headers, rules[i]);
    }
  }

  lemma {:induction false} BlockMeans(cfg: Config, name: string, headers: seq<HeaderMatch>, sources: seq<Rule>)
    requires forall r :: r in sources ==> HasBackend(r.backends, cfg.canary)
    ensures InjectedRules(cfg, name, headers, sources, Block(cfg, sources, name, headers))
  {
    forall k | 0 <= k < |sources|
      ensures var rule := Block(cfg, sources, name, headers)[k];
              rule.name == Some(RuleName(name, k)) && InjectedFor(cfg, sources[k], headers, rule)
    {
      BlockNth(cfg, sources, name, headers, k);
      assert sources[k] in sources;
      CloneMeans(cfg, sources[k], RuleName(name, k), headers);
    }
  }

  /** What setting a header route with a match list does: one of two errors, or an upsert. */
  lemma {:induction false} HeaderSucceeds(cfg: Config, name: string, wanted: seq<HeaderRule>, route: RouteState)
    requires MatchesHeaders(cfg.kind)
    ensures var outcome := Apply(cfg, SetHeader(name, Some(wanted)), route);
            if exists i :: 0 <= i < |wanted| && wanted[i].exact == "" && wanted[i].prefix == "" && wanted[i].regex == ""
            then outcome == Fail("invalid header match type")
            else if forall r :: r in route.rules ==>
                      !HasBackend(r.backends, cfg.canary) || !HasBackend(r.backends, cfg.stable)
            then outcome == Fail(if cfg.kind == Http then "backendRef was not found in httpRoute"
                                 else "backendRef was not found in grpcRoute")
            else && ValidHeaderRules(wanted) && outcome.Commit? && outcome.route.labels == route.labels
                 && outcome.route.rules == Upsert(cfg, name, HeaderList(wanted), route.rules)
  {
    HeaderListMeans(wanted);
    SourcesMembers(route.rules, cfg);
    if Sources(route.rules, cfg) != [] {
      assert Sources(route.rules, cfg)[0] in Sources(route.rules, cfg);
    }
  }

  // ----- an upsert on any route

  predicate BearsFamilyName(rule: Rule, base: string) {
    rule.name.Some? && InFamily(base, rule.name.value)
  }

  lemma {:induction false} KeptAreUnnamed(cfg: Config, name: string, headers: seq<HeaderMatch>, rules: seq<Rule>)
    ensures forall r :: r in Strip(rules, ManagedAs(cfg, name, headers)) ==> !BearsFamilyName(r, name)
  {
    var rec := ManagedAs(cfg, name, headers);
    StripMembers(rules, rec);
    assert name in rec.names;
  }

  lemma {:induction false} BlockIsNamed(cfg: Config, sources: seq<Rule>, name: string, headers: seq<HeaderMatch>,
                                        i: nat)
    requires i < |sources| <= MAX_INT
    ensures BearsFamilyName(Block(cfg, sources, name, headers)[i], name)
  {
    BlockNth(cfg, sources, name, headers, i);
    PrintedInFamily(name, i);
  }

  /** After an upsert the rules in the family of the name are exactly the new block at the end, one rule
      for each source rule in order, whatever the route held before. */
  lemma {:induction false} ExactReplacement(cfg: Config, name: string, headers: seq<HeaderMatch>, rules: seq<Rule>)
    requires |rules| <= MAX_INT
    ensures var after, sources := Upsert(cfg, name, headers, rules), Sources(rules, cfg);
            var n := |after| - |sources|;
            && n >= 0
            && after[n..] == Block(cfg, sources, name, headers)
            && forall i :: 0 <= i < |after| ==> (BearsFamilyName(after[i], name) <==> n <= i)
  {
    var sources := Sources(rules, cfg);
    var kept, block := Strip(rules, ManagedAs(cfg, name, headers)), Block(cfg, sources, name, headers);
    KeptAreUnnamed(cfg, name, headers, rules);
    forall i | 0 <= i < |kept + block|
      ensures BearsFamilyName((kept + block)[i], name) <==> |kept| <= i
    {
      ConcatIndex(kept, block, i);
      if i < |kept| {
        assert kept[i] in kept;
      } else {
        BlockIsNamed(cfg, sources, name, headers, i - |kept|);
      }
    }
  }

  ghost predicate DistinctRuleNames(rules: seq<Rule>) {
    forall i, j :: 0 <= i < j < |rules| && rules[i].name.Some? && rules[j].name.Some? ==>
      rules[i].name != rules[j].name
  }

  lemma {:induction false} StripDistinct(rules: seq<Rule>, rec: Recogniser)
    requires DistinctRuleNames(rules)
    ensures DistinctRuleNames(Strip(rules, rec))
  {
    if rules != [] {
      var n := |rules| - 1;
      var kept := Strip(rules[..n], rec);
      StripDistinct(rules[..n], rec);
      StripMembers(rules[..n], rec);
      forall i | 0 <= i < |kept|
        ensures kept[i].name.Some? && rules[n].name.Some? ==> kept[i].name != rules[n].name
      {
        assert kept[i] in kept;
        var k :| 0 <= k < n && rules[..n][k] == kept[i];
        assert rules[k] == kept[i];
      }
    }
  }

  lemma {:induction false} BlockDistinct(cfg: Config, sources: seq<Rule>, name: string, headers: seq<HeaderMatch>)
    ensures DistinctRuleNames(Block(cfg, sources, name, headers))
  {
    forall i, j | 0 <= i < j < |sources|
      ensures Block(cfg, sources, name, headers)[i].name != Block(cfg, sources, name, headers)[j].name
    {
      BlockNth(cfg, sources, name, headers, i);
      BlockNth(cfg, sources, name, headers, j);
      RuleNameInjective(name, i, j);
    }
  }

  lemma {:induction false} DistinctConcat(a: seq<Rule>, b: seq<Rule>)
    requires DistinctRuleNames(a) && DistinctRuleNames(b)
    requires forall i, j :: 0 <= i < |a| && 0 <= j < |b| && a[i].name.Some? ==> a[i].name != b[j].name
    ensures DistinctRuleNames(a + b)
  {
  }

  /** An upsert keeps the names of rules unique, which the Gateway API demands. */
  lemma {:induction false} UniqueNames(cfg: Config, name: string, headers: seq<HeaderMatch>, rules: seq<Rule>)
    requires |rules| <= MAX_INT
    requires DistinctRuleNames(rules)
    ensures DistinctRuleNames(Upsert(cfg, name, headers, rules))
  {
    var sources := Sources(rules, cfg);
    var kept, block := Strip(rules, ManagedAs(cfg, name, headers)), Block(cfg, sources, name, headers);
    StripDistinct(rules, ManagedAs(cfg, name, headers));
    BlockDistinct(cfg, sources, name, headers);
    KeptAreUnnamed(cfg, name, headers, rules);
    forall i, j | 0 <= i < |kept| && 0 <= j < |block| && kept[i].name.Some?
      ensures kept[i].name != block[j].name
    {
      assert !BearsFamilyName(kept[i], name);
      BlockIsNamed(cfg, sources, name, headers, j);
    }
    DistinctConcat(kept, block);
  }

  ghost predicate SourceInFamily(cfg: Config, name: string, rules: seq<Rule>) {
    exists r :: r in Sources(rules, cfg) && BearsFamilyName(r, name)
  }

  lemma {:induction false} BlockIsCanaryOnly(cfg: Config, sources: seq<Rule>, name: string, headers: seq<HeaderMatch>)
    ensures forall r :: r in Block(cfg, sources, name, headers) ==> CanaryOnly(r, cfg.canary)
  {
    if sources != [] {
      BlockIsCanaryOnly(cfg, sources[..|sources| - 1], name, headers);
    }
  }

  lemma {:induction false} BlockOwned(cfg: Config, sources: seq<Rule>, name: string, headers: seq<HeaderMatch>,
                                      rec: Recogniser)
    requires |sources| <= MAX_INT && name in rec.names
    ensures forall r :: r in Block(cfg, sources, name, headers) ==> rec.Owns(r)
  {
    var block := Block(cfg, sources, name, headers);
    forall i | 0 <= i < |block|
      ensures rec.Owns(block[i])
    {
      BlockNth(cfg, sources, name, headers, i);
      PrintedInFamily(name, i);
    }
  }

  lemma {:induction false} SourcesOfStrip(rules: seq<Rule>, cfg: Config, rec: Recogniser)
    ensures Sources(Strip(rules, rec), cfg) == Strip(Sources(rules, cfg), rec)
  {
    if rules != [] {
      var n := |rules| - 1;
      var before, last := rules[..n], rules[n];
      SourcesOfStrip(before, cfg, rec);
      SourcesConcat(Strip(before, rec), if rec.Owns(last) then [] else [last], cfg);
      StripConcat(Sources(before, cfg), if IsSource(last, cfg) then [last] else [], rec);
      assert [last][..0] == [];
    }
  }

  lemma {:induction false} StripUpserted(cfg: Config, name: string, headers: seq<HeaderMatch>, rules: seq<Rule>)
    requires |rules| <= MAX_INT
    ensures var rec := ManagedAs(cfg, name, headers);
            Strip(Upsert(cfg, name, headers, rules), rec) == Strip(rules, rec)
  {
    var rec, sources := ManagedAs(cfg, name, headers), Sources(rules, cfg);
    assert name in rec.names;
    BlockOwned(cfg, sources, name, headers, rec);
    StripMembers(rules, rec);
    StripConcat(Strip(rules, rec), Block(cfg, sources, name, headers), rec);
    StripAll(Block(cfg, sources, name, headers), rec);
    StripNone(Strip(rules, rec), rec);
  }

  lemma {:induction false} SourcesUpserted(cfg: Config, name: string, headers: seq<HeaderMatch>, rules: seq<Rule>)
    requires cfg.canary != cfg.stable
    ensures Sources(Upsert(cfg, name, headers, rules), cfg)
         == Sources(Strip(rules, ManagedAs(cfg, name, headers)), cfg)
  {
    var kept, block := Strip(rules, ManagedAs(cfg, name, headers)), Block(cfg, Sources(rules, cfg), name, headers);
    BlockIsCanaryOnly(cfg, Sources(rules, cfg), name, headers);
    hide Strip, Block, Sources;
    SourcesConcat(kept, block, cfg);
    NoSources(block, cfg);
  }

  /** What a second upsert does: the rules that were kept stay, the block is made again from the source
      rules among them. */
  lemma {:induction false} UpsertAgain(cfg: Config, name: string, headers: seq<HeaderMatch>, rules: seq<Rule>)
    requires |rules| <= MAX_INT && cfg.canary != cfg.stable
    ensures var kept := Strip(rules, ManagedAs(cfg, name, headers));
            Upsert(cfg, name, headers, Upsert(cfg, name, headers, rules))
            == kept + Block(cfg, Sources(kept, cfg), name, headers)
  {
    StripUpserted(cfg, name, headers, rules);
    SourcesUpserted(cfg, name, headers, rules);
  }

  /** Repeating an upsert changes nothing exactly when no source rule bears a name of the family. */
  lemma {:induction false} UpsertTwice(cfg: Config, name: string, headers: seq<HeaderMatch>, rules: seq<Rule>)
    requires |rules| <= MAX_INT && cfg.canary != cfg.stable
    ensures Upsert(cfg, name, headers, Upsert(cfg, name, headers, rules)) == Upsert(cfg, name, headers, rules)
       <==> !SourceInFamily(cfg, name, rules)
  {
    var rec, sources := ManagedAs(cfg, name, headers), Sources(rules, cfg);
    var kept := Strip(rules, rec);
    UpsertAgain(cfg, name, headers, rules);
    SourcesOfStrip(rules, cfg, rec);
    StripShorter(sources, rec);
    OwnedSources(cfg, name, headers, rules);
    if SourceInFamily(cfg, name, rules) {
      assert |kept + Block(cfg, Sources(kept, cfg), name, headers)| < |kept + Block(cfg, sources, name, headers)|;
    } else {
      StripNone(sources, rec);
    }
  }

  lemma {:induction false} OwnedSources(cfg: Config, name: string, headers: seq<HeaderMatch>, rules: seq<Rule>)
    requires cfg.canary != cfg.stable
    ensures (forall r :: r in Sources(rules, cfg) ==> !ManagedAs(cfg, name, headers).Owns(r))
       <==> !SourceInFamily(cfg, name, rules)
  {
    var rec := ManagedAs(cfg, name, headers);
    SourcesMembers(rules, cfg);
    forall r | r in Sources(rules, cfg)
      ensures rec.Owns(r) <==> BearsFamilyName(r, name)
    {
      assert name in rec.names;
      if CanaryOnly(r, cfg.canary) {
        CanaryOnlyIsNoSource(r, cfg);
      }
    }
  }
}
