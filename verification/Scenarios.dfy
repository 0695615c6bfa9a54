/** Rollouts with concrete steps: the examples of the documentation, and runs that show where the hypotheses of
    the theorems about runs end. */
module Scenarios {
  import opened Gateway
  import opened Names
  import opened Rules
  import opened Experiments
  import opened Operations
  import opened Runs
  import opened WeightRuns
  import opened HeaderMatching
  import opened Precedence
  import opened Routing

  function ExactHeader(name: string, value: string): HeaderRule {
    HeaderRule(name, value, "", "")
  }

  function ExactMatch(name: string, value: string): HeaderMatch {
    HeaderMatch(name, Some(Exact), value)
  }

  lemma {:induction false} SetsExact(name: string, header: string, value: string)
    requires value != ""
    ensures Sets(SetHeader(name, Some([ExactHeader(header, value)])))
         == Some(Managed(name, [ExactMatch(header, value)]))
  {
    var rules := [ExactHeader(header, value)];
    assert HeaderOf(rules[0]) == Some(ExactMatch(header, value));
    assert HeaderList(rules) == [ExactMatch(header, value)];
  }

  // ----- two header routes on one rule

  /** Steps that set the routes `a` and `b`, in this order, and otherwise only weights without experiments. */
  predicate SetsTwo(ops: seq<Op>, i: nat, j: nat, a: Managed, b: Managed) {
    i < j < |ops|
    && forall k :: 0 <= k < |ops| ==>
         Sets(ops[k]) == (if k == i then Some(a) else if k == j then Some(b) else None)
         && (k == i || k == j || (ops[k].SetWeight? && ops[k].exp == NO_EXPERIMENT))
  }

  lemma {:induction false} LiveOfOne(ops: seq<Op>, i: nat, a: Managed)
    requires i < |ops|
    requires forall k :: 0 <= k < |ops| ==> !Removes(ops[k]) && Sets(ops[k]) == if k == i then Some(a) else None
    ensures Live(ops) == [a]
  {
    var n := |ops| - 1;
    if i < n {
      LiveOfOne(ops[..n], i, a);
    } else {
      NothingLive(ops[..n]);
    }
  }

  lemma {:induction false} NothingLive(ops: seq<Op>)
    requires forall k :: 0 <= k < |ops| ==> Sets(ops[k]).None?
    ensures Live(ops) == []
  {
    if ops != [] {
      NothingLive(ops[..|ops| - 1]);
    }
  }

  lemma {:induction false} WithoutOther(a: Managed, name: string)
    requires a.name != name
    ensures Without([a], name) == [a]
  {
    assert [a][..0] == [];
  }

  lemma {:induction false} LiveOfTwo(ops: seq<Op>, i: nat, j: nat, a: Managed, b: Managed)
    requires SetsTwo(ops, i, j, a, b) && a.name != b.name
    ensures Live(ops) == [a, b]
  {
    var n := |ops| - 1;
    if j < n {
      LiveOfTwo(ops[..n], i, j, a, b);
    } else {
      LiveOfOne(ops[..n], i, a);
      WithoutOther(a, b.name);
    }
  }

  /** One user rule without matches that splits the traffic. */
  predicate Split(cfg: Config, rule: Rule) {
    rule.name.None? && rule.matches == [] && |rule.backends| == 2
    && rule.backends[0].name == cfg.stable && rule.backends[1].name == cfg.canary
  }

  lemma {:induction false} SplitIsUserRule(cfg: Config, rule: Rule)
    requires MatchesHeaders(cfg.kind) && cfg.canary != cfg.stable && Split(cfg, rule)
    ensures UserRules(cfg, {}, [rule]) && Weighable(cfg, [rule]) && Sources([rule], cfg) == [rule]
  {
    AnchoredWithoutExperiments(cfg, rule);
    assert HasBackend(rule.backends, cfg.stable) && HasBackend(rule.backends, cfg.canary);
    UserRulesUnmanaged(cfg, {}, [rule]);
    assert [rule][0] == rule;
    assert Found(cfg, [rule], cfg.canary) && Found(cfg, [rule], cfg.stable);
    assert [rule][..0] == [];
  }

  lemma {:induction false} TwoCompatible(cfg: Config, rule: Rule, ops: seq<Op>, i: nat, j: nat, a: Managed, b: Managed)
    requires Split(cfg, rule) && SetsTwo(ops, i, j, a, b)
    requires a.name != b.name && !InFamily(b.name, a.name) && !Covers(a.headers, b.headers)
    ensures Compatible(cfg, [rule], ops)
  {
    OnlySplit(cfg, rule, b, a);
    LiveOfOne(ops[..j], i, a);
    forall k | 0 <= k < |ops| && Sets(ops[k]).Some?
      ensures ApartFromLive(cfg, [rule], Sets(ops[k]).value, Live(ops[..k]))
    {
      if k == i {
        NothingLive(ops[..i]);
      }
    }
  }

  lemma {:induction false} TwoAllowed(rule: Rule, ops: seq<Op>, i: nat, j: nat, a: Managed, b: Managed)
    requires rule.name.None? && SetsTwo(ops, i, j, a, b)
    ensures AllAllowed({}, [rule], ops) && forall k :: 0 <= k < |ops| && ops[k].SetWeight? ==> Quiet(ops[k].exp)
  {
    forall k | 0 <= k < |ops|
      ensures Allowed({}, [rule], ops[k]) && (ops[k].SetWeight? ==> Quiet(ops[k].exp))
    {
      assert Sets(ops[k]).Some? ==> k == i || k == j;
    }
  }

  /** After such steps the rules are the split rule with the last weight and a rule for each of the routes. */
  lemma {:induction false} TwoRoutes(cfg: Config, rule: Rule, start: RouteState, ops: seq<Op>, i: nat, j: nat,
                                     a: Managed, b: Managed)
    requires MatchesHeaders(cfg.kind) && cfg.canary != cfg.stable && Split(cfg, rule) && start.rules == [rule]
    requires SetsTwo(ops, i, j, a, b) && LastWeight(ops).Some?
    requires a.name != b.name && !InFamily(b.name, a.name) && !Covers(a.headers, b.headers)
    ensures UserRules(cfg, {}, [rule]) && AllAllowed({}, [rule], ops)
    ensures Compatible(cfg, Sources([rule], cfg), ops) && Live(ops) == [a, b] && Sources([rule], cfg) == [rule]
    ensures Run(cfg, WeightsOf(ops), start).rules == Weigh(cfg, LastWeight(ops).value, [rule])
    ensures Run(cfg, ops, start).rules
         == Weigh(cfg, LastWeight(ops).value, [rule]) + Blocks(cfg, [rule], [a, b])
  {
    hide AllAllowed, Blocks, Compatible, Live, Run, SetsTwo, Sources, UserRules, Weigh, Weighable;
    TwoAllowed(rule, ops, i, j, a, b);
    SplitIsUserRule(cfg, rule);
    LiveOfTwo(ops, i, j, a, b);
    TwoCompatible(cfg, rule, ops, i, j, a, b);
    QuietWeights(cfg, ops, start);
    ClosedForm(cfg, ops, start);
  }

  // ----- the examples of the documentation

  /** The steps of the first example up to the second header route. */
  function DocumentedSteps(): seq<Op> {
    [SetWeight(10, NO_EXPERIMENT),
     SetHeader("canary-route1", Some([ExactHeader("X-Canary-start", "ten-per-cent")])),
     SetWeight(50, NO_EXPERIMENT),
     SetHeader("canary-route2", Some([ExactHeader("X-Canary-middle", "half-traffic")]))]
  }

  function DocumentedRoutes(): seq<Managed> {
    [Managed("canary-route1", [ExactMatch("X-Canary-start", "ten-per-cent")]),
     Managed("canary-route2", [ExactMatch("X-Canary-middle", "half-traffic")])]
  }

  lemma {:induction false} DocumentedSets()
    ensures SetsTwo(DocumentedSteps(), 1, 3, DocumentedRoutes()[0], DocumentedRoutes()[1])
    ensures LastWeight(DocumentedSteps()) == Some(50)
  {
    var ops := DocumentedSteps();
    SetsExact("canary-route1", "X-Canary-start", "ten-per-cent");
    SetsExact("canary-route2", "X-Canary-middle", "half-traffic");
    assert LastWeight(ops[..3]) == Some(50) by {
      assert ops[..3][2] == ops[2];
    }
  }

  /** The injected rule that the documentation shows for a source rule without matches. */
  function DocumentedRule(cfg: Config, source: Rule, name: string, header: string, value: string): Rule
    requires |source.backends| == 2
  {
    Rule(Some(name),
         [Match(if cfg.kind == Grpc then GrpcCriteria(None) else HttpCriteria(None, [], None),
                [HeaderMatch(header, Some(Exact), value)])],
         source.filters,
         [BackendRef(Some(""), Some("Service"), cfg.canary, None, source.backends[1].port, None, [])],
         None)
  }

  lemma {:induction false} DocumentedClone(cfg: Config, rule: Rule, name: string, header: string, value: string)
    requires cfg.canary != cfg.stable && Split(cfg, rule)
    ensures Block(cfg, [rule], name, [ExactMatch(header, value)]) == [DocumentedRule(cfg, rule, name, header, value)]
  {
    var headers := [ExactMatch(header, value)];
    var clone := Clone(cfg, rule, name, headers);
    BlockNth(cfg, [rule], name, headers, 0);
    assert rule.backends[1].name == cfg.canary;
    CloneMeans(cfg, rule, name, headers);
    hide Clone, Block;
    assert clone.backends == [clone.backends[0]];
    assert clone.matches == [clone.matches[0]];
    assert clone.matches[0] == Match(clone.matches[0].criteria, headers);
  }

  lemma {:induction false} DocumentedRules(cfg: Config, rule: Rule)
    requires cfg.canary != cfg.stable && Split(cfg, rule)
    ensures Blocks(cfg, [rule], DocumentedRoutes())
         == [DocumentedRule(cfg, rule, "canary-route1", "X-Canary-start", "ten-per-cent"),
             DocumentedRule(cfg, rule, "canary-route2", "X-Canary-middle", "half-traffic")]
  {
    var m := DocumentedRoutes();
    DocumentedClone(cfg, rule, "canary-route1", "X-Canary-start", "ten-per-cent");
    DocumentedClone(cfg, rule, "canary-route2", "X-Canary-middle", "half-traffic");
    hide Block;
    assert m[..1] == [m[0]] && m[..1][..0] == [];
    assert Blocks(cfg, [rule], m[..1]) == Block(cfg, [rule], m[0].name, m[0].headers);
  }

  lemma {:induction false} DocumentedWeights(cfg: Config, rule: Rule)
    requires cfg.canary != cfg.stable && Split(cfg, rule)
    ensures Weigh(cfg, 50, [rule]) == [rule.(backends := [rule.backends[0].(weight := Some(50)),
                                                          rule.backends[1].(weight := Some(50))])]
  {
    var now := Weigh(cfg, 50, [rule])[0];
    WeighMeans(cfg, 50, [rule]);
    assert ShowsWeight(cfg, 50, [rule][0], now);
    assert now.backends == [now.backends[0], now.backends[1]];
    assert now == rule.(backends := now.backends);
  }

  /** The first example meets every hypothesis of the theorems about runs, and leaves what the documentation
      shows: the split rule at 50, then a rule for each of the two header routes. */
  lemma {:induction false} DocumentedRollout(cfg: Config, rule: Rule, start: RouteState)
    requires MatchesHeaders(cfg.kind) && cfg.canary != cfg.stable && Split(cfg, rule) && start.rules == [rule]
    ensures UserRules(cfg, {}, [rule]) && AllAllowed({}, [rule], DocumentedSteps())
    ensures Compatible(cfg, Sources([rule], cfg), DocumentedSteps())
    ensures var after := Run(cfg, DocumentedSteps(), start).rules;
            && |after| == 3
            && after[0] == rule.(backends := [rule.backends[0].(weight := Some(50)),
                                              rule.backends[1].(weight := Some(50))])
            && after[1] == DocumentedRule(cfg, rule, "canary-route1", "X-Canary-start", "ten-per-cent")
            && after[2] == DocumentedRule(cfg, rule, "canary-route2", "X-Canary-middle", "half-traffic")
  {
    var m := DocumentedRoutes();
    DocumentedRules(cfg, rule);
    DocumentedWeights(cfg, rule);
    hide Run, Weigh, UserRules, AllAllowed, Compatible, Next, Blocks, Block, Clone;
    DocumentedSets();
    assert "canary-route1"[12] != "canary-route2"[12];
    assert "X-Canary-start"[9] != "X-Canary-middle"[9];
    assert m[1].headers[0].name == "X-Canary-middle";
    TwoRoutes(cfg, rule, start, DocumentedSteps(), 1, 3, m[0], m[1]);
  }

  /** The steps of the second example up to the removal of its first header route. */
  function RemovalSteps(): seq<Op> {
    [SetWeight(20, NO_EXPERIMENT), SetWeight(40, NO_EXPERIMENT), SetWeight(60, NO_EXPERIMENT),
     SetHeader("header-route", Some([ExactHeader("X-Test", "test")])),
     SetHeader("header-route2", Some([ExactHeader("X-Test2", "test")])),
     SetWeight(80, NO_EXPERIMENT)]
  }

  function RemovalRoutes(): seq<Managed> {
    [Managed("header-route", [ExactMatch("X-Test", "test")]),
     Managed("header-route2", [ExactMatch("X-Test2", "test")])]
  }

  /** The second example ends with a step that is to remove its first header route: it removes both. */
  lemma {:induction false} DocumentedRemoval(cfg: Config, rule: Rule, start: RouteState)
    requires MatchesHeaders(cfg.kind) && cfg.canary != cfg.stable && Split(cfg, rule) && start.rules == [rule]
    ensures var before := Run(cfg, RemovalSteps(), start).rules;
            var after := Next(cfg, SetHeader("header-route", None), Run(cfg, RemovalSteps(), start)).rules;
            && before == Weigh(cfg, 80, [rule]) + Blocks(cfg, [rule], RemovalRoutes())
            && after == Weigh(cfg, 80, [rule])
            && after != Weigh(cfg, 80, [rule]) + Blocks(cfg, [rule], RemovalRoutes()[1..])
  {
    hide Run, Weigh, UserRules, AllAllowed, Compatible, Next;
    var ops, m := RemovalSteps(), RemovalRoutes();
    SetsExact("header-route", "X-Test", "test");
    SetsExact("header-route2", "X-Test2", "test");
    assert m[1].headers[0].name == "X-Test2";
    TwoRoutes(cfg, rule, start, ops, 3, 4, m[0], m[1]);
    RemovalByStep(cfg, {}, ops, start, "header-route");
    BlocksEmpty(cfg, [rule], m[1..]);
    assert |Weigh(cfg, 80, [rule]) + Blocks(cfg, [rule], m[1..])| > |Weigh(cfg, 80, [rule])|;
  }

  // ----- a second rollout

  /** A second rollout may set a header route whose headers are among those of a route that was live in the first. */
  lemma {:induction false} SecondRollout(cfg: Config, rule: Rule, a: Op, b: Op)
    requires Split(cfg, rule) && Sets(a).Some? && Sets(b).Some?
    requires a.name != b.name && !InFamily(b.name, a.name)
    requires !Covers(Sets(a).value.headers, Sets(b).value.headers)
    ensures Compatible(cfg, [rule], [a, b, RemoveManaged, a])
    ensures Covers(Sets(b).value.headers, Sets(a).value.headers) ==>
              !Compatible(cfg, [rule], [a, b, a])
  {
    var ops, m, x := [a, b, RemoveManaged, a], Sets(a).value, Sets(b).value;
    OnlySplit(cfg, rule, x, m);
    OnlySplit(cfg, rule, m, x);
    LiveOfOne([a], 0, m);
    assert ops[..0] == [] && ops[..1] == [a] && ops[..3] == [a, b, RemoveManaged];
    assert Live(ops[..3]) == [] && Live(ops[..0]) == [];
    assert [a, b, a][..2] == [a, b] && [a, b][..1] == [a];
    WithoutOther(m, x.name);
    assert Live([a, b]) == [m, x];
    assert x in Live([a, b, a][..2]);
  }

  /** When the rules for `b` on the split rule stay as `a` is set. */
  lemma {:induction false} OnlySplit(cfg: Config, rule: Rule, a: Managed, b: Managed)
    requires Split(cfg, rule)
    ensures Apart(cfg, [rule], a, b) <==> !InFamily(a.name, b.name) && !Covers(b.headers, a.headers)
  {
    assert EffectiveMatches(cfg.kind, [rule][0].matches)[0].headers + b.headers == b.headers;
    assert RuleName(b.name, 0) == b.name;
    assert NotNamed(a.name, b.name, 1) <==> !InFamily(a.name, b.name);
    assert NotSubsumed(cfg, [rule], a.headers, b.headers) <==> !Covers(b.headers, a.headers);
  }

  // ----- runs outside the hypotheses

  /** Setting a header route whose headers are among those of another removes the rules of the other, although
      nobody asked for that. */
  lemma {:induction false} WiderRouteRemoves(cfg: Config, rule: Rule)
    requires IsSource(rule, cfg)
    ensures var x, y := ExactMatch("x", "1"), ExactMatch("y", "1");
            Strip(Block(cfg, [rule], "b", [x, y]), ManagedAs(cfg, "a", [x])) == []
  {
    var x, y := ExactMatch("x", "1"), ExactMatch("y", "1");
    var block := Block(cfg, [rule], "b", [x, y]);
    BlockNth(cfg, [rule], "b", [x, y], 0);
    var first := block[0].matches[0].headers;
    assert first[|first| - 2] == x;
    assert Covers(first, [x]);
    assert ManagedAs(cfg, "a", [x]).Owns(block[0]);
    StripAll(block, ManagedAs(cfg, "a", [x]));
  }

  /** Setting the route `a` removes the rules of the route `a-1`, whatever the headers of the two are. */
  lemma {:induction false} NumberedRouteRemoved(cfg: Config, rule: Rule, x: seq<HeaderMatch>, y: seq<HeaderMatch>)
    requires IsSource(rule, cfg)
    ensures Strip(Block(cfg, [rule], "a-1", y), ManagedAs(cfg, "a", x)) == []
  {
    var block, rec := Block(cfg, [rule], "a-1", y), ManagedAs(cfg, "a", x);
    SurprisingFamilies();
    TakenClone(cfg, [rule], Managed("a", x), Managed("a-1", y), 0);
    assert rec.Owns(block[0]);
    StripAll(block, rec);
  }

  /** The rules of the route `a-` stay as long as there is one source rule, although the two families meet. */
  lemma {:induction false} DashedRouteStays(cfg: Config, rule: Rule, x: seq<HeaderMatch>, y: seq<HeaderMatch>)
    requires NotSubsumed(cfg, [rule], x, y)
    ensures Entangled("a", "a-")
    ensures Strip(Block(cfg, [rule], "a-", y), ManagedAs(cfg, "a", x)) == Block(cfg, [rule], "a-", y)
  {
    hide NotSubsumed, Block, Strip;
    assert "a-"[2..] == "";
    BlockSurvives(cfg, [rule], Managed("a", x), Managed("a-", y));
  }

  // ----- a header route that takes requests from a rule without the two services

  /** A gateway that compares header values exactly and accepts everything else. */
  function Literal(): Provider {
    Provider((c, l) => true, (t, v, actual) => v == actual, r => (0, 0))
  }

  /** A rule for the requests of one tenant, with a backend of their own, and the rule for all others. */
  predicate TenantRules(cfg: Config, rules: seq<Rule>) {
    |rules| == 2 && Split(cfg, rules[1])
    && rules[0].name.None? && |rules[0].backends| == 1 && rules[0].backends[0].name !in {cfg.canary, cfg.stable}
    && rules[0].matches == [Match(AnyCriteria(Http), [ExactMatch("x-tenant", "t")])]
  }

  function TenantSteps(): seq<Op> {
    [SetHeader("route", Some([ExactHeader("x-a", "1"), ExactHeader("x-b", "1")]))]
  }

  function TenantRoute(): Managed {
    Managed("route", [ExactMatch("x-a", "1"), ExactMatch("x-b", "1")])
  }

  function TenantRequest(): Request {
    Request("", map["x-tenant" := "t", "x-a" := "1", "x-b" := "1"])
  }

  lemma {:induction false} TenantNames()
    ensures Lower("x-tenant") == "x-tenant" && Lower("x-a") == "x-a" && Lower("x-b") == "x-b"
    ensures "x-a" != "x-b" && "x-a" != "x-tenant" && "x-b" != "x-tenant"
  {
    assert "x-a"[2] != "x-b"[2];
  }

  lemma {:induction false} TenantLive()
    ensures Sets(TenantSteps()[0]) == Some(TenantRoute()) && Live(TenantSteps()) == [TenantRoute()]
  {
    var rules := TenantSteps()[0].wanted.value;
    assert HeaderOf(rules[0]) == Some(ExactMatch("x-a", "1")) && HeaderOf(rules[1]) == Some(ExactMatch("x-b", "1"));
    assert HeaderList(rules) == TenantRoute().headers;
    LiveOfOne(TenantSteps(), 0, TenantRoute());
  }

  lemma {:induction false} TenantSources(cfg: Config, rules: seq<Rule>)
    requires TenantRules(cfg, rules)
    ensures Sources(rules, cfg) == [rules[1]]
  {
    assert rules[1].backends[0].name == cfg.stable && rules[1].backends[1].name == cfg.canary;
    assert IsSource(rules[1], cfg) && !HasBackend(rules[0].backends, cfg.stable);
    assert rules[..1] == [rules[0]] && rules[..1][..0] == [];
    assert Sources(rules[..1], cfg) == [];
  }

  lemma {:induction false} TenantHypotheses(cfg: Config, rules: seq<Rule>)
    requires cfg.kind == Http && cfg.canary != cfg.stable && TenantRules(cfg, rules)
    ensures UserRules(cfg, {}, rules) && AllAllowed({}, rules, TenantSteps()) && Sources(rules, cfg) == [rules[1]]
    ensures Compatible(cfg, Sources(rules, cfg), TenantSteps())
    ensures AllLiveDisjoint(cfg.kind, Sources(rules, cfg), Live(TenantSteps()))
  {
    TenantLive();
    AnchoredWithoutExperiments(cfg, rules[0]);
    AnchoredWithoutExperiments(cfg, rules[1]);
    TenantSources(cfg, rules);
  }

  lemma {:induction false} TenantCounts()
    ensures HeaderCount(TenantRoute().headers) == 2
  {
    var headers := TenantRoute().headers;
    TenantNames();
    assert headers[0].name == "x-a" && headers[1].name == "x-b";
    assert Lower(headers[0].name) in NamesIn(headers) && Lower(headers[1].name) in NamesIn(headers);
    assert NamesIn(headers) == {"x-a", "x-b"};
  }

  lemma {:induction false} FewNames(h: HeaderMatch)
    ensures HeaderCount([]) == 0 && HeaderCount([h]) == 1
  {
    NothingCounted();
    assert Lower([h][0].name) in NamesIn([h]);
    assert NamesIn([h]) == {Lower(h.name)};
  }

  /** How the request meets the two rules and the header route. */
  lemma {:induction false} TenantHits(cfg: Config, rules: seq<Rule>)
    requires cfg.kind == Http && TenantRules(cfg, rules)
    ensures var p, q := Literal(), TenantRequest();
            && HeadersHold(p, TenantRoute().headers, q) && HeaderCount(TenantRoute().headers) == 2
            && Entries(p, Http, rules, q) == iset{Entry(0, 0, Key(0, 1, 0, 1, 0)), Entry(1, 0, Key(0, 1, 0, 0, 0))}
  {
    var p, q, tenant := Literal(), TenantRequest(), [ExactMatch("x-tenant", "t")];
    TenantNames();
    TenantCounts();
    FewNames(tenant[0]);
    assert HeadersHold(p, tenant, q);
    assert MatchesOf(Http, rules, 1) == [Match(AnyCriteria(Http), [])];
    assert KeyOf(p, MatchesOf(Http, rules, 0)[0]) == Key(0, 1, 0, 1, 0);
    assert KeyOf(p, MatchesOf(Http, rules, 1)[0]) == Key(0, 1, 0, 0, 0);
  }

  const TENANT_ENTRY := Entry(0, 0, Key(0, 1, 0, 1, 0))
  const SPLIT_ENTRY := Entry(1, 0, Key(0, 1, 0, 0, 0))
  const CANARY_ENTRY := Entry(2, 0, Key(0, 1, 0, 2, 0))

  lemma {:induction false} TenantLeads(cfg: Config, rules: seq<Rule>)
    requires cfg.kind == Http && TenantRules(cfg, rules)
    ensures Routed(Literal(), Http, rules, TenantRequest(), Some(TENANT_ENTRY))
    ensures Leads(SourceEntries(Literal(), cfg, rules, TenantRequest()), Some(SPLIT_ENTRY))
  {
    TenantHits(cfg, rules);
    assert IsSource(rules[1], cfg) by {
      assert rules[1].backends[0].name == cfg.stable && rules[1].backends[1].name == cfg.canary;
    }
    assert !IsSource(rules[0], cfg);
    assert SourceEntries(Literal(), cfg, rules, TenantRequest()) == iset{SPLIT_ENTRY};
  }

  lemma {:induction false} TenantChosen()
    requires HeadersHold(Literal(), TenantRoute().headers, TenantRequest())
    ensures Marks(Literal(), [TenantRoute()], TenantRequest()) == [Mark(true, 2)]
    ensures Chosen([Mark(true, 2)]) == Some(0)
  {
    hide HeadersHold, HeaderCount;
    TenantCounts();
    MarkAt(Literal(), [TenantRoute()], TenantRequest(), 0);
    assert [Mark(true, 2)][..0] == [];
  }

  lemma {:induction false} TenantPrevails()
    ensures Prevailing(Some(TENANT_ENTRY), Offered(Some(0), 2, Some(SPLIT_ENTRY.(rule := 0)), 2, 1))
         == Some(CANARY_ENTRY)
  {
    assert Offset(0, 1) == 0;
  }

  lemma {:induction false} TenantReceiver(cfg: Config, rules: seq<Rule>)
    requires |rules| == 2 && IsSource(rules[1], cfg) && Sources(rules, cfg) == [rules[1]]
    requires HeadersHold(Literal(), TenantRoute().headers, TenantRequest())
    ensures Receiver(Literal(), cfg, rules, [TenantRoute()], TenantRequest(), Some(TENANT_ENTRY), Some(SPLIT_ENTRY))
         == Some(CANARY_ENTRY)
  {
    hide HeadersHold, HeaderCount, IsSource, Marks, Chosen, SourceIndex, Sources, Prevailing, Offered;
    SourceAt(rules, cfg, 1);
    TenantChosen();
    TenantPrevails();
    assert SourceOption(rules, cfg, Some(SPLIT_ENTRY)) == Some(SPLIT_ENTRY.(rule := 0));
  }

  /** The request of the tenant carries the headers of the route too. It goes to the backend of the tenant at the
      start, and to the canary service once the route is set, although its rule has neither of the two services. */
  lemma {:induction false} TenantDiverted(cfg: Config, start: RouteState)
    requires cfg.kind == Http && cfg.canary != cfg.stable && TenantRules(cfg, start.rules)
    ensures var after := Run(cfg, TenantSteps(), start).rules;
            && Routed(Literal(), Http, start.rules, TenantRequest(), Some(TENANT_ENTRY))
            && Routed(Literal(), Http, after, TenantRequest(), Some(CANARY_ENTRY))
            && |after| > 2 && CanaryOnly(after[2], cfg.canary)
  {
    hide Run, Routed, Receiver, UserRules, AllAllowed, Compatible, AllLiveDisjoint, Live, Leads, Sources, Entries,
         HeadersHold;
    var p, q, rules := Literal(), TenantRequest(), start.rules;
    TenantHypotheses(cfg, rules);
    TenantHits(cfg, rules);
    TenantLive();
    TenantLeads(cfg, rules);
    SourcesMembers(rules, cfg);
    assert rules[1] in Sources(rules, cfg);
    TenantReceiver(cfg, rules);
    RunRouting(p, cfg, {}, TenantSteps(), start, q, Some(TENANT_ENTRY), Some(SPLIT_ENTRY));
    ReceiverIsClone(p, cfg, {}, TenantSteps(), start, q, Some(TENANT_ENTRY), Some(SPLIT_ENTRY));
  }
}
