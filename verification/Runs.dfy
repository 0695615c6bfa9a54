/** Whole runs of operations: header routes never disturb the user's rules, and the injected rules are
    always exactly those of the managed routes that are live. */
module Runs {
  import opened Gateway
  import opened Labels
  import opened Names
  import opened Rules
  import opened Experiments
  import opened Operations

  ghost function Next(cfg: Config, op: Op, route: RouteState): RouteState {
    match Apply(cfg, op, route)
    case Commit(after) => after
    case Unchanged => route
    case Fail(_) => route
  }

  ghost function Run(cfg: Config, ops: seq<Op>, route: RouteState): RouteState {
    if ops == [] then route
    else Next(cfg, ops[|ops| - 1], Run(cfg, ops[..|ops| - 1], route))
  }

  lemma {:induction false} RunThen(cfg: Config, ops: seq<Op>, op: Op, route: RouteState)
    ensures Run(cfg, ops + [op], route) == Next(cfg, op, Run(cfg, ops, route))
  {
    assert (ops + [op])[..|ops|] == ops;
  }

  /** The run without its header operations. */
  function WeightsOf(ops: seq<Op>): seq<Op> {
    if ops == [] then []
    else
      var last := ops[|ops| - 1];
      WeightsOf(ops[..|ops| - 1]) + if last.SetWeight? then [last] else []
  }

  // ----- base rules

  /** Not even without its experiment backends does the rule look like an injected one. */
  predicate Anchored(cfg: Config, e: set<string>, rule: Rule) {
    var core := Core(cfg, e, rule.backends);
    !(|core| == 1 && core[0].name == cfg.canary)
  }

  predicate Unnamed(rule: Rule, base: string) {
    rule.name.Some? ==> !InFamily(base, rule.name.value)
  }

  predicate Separate(cfg: Config, e: set<string>) {
    cfg.canary != cfg.stable && cfg.canary !in e && cfg.stable !in e
  }

  /** The user's rules of an HTTP or gRPC route: none looks injected, none bears a declared name. */
  ghost predicate UserRules(cfg: Config, e: set<string>, rules: seq<Rule>) {
    MatchesHeaders(cfg.kind) && Separate(cfg, e)
    && forall i :: 0 <= i < |rules| ==>
         Anchored(cfg, e, rules[i]) && forall base :: base in cfg.declared ==> Unnamed(rules[i], base)
  }

  /** Experiments stay within the services `e`, and header routes do not take a name of the user. */
  ghost predicate Allowed(e: set<string>, rules: seq<Rule>, op: Op) {
    match op
    case SetWeight(_, exp) => ServicesWithin(exp, e)
    case SetHeader(name, _) => forall i :: 0 <= i < |rules| ==> Unnamed(rules[i], name)
    case RemoveManaged => true
  }

  ghost predicate AllAllowed(e: set<string>, rules: seq<Rule>, ops: seq<Op>) {
    forall k :: 0 <= k < |ops| ==> Allowed(e, rules, ops[k])
  }

  /** `now` is `was` up to experiment backends and the two weights. */
  predicate Evolved(cfg: Config, e: set<string>, was: Rule, now: Rule) {
    was.(backends := []) == now.(backends := [])
    && Core(cfg, e, was.backends) == Core(cfg, e, now.backends)
  }

  predicate AllEvolved(cfg: Config, e: set<string>, was: seq<Rule>, now: seq<Rule>) {
    |was| == |now| && forall i :: 0 <= i < |was| ==> Evolved(cfg, e, was[i], now[i])
  }

  lemma {:induction false} UserRulesEvolve(cfg: Config, e: set<string>, was: seq<Rule>, now: seq<Rule>)
    requires UserRules(cfg, e, was) && AllEvolved(cfg, e, was, now)
    ensures UserRules(cfg, e, now)
  {
    forall i | 0 <= i < |now|
      ensures Anchored(cfg, e, now[i]) && forall base :: base in cfg.declared ==> Unnamed(now[i], base)
    {
      assert Evolved(cfg, e, was[i], now[i]);
      forall base | base in cfg.declared
        ensures Unnamed(now[i], base)
      {
        assert Unnamed(was[i], base);
      }
    }
  }

  lemma {:induction false} AnchoredIsNotCanaryOnly(cfg: Config, e: set<string>, rule: Rule)
    requires Separate(cfg, e) && Anchored(cfg, e, rule)
    ensures !CanaryOnly(rule, cfg.canary)
  {
    if |rule.backends| == 1 && rule.backends[0].name !in e {
      assert Core(cfg, e, rule.backends[1..]) == [];
      assert Core(cfg, e, rule.backends) == [Bare(cfg, rule.backends[0])];
    }
  }

  /** Without experiments only the shape of an injected rule is excluded. */
  lemma {:induction false} AnchoredWithoutExperiments(cfg: Config, rule: Rule)
    ensures Anchored(cfg, {}, rule) <==> !CanaryOnly(rule, cfg.canary)
  {
    CoreOfAll(cfg, {}, rule.backends);
    var core := Core(cfg, {}, rule.backends);
    assert |core| == 1 ==> core[0].name == rule.backends[0].name;
  }

  lemma {:induction false} CoreOfAll(cfg: Config, e: set<string>, backends: seq<BackendRef>)
    requires !HasRecorded(backends, e)
    ensures var core := Core(cfg, e, backends);
            |core| == |backends| && forall i :: 0 <= i < |core| ==> core[i] == Bare(cfg, backends[i])
  {
    if backends != [] {
      assert backends[0].name !in e;
      assert forall i :: 0 <= i < |backends[1..]| ==> backends[1..][i] == backends[i + 1];
      CoreOfAll(cfg, e, backends[1..]);
    }
  }

  lemma {:induction false} UserRulesUnmanaged(cfg: Config, e: set<string>, rules: seq<Rule>)
    requires UserRules(cfg, e, rules)
    ensures forall r :: r in rules ==> !AnyManaged(cfg).Owns(r)
  {
    forall i | 0 <= i < |rules|
      ensures !AnyManaged(cfg).Owns(rules[i])
    {
      AnchoredIsNotCanaryOnly(cfg, e, rules[i]);
      if rules[i].name.Some? {
        assert forall base :: base in cfg.declared ==> Unnamed(rules[i], base);
      }
    }
  }

  lemma {:induction false} WeighEvolves(cfg: Config, e: set<string>, weight: Int32, rules: seq<Rule>)
    ensures AllEvolved(cfg, e, rules, Weigh(cfg, weight, rules))
  {
    forall i | 0 <= i < |rules|
      ensures Evolved(cfg, e, rules[i], Weigh(cfg, weight, rules)[i])
    {
      WeighKeepsCore(cfg, weight, e, rules[i].backends);
    }
  }

  lemma {:induction false} HandleEvolves(cfg: Config, e: set<string>, exp: Experiment, rules: seq<Rule>)
    requires ServicesWithin(exp, e)
    ensures AllEvolved(cfg, e, rules, HandleRules(cfg, exp, rules))
  {
    var i := Selected(rules, cfg);
    if i < |rules| {
      HandleKeepsCore(cfg, exp, e, rules[i].backends);
    }
  }

  /** Setting a weight, with or without an experiment, keeps everything of every rule except the two
      weights and the experiment backends. */
  lemma {:induction false} WeightEvolves(cfg: Config, e: set<string>, weight: Int32, exp: Experiment, rules: seq<Rule>)
    requires ServicesWithin(exp, e)
    ensures AllEvolved(cfg, e, rules, AfterWeight(cfg, weight, exp, rules))
  {
    var weighed := Weigh(cfg, weight, rules);
    WeighEvolves(cfg, e, weight, rules);
    HandleEvolves(cfg, e, exp, weighed);
    forall i | 0 <= i < |rules|
      ensures Evolved(cfg, e, rules[i], AfterWeight(cfg, weight, exp, rules)[i])
    {
      assert Evolved(cfg, e, rules[i], weighed[i]);
      assert Evolved(cfg, e, weighed[i], HandleRules(cfg, exp, weighed)[i]);
    }
  }

  // ----- injected rules lie behind the user's rules

  ghost predicate Injected(cfg: Config, tail: seq<Rule>) {
    forall r :: r in tail ==> CanaryOnly(r, cfg.canary)
  }

  lemma {:induction false} InjectedIsManaged(cfg: Config, tail: seq<Rule>)
    requires Injected(cfg, tail)
    ensures forall r :: r in tail ==> AnyManaged(cfg).Owns(r)
  {
  }

  lemma {:induction false} FoundConcat(cfg: Config, rules: seq<Rule>, tail: seq<Rule>, name: string)
    requires Injected(cfg, tail)
    ensures Found(cfg, rules + tail, name) <==> Found(cfg, rules, name)
  {
    InjectedIsManaged(cfg, tail);
    assert forall i :: 0 <= i < |rules| ==> (rules + tail)[i] == rules[i];
    assert forall i :: |rules| <= i < |rules + tail| ==> (rules + tail)[i] in tail;
  }

  /** Setting a weight works on the user's rules as if the injected ones were not there, and leaves the
      injected ones alone: the experiment handler never selects one of them. */
  lemma {:induction false} WeightIgnoresInjected(cfg: Config, weight: Int32, exp: Experiment, rules: seq<Rule>,
                                                 tail: seq<Rule>)
    requires Injected(cfg, tail)
    ensures Weighable(cfg, rules + tail) <==> Weighable(cfg, rules)
    ensures Weighable(cfg, rules) ==>
              AfterWeight(cfg, weight, exp, rules + tail) == AfterWeight(cfg, weight, exp, rules) + tail
  {
    FoundConcat(cfg, rules, tail, cfg.canary);
    FoundConcat(cfg, rules, tail, cfg.stable);
    if Weighable(cfg, rules) {
      var weighed := Weigh(cfg, weight, rules);
      WeighConcat(cfg, weight, rules, tail);
      InjectedIsManaged(cfg, tail);
      assert Weigh(cfg, weight, tail) == tail;
      ExperimentRuleExists(cfg, weight, rules);
      SelectedConcat(weighed, tail, cfg);
      var i := Selected(weighed, cfg);
      assert HandleRules(cfg, exp, weighed + tail) == HandleRules(cfg, exp, weighed) + tail;
    }
  }

  lemma {:induction false} RemoveInjected(cfg: Config, e: set<string>, rules: seq<Rule>, tail: seq<Rule>,
                                          labels: LabelMap)
    requires UserRules(cfg, e, rules) && Injected(cfg, tail)
    ensures Next(cfg, RemoveManaged, RouteState(rules + tail, labels)) == RouteState(rules, labels)
  {
    UserRulesUnmanaged(cfg, e, rules);
    InjectedIsManaged(cfg, tail);
    StripConcat(rules, tail, AnyManaged(cfg));
    StripNone(rules, AnyManaged(cfg));
    StripAll(tail, AnyManaged(cfg));
    assert rules + [] == rules;
    if tail == [] {
      assert rules + tail == rules;
    }
  }

  lemma {:induction false} SourcesBehind(cfg: Config, rules: seq<Rule>, tail: seq<Rule>)
    requires cfg.canary != cfg.stable && Injected(cfg, tail)
    ensures Sources(rules + tail, cfg) == Sources(rules, cfg)
  {
    SourcesConcat(rules, tail, cfg);
    forall r | r in tail
      ensures !IsSource(r, cfg)
    {
      CanaryOnlyIsNoSource(r, cfg);
    }
    NoSources(tail, cfg);
    assert Sources(rules, cfg) + [] == Sources(rules, cfg);
  }

  lemma {:induction false} UserRulesStay(cfg: Config, e: set<string>, name: string, headers: seq<HeaderMatch>,
                                         rules: seq<Rule>)
    requires UserRules(cfg, e, rules)
    requires forall i :: 0 <= i < |rules| ==> Unnamed(rules[i], name)
    ensures Strip(rules, ManagedAs(cfg, name, headers)) == rules
  {
    var rec := ManagedAs(cfg, name, headers);
    forall i | 0 <= i < |rules|
      ensures !rec.Owns(rules[i])
    {
      AnchoredIsNotCanaryOnly(cfg, e, rules[i]);
      assert Unnamed(rules[i], name);
    }
    StripNone(rules, rec);
  }

  lemma {:induction false} StripBehind(cfg: Config, e: set<string>, name: string, headers: seq<HeaderMatch>,
                    rules: seq<Rule>, tail: seq<Rule>)
    requires UserRules(cfg, e, rules)
    requires forall i :: 0 <= i < |rules| ==> Unnamed(rules[i], name)
    ensures Strip(rules + tail, ManagedAs(cfg, name, headers)) == rules + Strip(tail, ManagedAs(cfg, name, headers))
  {
    UserRulesStay(cfg, e, name, headers, rules);
    StripConcat(rules, tail, ManagedAs(cfg, name, headers));
  }

  /** An upsert leaves the user's rules in place and puts only injected rules behind them. */
  lemma {:induction false} UpsertBehind(cfg: Config, e: set<string>, name: string, headers: seq<HeaderMatch>,
                     rules: seq<Rule>, tail: seq<Rule>)
    requires UserRules(cfg, e, rules) && Injected(cfg, tail)
    requires forall i :: 0 <= i < |rules| ==> Unnamed(rules[i], name)
    ensures var kept := Strip(tail, ManagedAs(cfg, name, headers));
            Upsert(cfg, name, headers, rules + tail)
            == rules + (kept + Block(cfg, Sources(rules, cfg), name, headers))
    ensures Sources(rules + tail, cfg) == Sources(rules, cfg)
  {
    SourcesBehind(cfg, rules, tail);
    StripBehind(cfg, e, name, headers, rules, tail);
    ConcatAssociates(rules, Strip(tail, ManagedAs(cfg, name, headers)), Block(cfg, Sources(rules, cfg), name, headers));
  }

  // ----- isolation

  /** `full` is `bare` with injected rules behind it, and the same labels. */
  ghost predicate Layered(cfg: Config, bare: RouteState, full: RouteState) {
    |bare.rules| <= |full.rules|
    && full.rules[..|bare.rules|] == bare.rules
    && Injected(cfg, full.rules[|bare.rules|..])
    && full.labels == bare.labels
  }

  lemma {:induction false} HeaderLayer(cfg: Config, e: set<string>, op: Op, bare: RouteState, full: RouteState)
    requires !op.SetWeight? && UserRules(cfg, e, bare.rules) && Allowed(e, bare.rules, op)
    requires Layered(cfg, bare, full)
    ensures Layered(cfg, bare, Next(cfg, op, full))
  {
    var tail := full.rules[|bare.rules|..];
    assert full.rules == bare.rules + tail;
    if op.RemoveManaged? || op.wanted.None? {
      RemoveInjected(cfg, e, bare.rules, tail, full.labels);
      assert Next(cfg, op, full) == bare;
    } else if ValidHeaderRules(op.wanted.value) && Sources(full.rules, cfg) != [] {
      var headers := HeaderList(op.wanted.value);
      var newTail := UpsertTail(cfg, op.name, headers, bare.rules, tail);
      UpsertBehind(cfg, e, op.name, headers, bare.rules, tail);
      assert Next(cfg, op, full).rules == bare.rules + newTail;
      assert (bare.rules + newTail)[|bare.rules|..] == newTail;
    }
  }

  /** What an upsert makes of the injected rules. */
  lemma {:induction false} UpsertTail(cfg: Config, name: string, headers: seq<HeaderMatch>, rules: seq<Rule>,
                                      tail: seq<Rule>)
    returns (newTail: seq<Rule>)
    requires Injected(cfg, tail)
    ensures newTail == Strip(tail, ManagedAs(cfg, name, headers)) + Block(cfg, Sources(rules, cfg), name, headers)
    ensures Injected(cfg, newTail)
  {
    StripMembers(tail, ManagedAs(cfg, name, headers));
    BlockIsCanaryOnly(cfg, Sources(rules, cfg), name, headers);
    newTail := Strip(tail, ManagedAs(cfg, name, headers)) + Block(cfg, Sources(rules, cfg), name, headers);
  }

  lemma {:induction false} WeightLayer(cfg: Config, op: Op, bare: RouteState, full: RouteState)
    requires MatchesHeaders(cfg.kind) && op.SetWeight? && Layered(cfg, bare, full)
    ensures Layered(cfg, Next(cfg, op, bare), Next(cfg, op, full))
  {
    var tail := full.rules[|bare.rules|..];
    assert full.rules == bare.rules + tail;
    WeightIgnoresInjected(cfg, op.weight, op.exp, bare.rules, tail);
    if Weighable(cfg, bare.rules) {
      var after := AfterWeight(cfg, op.weight, op.exp, bare.rules);
      assert (after + tail)[..|after|] == after && (after + tail)[|after|..] == tail;
    }
  }

  lemma {:induction false} NextEvolves(cfg: Config, e: set<string>, op: Op, was: seq<Rule>, route: RouteState)
    requires MatchesHeaders(cfg.kind) && op.SetWeight? && ServicesWithin(op.exp, e)
    requires AllEvolved(cfg, e, was, route.rules)
    ensures AllEvolved(cfg, e, was, Next(cfg, op, route).rules)
  {
    WeightEvolves(cfg, e, op.weight, op.exp, route.rules);
    var after := AfterWeight(cfg, op.weight, op.exp, route.rules);
    forall i | 0 <= i < |was|
      ensures Evolved(cfg, e, was[i], after[i])
    {
      assert Evolved(cfg, e, was[i], route.rules[i]) && Evolved(cfg, e, route.rules[i], after[i]);
    }
  }

  /** Isolation. After any run, with any header routes and experiments, the user's rules come first and
      are what the run without its header operations makes of them; everything behind them is injected.
      Compared with the start, each of the user's rules keeps its name, matches, filters and policy, and
      all backends but those of experiments, in order and up to the canary and stable weights. */
  lemma {:induction false} Isolation(cfg: Config, e: set<string>, ops: seq<Op>, start: RouteState)
    requires UserRules(cfg, e, start.rules) && AllAllowed(e, start.rules, ops)
    ensures Layered(cfg, Run(cfg, WeightsOf(ops), start), Run(cfg, ops, start))
    ensures AllEvolved(cfg, e, start.rules, Run(cfg, WeightsOf(ops), start).rules)
  {
    if ops == [] {
    } else {
      var n := |ops| - 1;
      var before, op := ops[..n], ops[n];
      Isolation(cfg, e, before, start);
      var bare, full := Run(cfg, WeightsOf(before), start), Run(cfg, before, start);
      assert Allowed(e, start.rules, op);
      UserRulesEvolve(cfg, e, start.rules, bare.rules);
      if op.SetWeight? {
        RunThen(cfg, WeightsOf(before), op, start);
        WeightLayer(cfg, op, bare, full);
        NextEvolves(cfg, e, op, start.rules, bare);
      } else {
        assert WeightsOf(ops) == WeightsOf(before);
        AllowedEvolves(cfg, e, start.rules, bare.rules, op);
        HeaderLayer(cfg, e, op, bare, full);
      }
    }
  }

  lemma {:induction false} AllowedEvolves(cfg: Config, e: set<string>, was: seq<Rule>, now: seq<Rule>, op: Op)
    requires Allowed(e, was, op) && AllEvolved(cfg, e, was, now)
    ensures Allowed(e, now, op)
  {
    if op.SetHeader? {
      forall i | 0 <= i < |now|
        ensures Unnamed(now[i], op.name)
      {
        assert Evolved(cfg, e, was[i], now[i]) && Unnamed(was[i], op.name);
      }
    }
  }

  /** Round trip. Whatever header routes a run sets, removing the managed routes at its end leaves exactly
      what the run would have left without any header route. */
  lemma {:induction false} RemovalRestores(cfg: Config, e: set<string>, ops: seq<Op>, start: RouteState)
    requires UserRules(cfg, e, start.rules) && AllAllowed(e, start.rules, ops)
    ensures Run(cfg, ops + [RemoveManaged], start) == Run(cfg, WeightsOf(ops), start)
    ensures WeightsOf(ops) == [] ==> Run(cfg, ops + [RemoveManaged], start) == start
  {
    Isolation(cfg, e, ops, start);
    var bare, full := Run(cfg, WeightsOf(ops), start), Run(cfg, ops, start);
    var tail := full.rules[|bare.rules|..];
    assert full.rules == bare.rules + tail;
    UserRulesEvolve(cfg, e, start.rules, bare.rules);
    RemoveInjected(cfg, e, bare.rules, tail, full.labels);
    RunThen(cfg, ops, RemoveManaged, start);
  }

  /** A removal that leaves a route as it was at the start shows that no rule was taken for an injected one. */
  lemma {:induction false} RestoredOnlyIfUnmanaged(cfg: Config, ops: seq<Op>, start: RouteState)
    requires MatchesHeaders(cfg.kind) && Run(cfg, ops + [RemoveManaged], start) == start
    ensures forall r :: r in start.rules ==> !AnyManaged(cfg).Owns(r)
  {
    var before := Run(cfg, ops, start);
    RunThen(cfg, ops, RemoveManaged, start);
    StripMembers(before.rules, AnyManaged(cfg));
    StripShorter(before.rules, AnyManaged(cfg));
  }

  // ----- the injected rules, exactly

  datatype Managed = Managed(name: string, headers: seq<HeaderMatch>)

  function Without(live: seq<Managed>, name: string): (rest: seq<Managed>)
    ensures forall m :: m in rest <==> m in live && m.name != name
  {
    if live == [] then []
    else
      var last := live[|live| - 1];
      Without(live[..|live| - 1], name) + if last.name == name then [] else [last]
  }

  /** The managed route an operation sets, if it sets one. */
  function Sets(op: Op): Option<Managed> {
    if op.SetHeader? && op.wanted.Some? && ValidHeaderRules(op.wanted.value)
    then Some(Managed(op.name, HeaderList(op.wanted.value)))
    else None
  }

  predicate Removes(op: Op) {
    op.RemoveManaged? || (op.SetHeader? && op.wanted.None?)
  }

  /** The live managed routes, in the order in which they were last set. */
  function Live(ops: seq<Op>): seq<Managed> {
    if ops == [] then []
    else
      var before, op := Live(ops[..|ops| - 1]), ops[|ops| - 1];
      if Removes(op) then []
      else if Sets(op).Some? then Without(before, Sets(op).value.name) + [Sets(op).value]
      else before
  }

  function Blocks(cfg: Config, sources: seq<Rule>, live: seq<Managed>): seq<Rule> {
    if live == [] then []
    else
      var last := live[|live| - 1];
      Blocks(cfg, sources, live[..|live| - 1]) + Block(cfg, sources, last.name, last.headers)
  }

  /** No rule injected for `other` has, in one of its matches, all the header names of `headers`. */
  ghost predicate NotSubsumed(cfg: Config, sources: seq<Rule>, headers: seq<HeaderMatch>, other: seq<HeaderMatch>) {
    forall i, j ::
      0 <= i < |sources| && 0 <= j < |EffectiveMatches(cfg.kind, sources[i].matches)| ==>
        !Covers(EffectiveMatches(cfg.kind, sources[i].matches)[j].headers + other, headers)
  }

  /** The family of `base` contains none of the names of the rules injected for `other`. */
  predicate NotNamed(base: string, other: string, size: nat) {
    forall i :: 0 <= i < size ==> !InFamily(base, RuleName(other, i))
  }

  /** Setting `a` leaves the rules injected for `b` alone. */
  ghost predicate Apart(cfg: Config, sources: seq<Rule>, a: Managed, b: Managed) {
    NotNamed(a.name, b.name, |sources|) && NotSubsumed(cfg, sources, a.headers, b.headers)
  }

  /** Setting `m` leaves the rules injected for the differently named live routes alone. */
  ghost predicate ApartFromLive(cfg: Config, sources: seq<Rule>, m: Managed, live: seq<Managed>) {
    forall x :: x in live && x.name != m.name ==> Apart(cfg, sources, m, x)
  }

  /** Every managed route set in a run leaves those alone that are live then. */
  ghost predicate Compatible(cfg: Config, sources: seq<Rule>, ops: seq<Op>) {
    forall i :: 0 <= i < |ops| && Sets(ops[i]).Some? ==>
      ApartFromLive(cfg, sources, Sets(ops[i]).value, Live(ops[..i]))
  }

  /** A rule injected for `other` has the shape of a route with these headers exactly when it is subsumed. */
  lemma {:induction false} ShapeOfClone(cfg: Config, source: Rule, ruleName: string, headers: seq<HeaderMatch>,
                                        other: seq<HeaderMatch>)
    ensures Recogniser({}, cfg.canary, Some(headers)).ByShape(Clone(cfg, source, ruleName, other)) <==>
            exists j :: 0 <= j < |EffectiveMatches(cfg.kind, source.matches)|
              && Covers(EffectiveMatches(cfg.kind, source.matches)[j].headers + other, headers)
  {
    var clone, matches := Clone(cfg, source, ruleName, other), EffectiveMatches(cfg.kind, source.matches);
    assert clone.matches == MergeAll(matches, other);
    if j :| 0 <= j < |matches| && Covers(matches[j].headers + other, headers) {
      assert Covers(clone.matches[j].headers, headers);
    }
  }

  /** The upsert of `m` takes the rule injected for `other` and source `i`: by name or by shape. */
  lemma {:induction false} TakenClone(cfg: Config, sources: seq<Rule>, m: Managed, other: Managed, i: nat)
    requires i < |sources|
    ensures ManagedAs(cfg, m.name, m.headers).Owns(Block(cfg, sources, other.name, other.headers)[i]) <==>
            InFamily(m.name, RuleName(other.name, i))
            || exists j :: 0 <= j < |EffectiveMatches(cfg.kind, sources[i].matches)|
                 && Covers(EffectiveMatches(cfg.kind, sources[i].matches)[j].headers + other.headers, m.headers)
  {
    BlockNth(cfg, sources, other.name, other.headers, i);
    ShapeOfClone(cfg, sources[i], RuleName(other.name, i), m.headers, other.headers);
    assert m.name in ManagedAs(cfg, m.name, m.headers).names;
  }

  /** Exactly when one managed route survives the upsert of another: the whole block stays if and only if none
      of its names is in the family of the other name and no match in it has all the new header names. */
  lemma {:induction false} BlockSurvives(cfg: Config, sources: seq<Rule>, m: Managed, other: Managed)
    ensures Strip(Block(cfg, sources, other.name, other.headers), ManagedAs(cfg, m.name, m.headers))
            == Block(cfg, sources, other.name, other.headers)
       <==> Apart(cfg, sources, m, other)
  {
    var rec, block := ManagedAs(cfg, m.name, m.headers), Block(cfg, sources, other.name, other.headers);
    forall i | 0 <= i < |sources|
      ensures rec.Owns(block[i]) <==>
              InFamily(m.name, RuleName(other.name, i))
              || exists j :: 0 <= j < |EffectiveMatches(cfg.kind, sources[i].matches)|
                   && Covers(EffectiveMatches(cfg.kind, sources[i].matches)[j].headers + other.headers, m.headers)
    {
      TakenClone(cfg, sources, m, other, i);
    }
    StripShorter(block, rec);
    if forall i :: 0 <= i < |block| ==> !rec.Owns(block[i]) {
      StripNone(block, rec);
    } else {
      var i :| 0 <= i < |block| && rec.Owns(block[i]);
      assert block[i] in block;
    }
  }

  /** For names that are not entangled only the headers matter. */
  lemma {:induction false} UntangledApart(cfg: Config, sources: seq<Rule>, a: Managed, b: Managed)
    requires |sources| <= MAX_INT && !Entangled(a.name, b.name)
    ensures Apart(cfg, sources, a, b) <==> NotSubsumed(cfg, sources, a.headers, b.headers)
  {
    forall i | 0 <= i < |sources|
      ensures !InFamily(a.name, RuleName(b.name, i))
    {
      ForeignName(a.name, b.name, i);
    }
  }

  /** A block is removed whole by an upsert of its own name, whatever the new headers are. */
  lemma {:induction false} BlockReplaced(cfg: Config, sources: seq<Rule>, m: Managed, headers: seq<HeaderMatch>)
    requires |sources| <= MAX_INT
    ensures Strip(Block(cfg, sources, m.name, m.headers), ManagedAs(cfg, m.name, headers)) == []
  {
    var rec := ManagedAs(cfg, m.name, headers);
    assert m.name in rec.names;
    BlockOwned(cfg, sources, m.name, m.headers, rec);
    StripAll(Block(cfg, sources, m.name, m.headers), rec);
  }

  lemma {:induction false} StripWhole(rules: seq<Rule>, rec: Recogniser)
    ensures |Strip(rules, rec)| == |rules| <==> Strip(rules, rec) == rules
  {
    StripShorter(rules, rec);
    if |Strip(rules, rec)| == |rules| {
      StripNone(rules, rec);
    }
  }

  /** Of the rules injected for the other routes, an upsert removes none exactly if it is apart from all of them. */
  lemma {:induction false} StrippedBlocks(cfg: Config, sources: seq<Rule>, live: seq<Managed>, m: Managed)
    requires |sources| <= MAX_INT
    ensures var stripped := Strip(Blocks(cfg, sources, live), ManagedAs(cfg, m.name, m.headers));
            var others := Blocks(cfg, sources, Without(live, m.name));
            && |stripped| <= |others|
            && (|stripped| == |others| <==> ApartFromLive(cfg, sources, m, live))
            && (ApartFromLive(cfg, sources, m, live) ==> stripped == others)
  {
    hide Block, Strip, Apart;
    if live == [] {
      NothingStripped(ManagedAs(cfg, m.name, m.headers));
    } else {
      var n, rec := |live| - 1, ManagedAs(cfg, m.name, m.headers);
      var rest, last := live[..n], live[n];
      StrippedBlocks(cfg, sources, rest, m);
      StripConcat(Blocks(cfg, sources, rest), Block(cfg, sources, last.name, last.headers), rec);
      ApartNext(cfg, sources, m, live);
      if last.name == m.name {
        BlockReplaced(cfg, sources, last, m.headers);
        assert Without(live, m.name) == Without(rest, m.name);
      } else {
        BlockSurvives(cfg, sources, m, last);
        StripWhole(Block(cfg, sources, last.name, last.headers), rec);
        assert Without(live, m.name)[..|Without(live, m.name)| - 1] == Without(rest, m.name);
      }
    }
  }

  lemma {:induction false} NothingStripped(rec: Recogniser)
    ensures Strip([], rec) == []
  {
  }

  lemma {:induction false} ApartNext(cfg: Config, sources: seq<Rule>, m: Managed, live: seq<Managed>)
    requires live != []
    ensures var n := |live| - 1;
            ApartFromLive(cfg, sources, m, live) <==>
            ApartFromLive(cfg, sources, m, live[..n]) && (live[n].name != m.name ==> Apart(cfg, sources, m, live[n]))
  {
    assert live == live[..|live| - 1] + [live[|live| - 1]];
  }

  lemma {:induction false} BlocksInjected(cfg: Config, sources: seq<Rule>, live: seq<Managed>)
    ensures Injected(cfg, Blocks(cfg, sources, live))
  {
    if live != [] {
      BlocksInjected(cfg, sources, live[..|live| - 1]);
      BlockIsCanaryOnly(cfg, sources, live[|live| - 1].name, live[|live| - 1].headers);
    }
  }

  lemma {:induction false} SameSource(cfg: Config, e: set<string>, was: Rule, now: Rule)
    requires Separate(cfg, e) && Evolved(cfg, e, was, now)
    ensures IsSource(was, cfg) <==> IsSource(now, cfg)
    ensures PortOf(was.backends, cfg.canary) == PortOf(now.backends, cfg.canary)
  {
    CoreKnows(cfg, e, was.backends, cfg.canary);
    CoreKnows(cfg, e, was.backends, cfg.stable);
    CoreKnows(cfg, e, now.backends, cfg.canary);
    CoreKnows(cfg, e, now.backends, cfg.stable);
  }

  lemma {:induction false} EvolvedConcat(cfg: Config, e: set<string>, a: seq<Rule>, b: seq<Rule>,
                                         c: seq<Rule>, d: seq<Rule>)
    requires AllEvolved(cfg, e, a, c) && AllEvolved(cfg, e, b, d)
    ensures AllEvolved(cfg, e, a + b, c + d)
  {
  }

  lemma {:induction false} SourcesEvolve(cfg: Config, e: set<string>, was: seq<Rule>, now: seq<Rule>)
    requires Separate(cfg, e) && AllEvolved(cfg, e, was, now)
    ensures AllEvolved(cfg, e, Sources(was, cfg), Sources(now, cfg))
  {
    if was != [] {
      var n := |was| - 1;
      SourcesEvolve(cfg, e, was[..n], now[..n]);
      assert Evolved(cfg, e, was[n], now[n]);
      SameSource(cfg, e, was[n], now[n]);
      var a, b := if IsSource(was[n], cfg) then [was[n]] else [], if IsSource(now[n], cfg) then [now[n]] else [];
      EvolvedConcat(cfg, e, Sources(was[..n], cfg), a, Sources(now[..n], cfg), b);
    }
  }

  /** The rules injected for a managed route do not depend on when it was set. */
  lemma {:induction false} SameBlock(cfg: Config, e: set<string>, was: seq<Rule>, now: seq<Rule>, name: string,
                                     headers: seq<HeaderMatch>)
    requires Separate(cfg, e) && AllEvolved(cfg, e, was, now)
    ensures Block(cfg, Sources(was, cfg), name, headers) == Block(cfg, Sources(now, cfg), name, headers)
  {
    SourcesEvolve(cfg, e, was, now);
    SameClones(cfg, e, Sources(was, cfg), Sources(now, cfg), name, headers);
  }

  lemma {:induction false} SameClones(cfg: Config, e: set<string>, a: seq<Rule>, b: seq<Rule>, name: string,
                                      headers: seq<HeaderMatch>)
    requires Separate(cfg, e) && AllEvolved(cfg, e, a, b)
    ensures Block(cfg, a, name, headers) == Block(cfg, b, name, headers)
  {
    if a != [] {
      var n := |a| - 1;
      SameClones(cfg, e, a[..n], b[..n], name, headers);
      assert Evolved(cfg, e, a[n], b[n]);
      SameSource(cfg, e, a[n], b[n]);
      assert a[n].(backends := []).matches == a[n].matches && a[n].(backends := []).filters == a[n].filters;
      assert b[n].(backends := []).matches == b[n].matches && b[n].(backends := []).filters == b[n].filters;
    }
  }

  lemma {:induction false} NoBlocks(cfg: Config, live: seq<Managed>)
    ensures Blocks(cfg, [], live) == []
  {
    if live != [] {
      NoBlocks(cfg, live[..|live| - 1]);
    }
  }

  /** The step that sets a route does what the map does exactly if it leaves the other live routes alone. */
  lemma {:induction false} SetStep(cfg: Config, e: set<string>, start: seq<Rule>, bare: RouteState,
                                   live: seq<Managed>, op: Op)
    requires Sets(op).Some? && |start| <= MAX_INT
    requires UserRules(cfg, e, bare.rules) && Allowed(e, bare.rules, op) && AllEvolved(cfg, e, start, bare.rules)
    ensures var full := bare.(rules := bare.rules + Blocks(cfg, Sources(start, cfg), live));
            Next(cfg, op, full) == bare.(rules := bare.rules
              + Blocks(cfg, Sources(start, cfg), Without(live, op.name) + [Sets(op).value]))
            <==> ApartFromLive(cfg, Sources(start, cfg), Sets(op).value, live)
  {
    hide Apart, Evolved, Injected, Strip;
    var m, sources := Sets(op).value, Sources(start, cfg);
    var tail, rec := Blocks(cfg, sources, live), ManagedAs(cfg, m.name, m.headers);
    var newLive := Without(live, op.name) + [m];
    BlocksInjected(cfg, sources, live);
    UpsertBehind(cfg, e, m.name, m.headers, bare.rules, tail);
    StrippedBlocks(cfg, sources, live, m);
    SameBlock(cfg, e, start, bare.rules, m.name, m.headers);
    SourcesEvolve(cfg, e, start, bare.rules);
    assert newLive[..|newLive| - 1] == Without(live, op.name);
    if sources == [] {
      NoBlocks(cfg, live);
      NoBlocks(cfg, newLive);
      NoBlocks(cfg, Without(live, op.name));
    } else {
      var stripped, block := Strip(tail, rec), Block(cfg, sources, m.name, m.headers);
      var others := Blocks(cfg, sources, Without(live, op.name));
      assert |stripped| < |others| ==> |bare.rules + (stripped + block)| < |bare.rules + (others + block)|;
    }
  }

  function LiveAfter(live: seq<Managed>, op: Op): seq<Managed> {
    if Removes(op) then []
    else if Sets(op).Some? then Without(live, op.name) + [Sets(op).value]
    else live
  }

  /** One step of the refinement below. */
  lemma {:induction false} WholeStep(cfg: Config, e: set<string>, start: seq<Rule>, bare: RouteState,
                                     live: seq<Managed>, op: Op)
    requires |start| <= MAX_INT && UserRules(cfg, e, bare.rules) && AllEvolved(cfg, e, start, bare.rules)
    requires Allowed(e, bare.rules, op)
    ensures var sources := Sources(start, cfg);
            var full := bare.(rules := bare.rules + Blocks(cfg, sources, live));
            var bare' := if op.SetWeight? then Next(cfg, op, bare) else bare;
            Next(cfg, op, full) == bare'.(rules := bare'.rules + Blocks(cfg, sources, LiveAfter(live, op)))
            <==> (Sets(op).Some? ==> ApartFromLive(cfg, sources, Sets(op).value, live))
  {
    var tail := Blocks(cfg, Sources(start, cfg), live);
    BlocksInjected(cfg, Sources(start, cfg), live);
    if op.SetWeight? {
      WeightIgnoresInjected(cfg, op.weight, op.exp, bare.rules, tail);
    } else if Removes(op) {
      RemoveInjected(cfg, e, bare.rules, tail, bare.labels);
      assert bare.rules + [] == bare.rules;
    } else if Sets(op).Some? {
      SetStep(cfg, e, start, bare, live, op);
    }
  }

  /** The user's rules, as the weight operations alone make them, followed by one block for each live managed
      route in the order in which these were last set. */
  ghost function Intended(cfg: Config, ops: seq<Op>, start: RouteState): RouteState {
    var bare := Run(cfg, WeightsOf(ops), start);
    bare.(rules := bare.rules + Blocks(cfg, Sources(start.rules, cfg), Live(ops)))
  }

  /** A run that was as intended before its last operation is so after it exactly if that operation leaves the
      live routes alone. */
  lemma {:induction false} IntendedStep(cfg: Config, e: set<string>, ops: seq<Op>, start: RouteState)
    requires |start.rules| <= MAX_INT && ops != []
    requires UserRules(cfg, e, start.rules) && AllAllowed(e, start.rules, ops)
    ensures var n := |ops| - 1;
            Run(cfg, ops[..n], start) == Intended(cfg, ops[..n], start) ==>
              (Run(cfg, ops, start) == Intended(cfg, ops, start) <==>
               (Sets(ops[n]).Some? ==>
                  ApartFromLive(cfg, Sources(start.rules, cfg), Sets(ops[n]).value, Live(ops[..n]))))
  {
    hide ApartFromLive, Blocks, Evolved, Next, Sources, UserRules;
    var n := |ops| - 1;
    var before, op := ops[..n], ops[n];
    var bare := Run(cfg, WeightsOf(before), start);
    assert forall k :: 0 <= k < n ==> before[k] == ops[k];
    assert Allowed(e, start.rules, op);
    Isolation(cfg, e, before, start);
    UserRulesEvolve(cfg, e, start.rules, bare.rules);
    AllowedEvolves(cfg, e, start.rules, bare.rules, op);
    WholeStep(cfg, e, start.rules, bare, Live(before), op);
    if op.SetWeight? {
      RunThen(cfg, WeightsOf(before), op, start);
    } else {
      assert WeightsOf(ops) == WeightsOf(before);
    }
  }

  /** Refinement. When no upsert takes an injected rule of another live route, the route is at all times the user's
      rules, as the weight operations alone make them, followed by one block for each live managed route in the
      order in which these were last set. */
  lemma {:induction false} WholeRun(cfg: Config, e: set<string>, ops: seq<Op>, start: RouteState)
    requires |start.rules| <= MAX_INT
    requires UserRules(cfg, e, start.rules) && AllAllowed(e, start.rules, ops)
    requires Compatible(cfg, Sources(start.rules, cfg), ops)
    ensures Run(cfg, ops, start) == Intended(cfg, ops, start)
  {
    if ops == [] {
      assert start.rules + [] == start.rules;
    } else {
      var n := |ops| - 1;
      CompatibleNext(cfg, Sources(start.rules, cfg), ops);
      assert forall k :: 0 <= k < n ==> ops[..n][k] == ops[k];
      WholeRun(cfg, e, ops[..n], start);
      IntendedStep(cfg, e, ops, start);
    }
  }

  lemma {:induction false} CompatibleNext(cfg: Config, sources: seq<Rule>, ops: seq<Op>)
    requires ops != []
    ensures var n := |ops| - 1;
            Compatible(cfg, sources, ops) <==>
            Compatible(cfg, sources, ops[..n])
            && (Sets(ops[n]).Some? ==> ApartFromLive(cfg, sources, Sets(ops[n]).value, Live(ops[..n])))
  {
    hide ApartFromLive, Live, Sets;
    var n := |ops| - 1;
    assert forall i :: 0 <= i < n ==> ops[..n][i] == ops[i] && ops[..n][..i] == ops[..i];
  }

  /** The hypothesis of the refinement is exact: the route is as intended after every operation of a run if and
      only if no upsert takes an injected rule of another live route. */
  lemma {:induction false} WholeRunExact(cfg: Config, e: set<string>, ops: seq<Op>, start: RouteState)
    requires |start.rules| <= MAX_INT
    requires UserRules(cfg, e, start.rules) && AllAllowed(e, start.rules, ops)
    ensures (forall n :: 0 <= n <= |ops| ==> Run(cfg, ops[..n], start) == Intended(cfg, ops[..n], start))
       <==> Compatible(cfg, Sources(start.rules, cfg), ops)
  {
    hide Intended, Run, Compatible, Live, UserRules, Sources;
    if ops == [] {
      NothingRun(cfg, start);
      assert ops[..0] == ops;
    } else {
      var m := |ops| - 1;
      var before := ops[..m];
      assert forall k :: 0 <= k < m ==> before[k] == ops[k];
      WholeRunExact(cfg, e, before, start);
      IntendedStep(cfg, e, ops, start);
      CompatibleNext(cfg, Sources(start.rules, cfg), ops);
      assert forall n :: 0 <= n <= m ==> before[..n] == ops[..n];
      assert ops[..|ops|] == ops && before[..m] == before;
    }
  }

  lemma {:induction false} NothingRun(cfg: Config, start: RouteState)
    ensures Run(cfg, [], start) == Intended(cfg, [], start) && Compatible(cfg, Sources(start.rules, cfg), [])
  {
    assert start.rules + [] == start.rules;
  }

  lemma {:induction false} BlocksEmpty(cfg: Config, sources: seq<Rule>, live: seq<Managed>)
    ensures Blocks(cfg, sources, live) == [] <==> live == [] || sources == []
  {
    if sources == [] {
      NoBlocks(cfg, live);
    } else if live != [] {
      var last := live[|live| - 1];
      assert Block(cfg, sources, last.name, last.headers) != [];
    }
  }

  /** A header route step without a match list names one route, but removes the rules of all of them. It does
      what its name says, and removes only those of that route, if and only if no other route is live or there
      are no source rules. */
  lemma {:induction false} RemovalByStep(cfg: Config, e: set<string>, ops: seq<Op>, start: RouteState, name: string)
    requires |start.rules| <= MAX_INT
    requires UserRules(cfg, e, start.rules) && AllAllowed(e, start.rules, ops)
    requires Compatible(cfg, Sources(start.rules, cfg), ops)
    ensures var bare, sources := Run(cfg, WeightsOf(ops), start), Sources(start.rules, cfg);
            var after, others := Next(cfg, SetHeader(name, None), Run(cfg, ops, start)), Without(Live(ops), name);
            && after == bare
            && (after == bare.(rules := bare.rules + Blocks(cfg, sources, others)) <==> others == [] || sources == [])
  {
    var bare, sources := Run(cfg, WeightsOf(ops), start), Sources(start.rules, cfg);
    WholeRun(cfg, e, ops, start);
    Isolation(cfg, e, ops, start);
    UserRulesEvolve(cfg, e, start.rules, bare.rules);
    BlocksInjected(cfg, sources, Live(ops));
    RemoveInjected(cfg, e, bare.rules, Blocks(cfg, sources, Live(ops)), bare.labels);
    BlocksEmpty(cfg, sources, Without(Live(ops), name));
    assert |bare.rules + Blocks(cfg, sources, Without(Live(ops), name))| == |bare.rules| <==>
      Blocks(cfg, sources, Without(Live(ops), name)) == [];
    assert bare.rules + [] == bare.rules;
  }
}
