/** Runs seen through the weights, the backends and the label they leave on a route. */
module WeightRuns {
  import opened Gateway
  import opened Labels
  import opened Rules
  import opened Experiments
  import opened Operations
  import opened Runs

  // ----- backends the plugin does not know

  /** The backends that are neither canary, nor stable, nor ever a service of an experiment. */
  function Foreign(cfg: Config, e: set<string>, backends: seq<BackendRef>): seq<BackendRef> {
    if backends == [] then []
    else
      (if backends[0].name in e + {cfg.canary, cfg.stable} then [] else [backends[0]])
      + Foreign(cfg, e, backends[1..])
  }

  lemma {:induction false} ForeignOfCore(cfg: Config, e: set<string>, backends: seq<BackendRef>)
    ensures Foreign(cfg, e, backends) == Foreign(cfg, e, Core(cfg, e, backends))
  {
    if backends != [] {
      ForeignOfCore(cfg, e, backends[1..]);
      var core := Core(cfg, e, backends);
      if backends[0].name in e {
        assert core == Core(cfg, e, backends[1..]);
      } else {
        assert core[0] == Bare(cfg, backends[0]) && core[1..] == Core(cfg, e, backends[1..]);
      }
    }
  }

  /** Over any run, with header routes coming and going and experiments starting and stopping, the foreign
      backends of every user rule stay exactly as they were: all fields, weights included, and order. */
  lemma {:induction false} ForeignConserved(cfg: Config, e: set<string>, ops: seq<Op>, start: RouteState, i: nat)
    requires UserRules(cfg, e, start.rules) && AllAllowed(e, start.rules, ops)
    requires i < |start.rules|
    ensures var after := Run(cfg, ops, start).rules;
            i < |after| && Foreign(cfg, e, after[i].backends) == Foreign(cfg, e, start.rules[i].backends)
  {
    Isolation(cfg, e, ops, start);
    var bare, full := Run(cfg, WeightsOf(ops), start), Run(cfg, ops, start);
    assert full.rules[i] == full.rules[..|bare.rules|][i] == bare.rules[i];
    assert Evolved(cfg, e, start.rules[i], bare.rules[i]);
    ForeignOfCore(cfg, e, start.rules[i].backends);
    ForeignOfCore(cfg, e, bare.rules[i].backends);
  }

  // ----- the weights, exactly

  /** No experiment is active and none is recorded. */
  predicate Quiet(exp: Experiment) {
    !exp.active && exp.recorded == {}
  }

  lemma {:induction false} QuietHandle(cfg: Config, exp: Experiment, rules: seq<Rule>)
    requires Quiet(exp)
    ensures HandleRules(cfg, exp, rules) == rules
  {
  }

  /** The last weight of a run. */
  function LastWeight(ops: seq<Op>): Option<Int32> {
    if ops == [] then None
    else
      var last := ops[|ops| - 1];
      if last.SetWeight? then Some(last.weight) else LastWeight(ops[..|ops| - 1])
  }

  lemma {:induction false} WeighTwice(cfg: Config, first: Int32, second: Int32, rules: seq<Rule>)
    requires forall r :: r in rules ==> !AnyManaged(cfg).Owns(r)
    requires forall r :: r in Weigh(cfg, first, rules) ==> !AnyManaged(cfg).Owns(r)
    ensures Weigh(cfg, second, Weigh(cfg, first, rules)) == Weigh(cfg, second, rules)
  {
    forall i | 0 <= i < |rules|
      ensures Weigh(cfg, second, Weigh(cfg, first, rules))[i] == Weigh(cfg, second, rules)[i]
    {
      var backends := rules[i].backends;
      assert rules[i] in rules && Weigh(cfg, first, rules)[i] in Weigh(cfg, first, rules);
      assert WeighBackends(cfg, second, WeighBackends(cfg, first, backends)) == WeighBackends(cfg, second, backends);
    }
  }

  lemma {:induction false} StillWeighable(cfg: Config, e: set<string>, was: seq<Rule>, now: seq<Rule>)
    requires UserRules(cfg, e, was) && AllEvolved(cfg, e, was, now) && Weighable(cfg, was)
    ensures Weighable(cfg, now)
  {
    UserRulesEvolve(cfg, e, was, now);
    UserRulesUnmanaged(cfg, e, now);
    forall name | name == cfg.canary || name == cfg.stable
      ensures Found(cfg, now, name)
    {
      var i :| 0 <= i < |was| && !AnyManaged(cfg).Owns(was[i]) && HasBackend(was[i].backends, name);
      assert Evolved(cfg, e, was[i], now[i]);
      CoreKnows(cfg, e, was[i].backends, name);
      CoreKnows(cfg, e, now[i].backends, name);
      assert !AnyManaged(cfg).Owns(now[i]);
    }
  }

  /** Setting a weight on user rules that already carry one replaces it. */
  lemma {:induction false} QuietStep(cfg: Config, weight: Int32, exp: Experiment, last: Option<Int32>,
                                     start: seq<Rule>, route: RouteState)
    requires UserRules(cfg, {}, start) && Weighable(cfg, start) && Quiet(exp)
    requires route.rules == if last.None? then start else Weigh(cfg, last.value, start)
    ensures Next(cfg, SetWeight(weight, exp), route).rules == Weigh(cfg, weight, start)
  {
    UserRulesUnmanaged(cfg, {}, start);
    QuietHandle(cfg, exp, Weigh(cfg, weight, route.rules));
    if last.Some? {
      WeighEvolves(cfg, {}, last.value, start);
      StillWeighable(cfg, {}, start, route.rules);
      UserRulesEvolve(cfg, {}, start, route.rules);
      UserRulesUnmanaged(cfg, {}, route.rules);
      WeighTwice(cfg, last.value, weight, start);
    }
  }

  /** One more operation in the run below. */
  lemma {:induction false} QuietRunStep(cfg: Config, ops: seq<Op>, op: Op, last: Option<Int32>, start: RouteState)
    requires UserRules(cfg, {}, start.rules) && Weighable(cfg, start.rules) && op.SetWeight? && Quiet(op.exp)
    requires Run(cfg, ops, start).rules == if last.None? then start.rules else Weigh(cfg, last.value, start.rules)
    ensures Run(cfg, ops + [op], start).rules == Weigh(cfg, op.weight, start.rules)
  {
    QuietStep(cfg, op.weight, op.exp, last, start.rules, Run(cfg, ops, start));
    RunThen(cfg, ops, op, start);
  }

  lemma {:induction false} QuietWeights(cfg: Config, ops: seq<Op>, start: RouteState)
    requires UserRules(cfg, {}, start.rules) && Weighable(cfg, start.rules)
    requires forall k :: 0 <= k < |ops| && ops[k].SetWeight? ==> Quiet(ops[k].exp)
    ensures Run(cfg, WeightsOf(ops), start).rules ==
            if LastWeight(ops).None? then start.rules else Weigh(cfg, LastWeight(ops).value, start.rules)
  {
    hide Next, Weigh;
    if ops != [] {
      var n := |ops| - 1;
      var before, op := ops[..n], ops[n];
      QuietWeights(cfg, before, start);
      if op.SetWeight? {
        assert WeightsOf(ops) == WeightsOf(before) + [op];
        QuietRunStep(cfg, WeightsOf(before), op, LastWeight(before), start);
      } else {
        assert WeightsOf(ops) == WeightsOf(before);
      }
    }
  }

  /** Without experiments the whole rule list is known in closed form after any run: the user's rules with
      the last weight, then the blocks of the live managed routes. */
  lemma {:induction false} ClosedForm(cfg: Config, ops: seq<Op>, start: RouteState)
    requires |start.rules| <= MAX_INT
    requires UserRules(cfg, {}, start.rules) && AllAllowed({}, start.rules, ops) && Weighable(cfg, start.rules)
    requires Compatible(cfg, Sources(start.rules, cfg), ops)
    requires forall k :: 0 <= k < |ops| && ops[k].SetWeight? ==> Quiet(ops[k].exp)
    ensures Run(cfg, ops, start).rules ==
            (if LastWeight(ops).None? then start.rules else Weigh(cfg, LastWeight(ops).value, start.rules))
            + Blocks(cfg, Sources(start.rules, cfg), Live(ops))
  {
    WholeRun(cfg, {}, ops, start);
    QuietWeights(cfg, ops, start);
  }

  // ----- the label

  /** The weight of the last `SetWeight` that was stored. */
  ghost function LastStored(cfg: Config, ops: seq<Op>, start: RouteState): Option<Int32> {
    if ops == [] then None
    else
      var n := |ops| - 1;
      if ops[n].SetWeight? && Apply(cfg, ops[n], Run(cfg, ops[..n], start)).Commit? then Some(ops[n].weight)
      else LastStored(cfg, ops[..n], start)
  }

  /** Over any run on any route, the in-progress label is there exactly while the last stored weight is not
      zero, and no other label ever changes. */
  lemma {:induction false} LabelOverRun(cfg: Config, ops: seq<Op>, start: RouteState, key: string)
    ensures Lookup(Run(cfg, ops, start).labels, key) ==
            var stored := LastStored(cfg, ops, start);
            if cfg.marker.disabled || key != cfg.marker.Key() || stored.None? then Lookup(start.labels, key)
            else if stored.value == 0 then None else Some(cfg.marker.Value())
  {
    if ops != [] {
      var n := |ops| - 1;
      LabelOverRun(cfg, ops[..n], start, key);
      if ops[n].SetWeight? {
        MarkedMeaning(cfg.marker, ops[n].weight, Run(cfg, ops[..n], start).labels, key);
      }
    }
  }

  // ----- after an experiment: two calls settle the route

  predicate SettledRule(cfg: Config, weight: Int32, rule: Rule) {
    forall j :: 0 <= j < |rule.backends| ==>
      (rule.backends[j].name == cfg.canary ==> rule.backends[j].weight == Some(weight))
      && (rule.backends[j].name == cfg.stable ==> rule.backends[j].weight == Some(RestOf(weight)))
  }

  lemma {:induction false} CleanedUp(cfg: Config, recorded: set<string>, backends: seq<BackendRef>)
    requires cfg.canary != cfg.stable
    ensures var after := CleanUp(cfg, recorded, backends);
            !HasRecorded(after, recorded)
            && forall j :: 0 <= j < |after| ==>
                 (after[j].name == cfg.canary ==> after[j].weight == Some(0))
                 && (after[j].name == cfg.stable ==> after[j].weight == Some(100))
  {
    if backends != [] {
      CleanedUp(cfg, recorded, backends[1..]);
    }
  }

  lemma {:induction false} SameSelected(cfg: Config, e: set<string>, was: seq<Rule>, now: seq<Rule>)
    requires Separate(cfg, e) && AllEvolved(cfg, e, was, now)
    ensures Selected(was, cfg) == Selected(now, cfg)
  {
    forall i | 0 <= i < |was|
      ensures Touches(was[i], cfg) <==> Touches(now[i], cfg)
    {
      assert Evolved(cfg, e, was[i], now[i]);
      CoreKnows(cfg, e, was[i].backends, cfg.canary);
      CoreKnows(cfg, e, was[i].backends, cfg.stable);
      CoreKnows(cfg, e, now[i].backends, cfg.canary);
      CoreKnows(cfg, e, now[i].backends, cfg.stable);
    }
    SelectedSame(was, now, cfg);
  }

  lemma {:induction false} WeighedIsSettled(cfg: Config, weight: Int32, rules: seq<Rule>)
    requires cfg.canary != cfg.stable
    requires forall r :: r in rules ==> !AnyManaged(cfg).Owns(r)
    ensures forall k :: 0 <= k < |rules| ==> SettledRule(cfg, weight, Weigh(cfg, weight, rules)[k])
  {
    forall k | 0 <= k < |rules|
      ensures SettledRule(cfg, weight, Weigh(cfg, weight, rules)[k])
    {
      assert rules[k] in rules;
    }
  }

  /** Cleaning a rule that still touches one of the services settles it only if the weight is 0. */
  lemma {:induction false} CleanedIsSettled(cfg: Config, recorded: set<string>, weight: Int32, rule: Rule)
    requires cfg.canary != cfg.stable
    requires Touches(rule.(backends := CleanUp(cfg, recorded, rule.backends)), cfg)
    ensures SettledRule(cfg, weight, rule.(backends := CleanUp(cfg, recorded, rule.backends))) <==> weight == 0
  {
    CleanedUp(cfg, recorded, rule.backends);
  }

  lemma {:induction false} SelectedStays(cfg: Config, e: set<string>, weight: Int32, exp: Experiment, rules: seq<Rule>)
    requires Separate(cfg, e) && ServicesWithin(exp, e)
    ensures Selected(Weigh(cfg, weight, rules), cfg) == Selected(rules, cfg)
    ensures Selected(AfterWeight(cfg, weight, exp, rules), cfg) == Selected(rules, cfg)
  {
    WeighEvolves(cfg, e, weight, rules);
    SameSelected(cfg, e, rules, Weigh(cfg, weight, rules));
    WeightEvolves(cfg, e, weight, exp, rules);
    SameSelected(cfg, e, rules, AfterWeight(cfg, weight, exp, rules));
  }

  /** The experiment handler on rules that have just been weighed, while no experiment is active. */
  lemma {:induction false} HandleSettled(cfg: Config, weight: Int32, exp: Experiment, weighed: seq<Rule>, i: nat)
    requires cfg.canary != cfg.stable && !exp.active
    requires i == Selected(weighed, cfg) == Selected(HandleRules(cfg, exp, weighed), cfg) && i < |weighed|
    requires forall k :: 0 <= k < |weighed| ==> SettledRule(cfg, weight, weighed[k])
    ensures var after := HandleRules(cfg, exp, weighed);
            && !HasRecorded(after[i].backends, exp.recorded)
            && (forall k :: 0 <= k < |weighed| && k != i ==> SettledRule(cfg, weight, after[k]))
            && (if HasRecorded(weighed[i].backends, exp.recorded)
                then SettledRule(cfg, weight, after[i]) <==> weight == 0
                else after == weighed)
  {
    var after := HandleRules(cfg, exp, weighed);
    if HasRecorded(weighed[i].backends, exp.recorded) {
      CleanedUp(cfg, exp.recorded, weighed[i].backends);
      CleanedIsSettled(cfg, exp.recorded, weight, weighed[i]);
    } else {
      assert after == weighed;
    }
  }

  /** One call on user rules while no experiment is active. */
  lemma {:induction false} OneCall(cfg: Config, e: set<string>, weight: Int32, exp: Experiment, rules: seq<Rule>)
    requires UserRules(cfg, e, rules) && Weighable(cfg, rules)
    requires cfg.kind == Http && !exp.active && ServicesWithin(exp, e)
    ensures var after := AfterWeight(cfg, weight, exp, rules);
            var i := Selected(rules, cfg);
            && i < |rules| && Selected(after, cfg) == i
            && !HasRecorded(after[i].backends, exp.recorded)
            && (forall k :: 0 <= k < |rules| && k != i ==> SettledRule(cfg, weight, after[k]))
            && (if HasRecorded(rules[i].backends, exp.recorded)
                then SettledRule(cfg, weight, after[i]) <==> weight == 0
                else after == Weigh(cfg, weight, rules) && SettledRule(cfg, weight, after[i]))
  {
    var weighed, i := Weigh(cfg, weight, rules), Selected(rules, cfg);
    SelectedStays(cfg, e, weight, exp, rules);
    ExperimentRuleExists(cfg, weight, rules);
    UserRulesUnmanaged(cfg, e, rules);
    WeighedIsSettled(cfg, weight, rules);
    assert rules[i] in rules;
    SameRecorded(rules[i].backends, weighed[i].backends, exp.recorded);
    HandleSettled(cfg, weight, exp, weighed, i);
  }

  lemma {:induction false} SameRecorded(a: seq<BackendRef>, b: seq<BackendRef>, recorded: set<string>)
    requires |a| == |b| && forall k :: 0 <= k < |a| ==> a[k].name == b[k].name
    ensures HasRecorded(a, recorded) <==> HasRecorded(b, recorded)
  {
  }

  lemma {:induction false} SettledIsFixed(cfg: Config, weight: Int32, rules: seq<Rule>)
    requires cfg.canary != cfg.stable
    requires forall r :: r in rules ==> !AnyManaged(cfg).Owns(r)
    ensures Weigh(cfg, weight, rules) == rules <==> forall k :: 0 <= k < |rules| ==> SettledRule(cfg, weight, rules[k])
  {
    var weighed := Weigh(cfg, weight, rules);
    if weighed == rules {
      forall k | 0 <= k < |rules|
        ensures SettledRule(cfg, weight, rules[k])
      {
        assert rules[k] in rules;
        assert weighed[k].backends == WeighBackends(cfg, weight, rules[k].backends);
      }
    }
    if forall k :: 0 <= k < |rules| ==> SettledRule(cfg, weight, rules[k]) {
      forall k | 0 <= k < |rules|
        ensures weighed[k] == rules[k]
      {
        assert rules[k] in rules && SettledRule(cfg, weight, rules[k]);
        assert WeighBackends(cfg, weight, rules[k].backends) == rules[k].backends;
      }
    }
  }

  /** The second call of the theorem below, on what one call left. */
  lemma {:induction false} CallAgain(cfg: Config, e: set<string>, weight: Int32, exp: Experiment, rules: seq<Rule>)
    requires UserRules(cfg, e, rules) && Weighable(cfg, rules)
    requires cfg.kind == Http && !exp.active && ServicesWithin(exp, e)
    ensures var after := AfterWeight(cfg, weight, exp, rules);
            UserRules(cfg, e, after) && Weighable(cfg, after) && forall r :: r in after ==> !AnyManaged(cfg).Owns(r)
  {
    var after := AfterWeight(cfg, weight, exp, rules);
    WeightEvolves(cfg, e, weight, exp, rules);
    StillWeighable(cfg, e, rules, after);
    UserRulesEvolve(cfg, e, rules, after);
    UserRulesUnmanaged(cfg, e, after);
  }

  lemma {:induction false} NextWeight(cfg: Config, weight: Int32, exp: Experiment, route: RouteState)
    requires MatchesHeaders(cfg.kind) && Weighable(cfg, route.rules)
    ensures Next(cfg, SetWeight(weight, exp), route)
         == RouteState(AfterWeight(cfg, weight, exp, route.rules), Marked(cfg.marker, weight, route.labels))
  {
  }

  /** A call on rules whose selected rule holds no recorded service settles them for good. */
  lemma {:induction false} CleanCall(cfg: Config, e: set<string>, weight: Int32, exp: Experiment, rules: seq<Rule>)
    requires UserRules(cfg, e, rules) && Weighable(cfg, rules)
    requires cfg.kind == Http && !exp.active && ServicesWithin(exp, e)
    requires Selected(rules, cfg) < |rules| && !HasRecorded(rules[Selected(rules, cfg)].backends, exp.recorded)
    ensures var after := AfterWeight(cfg, weight, exp, rules);
            && Weighable(cfg, after)
            && after == Weigh(cfg, weight, rules)
            && AfterWeight(cfg, weight, exp, after) == after
            && (forall k :: 0 <= k < |after| ==> SettledRule(cfg, weight, after[k]))
            && !HasRecorded(after[Selected(rules, cfg)].backends, exp.recorded)
  {
    var after := AfterWeight(cfg, weight, exp, rules);
    OneCall(cfg, e, weight, exp, rules);
    CallAgain(cfg, e, weight, exp, rules);
    OneCall(cfg, e, weight, exp, after);
    SettledIsFixed(cfg, weight, after);
  }

  /** The theorem below on rule lists. */
  lemma {:induction false} TwoPassesSettle(cfg: Config, e: set<string>, weight: Int32, exp: Experiment,
                                           rules: seq<Rule>)
    requires UserRules(cfg, e, rules) && Weighable(cfg, rules)
    requires cfg.kind == Http && !exp.active && ServicesWithin(exp, e)
    ensures var one := AfterWeight(cfg, weight, exp, rules);
            var two := AfterWeight(cfg, weight, exp, one);
            var i := Selected(rules, cfg);
            && Weighable(cfg, one) && Weighable(cfg, two)
            && AfterWeight(cfg, weight, exp, two) == two
            && i < |rules|
            && (forall k :: 0 <= k < |two| ==> SettledRule(cfg, weight, two[k]))
            && !HasRecorded(two[i].backends, exp.recorded)
            && (one == two <==> !HasRecorded(rules[i].backends, exp.recorded) || weight == 0)
  {
    hide AfterWeight, HasRecorded, UserRules, Weighable;
    var one := AfterWeight(cfg, weight, exp, rules);
    OneCall(cfg, e, weight, exp, rules);
    CallAgain(cfg, e, weight, exp, rules);
    CleanCall(cfg, e, weight, exp, one);
    SettledIsFixed(cfg, weight, one);
  }

  lemma {:induction false} NextBehind(cfg: Config, weight: Int32, exp: Experiment, bare: RouteState, tail: seq<Rule>)
    requires MatchesHeaders(cfg.kind) && Weighable(cfg, bare.rules) && Injected(cfg, tail)
    ensures Next(cfg, SetWeight(weight, exp), bare.(rules := bare.rules + tail))
         == RouteState(AfterWeight(cfg, weight, exp, bare.rules) + tail, Marked(cfg.marker, weight, bare.labels))
  {
    WeightIgnoresInjected(cfg, weight, exp, bare.rules, tail);
    NextWeight(cfg, weight, exp, bare.(rules := bare.rules + tail));
  }

  /** Convergence, whatever header routes are live. With no active experiment, two calls with the same arguments
      reach a state that a third does not change, with no recorded service in the selected rule and the asked
      weights in every rule that is not injected; the injected ones stay as they are. The first call alone reaches
      it exactly when no recorded service was there, or the weight is 0. */
  lemma {:induction false} TwoCallsSettle(cfg: Config, e: set<string>, weight: Int32, exp: Experiment,
                                          bare: RouteState, tail: seq<Rule>)
    requires UserRules(cfg, e, bare.rules) && Weighable(cfg, bare.rules) && Injected(cfg, tail)
    requires cfg.kind == Http && !exp.active && ServicesWithin(exp, e)
    ensures var op, start := SetWeight(weight, exp), bare.(rules := bare.rules + tail);
            var one := Next(cfg, op, start);
            var two := Next(cfg, op, one);
            var n, i := |bare.rules|, Selected(start.rules, cfg);
            && Next(cfg, op, two) == two
            && |two.rules| == |one.rules| == |start.rules| && i < n
            && one.rules[n..] == tail && two.rules[n..] == tail
            && (forall k :: 0 <= k < n ==> SettledRule(cfg, weight, two.rules[k]))
            && !HasRecorded(two.rules[i].backends, exp.recorded)
            && (one.rules == two.rules <==> !HasRecorded(start.rules[i].backends, exp.recorded) || weight == 0)
  {
    hide Next, UserRules, Injected, HasRecorded, AfterWeight, Weighable;
    var one := AfterWeight(cfg, weight, exp, bare.rules);
    var two := AfterWeight(cfg, weight, exp, one);
    var labels := Marked(cfg.marker, weight, bare.labels);
    TwoPassesSettle(cfg, e, weight, exp, bare.rules);
    NextBehind(cfg, weight, exp, bare, tail);
    NextBehind(cfg, weight, exp, RouteState(one, labels), tail);
    NextBehind(cfg, weight, exp, RouteState(two, labels), tail);
    MarkedTwice(cfg.marker, weight, bare.labels);
    SelectedConcat(bare.rules, tail, cfg);
    assert one == two <==> one + tail == two + tail by {
      assert (one + tail)[..|one|] == one && (two + tail)[..|two|] == two;
    }
  }

  lemma {:induction false} MarkedTwice(c: LabelConfig, weight: Int32, labels: LabelMap)
    ensures Marked(c, weight, Marked(c, weight, labels)) == Marked(c, weight, labels)
  {
    var once := Marked(c, weight, labels);
    if !c.disabled && once.Some? {
      assert weight == 0 ==> once.value - {c.Key()} == once.value;
      assert weight != 0 ==> once.value[c.Key() := c.Value()] == once.value;
    }
  }
}
