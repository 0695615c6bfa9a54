/** Runs with experiments: what is left of them once they are over. */
module ExperimentRuns {
  import opened Gateway
  import opened Rules
  import opened Experiments
  import opened Operations
  import opened Runs
  import opened WeightRuns

  // ----- what no experiment touches

  /** All rules but the `i`-th are the same up to the two weights. */
  ghost predicate OthersKept(cfg: Config, i: nat, was: seq<Rule>, now: seq<Rule>) {
    |was| == |now| && forall k :: 0 <= k < |was| && k != i ==> Evolved(cfg, {}, was[k], now[k])
  }

  lemma {:induction false} CallKeepsOthers(cfg: Config, e: set<string>, weight: Int32, exp: Experiment,
                                           rules: seq<Rule>)
    requires Separate(cfg, e) && ServicesWithin(exp, e)
    ensures OthersKept(cfg, Selected(rules, cfg), rules, AfterWeight(cfg, weight, exp, rules))
  {
    WeighEvolves(cfg, {}, weight, rules);
    SelectedStays(cfg, e, weight, exp, rules);
  }

  lemma {:induction false} OthersTwice(cfg: Config, i: nat, a: seq<Rule>, b: seq<Rule>, c: seq<Rule>)
    requires OthersKept(cfg, i, a, b) && OthersKept(cfg, i, b, c)
    ensures OthersKept(cfg, i, a, c)
  {
    forall k | 0 <= k < |a| && k != i
      ensures Evolved(cfg, {}, a[k], c[k])
    {
      assert Evolved(cfg, {}, a[k], b[k]) && Evolved(cfg, {}, b[k], c[k]);
    }
  }

  /** Over any run experiments touch a single user rule. */
  lemma {:induction false} RunKeepsOthers(cfg: Config, e: set<string>, ops: seq<Op>, start: RouteState)
    requires UserRules(cfg, e, start.rules) && AllAllowed(e, start.rules, ops)
    ensures OthersKept(cfg, Selected(start.rules, cfg), start.rules, Run(cfg, WeightsOf(ops), start).rules)
  {
    if ops != [] {
      var n, i := |ops| - 1, Selected(start.rules, cfg);
      var before, op := ops[..n], ops[n];
      var bare := Run(cfg, WeightsOf(before), start);
      RunKeepsOthers(cfg, e, before, start);
      if op.SetWeight? {
        Isolation(cfg, e, before, start);
        SameSelected(cfg, e, start.rules, bare.rules);
        RunThen(cfg, WeightsOf(before), op, start);
        assert Allowed(e, start.rules, op);
        if Weighable(cfg, bare.rules) {
          NextWeight(cfg, op.weight, op.exp, bare);
          CallKeepsOthers(cfg, e, op.weight, op.exp, bare.rules);
          OthersTwice(cfg, i, start.rules, bare.rules, AfterWeight(cfg, op.weight, op.exp, bare.rules));
        }
      } else {
        assert WeightsOf(ops) == WeightsOf(before);
      }
    }
  }

  /** A settled rule without experiment backends is the weighed rule it evolved from. */
  lemma {:induction false} SettledIsWeighed(cfg: Config, e: set<string>, weight: Int32, was: Rule, now: Rule)
    requires cfg.canary != cfg.stable && !AnyManaged(cfg).Owns(was)
    requires Evolved(cfg, e, was, now) && SettledRule(cfg, weight, now)
    requires !HasRecorded(was.backends, e) && !HasRecorded(now.backends, e)
    ensures now == WeighRule(cfg, weight, was)
  {
    CoreOfAll(cfg, e, was.backends);
    CoreOfAll(cfg, e, now.backends);
    var a, b := was.backends, now.backends;
    forall j | 0 <= j < |a|
      ensures b[j] == WeighBackend(cfg, weight, a[j])
    {
      assert Core(cfg, e, a)[j] == Bare(cfg, a[j]) && Core(cfg, e, b)[j] == Bare(cfg, b[j]);
    }
    assert b == WeighBackends(cfg, weight, a);
    assert now == now.(backends := []).(backends := b) == was.(backends := b);
  }

  /** The rules `now` are the weighed rules of the start if the only one that experiments touch is free of their
      services at both times. */
  lemma {:induction false} AllWeighed(cfg: Config, e: set<string>, weight: Int32, was: seq<Rule>, now: seq<Rule>)
    requires UserRules(cfg, e, was) && AllEvolved(cfg, e, was, now)
    requires var i := Selected(was, cfg);
             OthersKept(cfg, i, was, now)
             && (i < |was| ==> !HasRecorded(was[i].backends, e) && !HasRecorded(now[i].backends, e))
    requires forall k :: 0 <= k < |now| ==> SettledRule(cfg, weight, now[k])
    ensures now == Weigh(cfg, weight, was)
  {
    UserRulesUnmanaged(cfg, e, was);
    forall k | 0 <= k < |was|
      ensures now[k] == WeighRule(cfg, weight, was[k])
    {
      assert was[k] in was && Evolved(cfg, e, was[k], now[k]);
      SettledIsWeighed(cfg, if k == Selected(was, cfg) then e else {}, weight, was[k], now[k]);
    }
  }

  /** What any run keeps of the user's rules. */
  lemma {:induction false} RunKeeps(cfg: Config, e: set<string>, ops: seq<Op>, start: RouteState)
    requires UserRules(cfg, e, start.rules) && AllAllowed(e, start.rules, ops)
    ensures var n, after := |start.rules|, Run(cfg, ops, start).rules;
            && n <= |after| && Injected(cfg, after[n..])
            && AllEvolved(cfg, e, start.rules, after[..n])
            && OthersKept(cfg, Selected(start.rules, cfg), start.rules, after[..n])
  {
    Isolation(cfg, e, ops, start);
    RunKeepsOthers(cfg, e, ops, start);
  }

  // ----- the experiment backends that are left

  /** The names of experiment services among the backends. */
  function Leftover(e: set<string>, backends: seq<BackendRef>): set<string> {
    set i | 0 <= i < |backends| && backends[i].name in e :: backends[i].name
  }

  lemma {:induction false} LeftoverRecorded(e: set<string>, recorded: set<string>, backends: seq<BackendRef>)
    requires recorded <= e
    ensures HasRecorded(backends, recorded) <==> Leftover(e, backends) * recorded != {}
  {
    if i :| 0 <= i < |backends| && backends[i].name in recorded {
      assert backends[i].name in Leftover(e, backends) * recorded;
    }
    if name :| name in Leftover(e, backends) * recorded {
      var i :| 0 <= i < |backends| && backends[i].name == name;
      assert backends[i].name in recorded;
    }
  }

  lemma {:induction false} LeftoverFirst(e: set<string>, backends: seq<BackendRef>)
    requires backends != []
    ensures Leftover(e, backends)
         == (if backends[0].name in e then {backends[0].name} else {}) + Leftover(e, backends[1..])
  {
    forall name | name in Leftover(e, backends)
      ensures name == backends[0].name || name in Leftover(e, backends[1..])
    {
      var i :| 0 <= i < |backends| && backends[i].name in e && backends[i].name == name;
      assert i > 0 ==> backends[1..][i - 1].name == name;
    }
    forall name | name in Leftover(e, backends[1..])
      ensures name in Leftover(e, backends)
    {
      var i :| 0 <= i < |backends[1..]| && backends[1..][i].name in e && backends[1..][i].name == name;
      assert backends[i + 1].name == name;
    }
  }

  lemma {:induction false} LeftoverSame(e: set<string>, a: seq<BackendRef>, b: seq<BackendRef>)
    requires |a| == |b| && forall k :: 0 <= k < |a| ==> a[k].name == b[k].name
    ensures Leftover(e, a) == Leftover(e, b)
  {
    forall name
      ensures name in Leftover(e, a) <==> name in Leftover(e, b)
    {
      if i :| 0 <= i < |a| && a[i].name in e && a[i].name == name {
        assert b[i].name == name;
      }
      if i :| 0 <= i < |b| && b[i].name in e && b[i].name == name {
        assert a[i].name == name;
      }
    }
  }

  lemma {:induction false} LeftoverCleaned(cfg: Config, e: set<string>, recorded: set<string>,
                                           backends: seq<BackendRef>)
    ensures Leftover(e, CleanUp(cfg, recorded, backends)) == Leftover(e, backends) - recorded
  {
    if backends != [] {
      var after := CleanUp(cfg, recorded, backends);
      LeftoverCleaned(cfg, e, recorded, backends[1..]);
      LeftoverFirst(e, backends);
      if backends[0].name !in recorded {
        LeftoverFirst(e, after);
        assert after[1..] == CleanUp(cfg, recorded, backends[1..]);
      } else {
        assert after == CleanUp(cfg, recorded, backends[1..]);
      }
    }
  }

  /** A call without an active experiment removes exactly the recorded services. */
  lemma {:induction false} LeftoverHandled(cfg: Config, e: set<string>, exp: Experiment, backends: seq<BackendRef>)
    requires !exp.active && exp.recorded <= e
    ensures Leftover(e, Handle(cfg, exp, backends)) == Leftover(e, backends) - exp.recorded
  {
    LeftoverRecorded(e, exp.recorded, backends);
    LeftoverCleaned(cfg, e, exp.recorded, backends);
  }

  lemma {:induction false} LeftoverAfterCall(cfg: Config, e: set<string>, weight: Int32, exp: Experiment,
                                             rules: seq<Rule>)
    requires Separate(cfg, e) && cfg.kind == Http && !exp.active && ServicesWithin(exp, e)
    ensures var i := Selected(rules, cfg);
            i < |rules| ==>
              Leftover(e, AfterWeight(cfg, weight, exp, rules)[i].backends)
              == Leftover(e, rules[i].backends) - exp.recorded
  {
    var i, weighed := Selected(rules, cfg), Weigh(cfg, weight, rules);
    SelectedStays(cfg, e, weight, exp, rules);
    if i < |rules| {
      LeftoverSame(e, rules[i].backends, weighed[i].backends);
      LeftoverHandled(cfg, e, exp, weighed[i].backends);
    }
  }

  // ----- the call that ends experiments

  /** Whether a call without an active experiment leaves the weighed rules of the start: no service is left that
      is not recorded; and if one was there, the weight is that of the reset, 0. */
  predicate EndsClean(left: set<string>, recorded: set<string>, weight: Int32) {
    left <= recorded && (left == {} || weight == 0)
  }

  /** One call on rules `now` that have evolved from the rules `was` of the start. */
  lemma {:induction false} ClosingCall(cfg: Config, e: set<string>, weight: Int32, over: Experiment,
                                       was: seq<Rule>, now: seq<Rule>)
    requires UserRules(cfg, e, was) && Weighable(cfg, was) && AllEvolved(cfg, e, was, now)
    requires OthersKept(cfg, Selected(was, cfg), was, now)
    requires cfg.kind == Http && !over.active && ServicesWithin(over, e)
    ensures var after, i := AfterWeight(cfg, weight, over, now), Selected(was, cfg);
            && i < |was| && Weighable(cfg, now)
            && Leftover(e, after[i].backends) == Leftover(e, now[i].backends) - over.recorded
            && var left, free := Leftover(e, now[i].backends), Leftover(e, was[i].backends) == {};
               free || left <= over.recorded ==>
                 (after == Weigh(cfg, weight, was) <==> free && EndsClean(left, over.recorded, weight))
  {
    hide UserRules, Weighable, AfterWeight, Weigh, Evolved, HasRecorded, Leftover, SettledRule;
    var after, i := AfterWeight(cfg, weight, over, now), Selected(was, cfg);
    StillWeighable(cfg, e, was, now);
    UserRulesEvolve(cfg, e, was, now);
    UserIsSeparate(cfg, e, was);
    SameSelected(cfg, e, was, now);
    OneCall(cfg, e, weight, over, now);
    LeftoverAfterCall(cfg, e, weight, over, now);
    LeftoverRecorded(e, over.recorded, now[i].backends);
    CallKeepsOthers(cfg, e, weight, over, now);
    OthersTwice(cfg, i, was, now, after);
    EvolvesFurther(cfg, e, weight, over, was, now);
    WeighedOrNot(cfg, e, weight, was, after);
    var left := Leftover(e, now[i].backends);
    CoveredSet(left, over.recorded);
    assert (forall k :: 0 <= k < |after| ==> SettledRule(cfg, weight, after[k])) <==>
      SettledRule(cfg, weight, after[i]);
  }

  lemma {:induction false} CoveredSet(left: set<string>, recorded: set<string>)
    ensures left - recorded == {} <==> left <= recorded
    ensures left <= recorded ==> left * recorded == left
  {
    forall name | name in left && name !in recorded
      ensures name in left - recorded
    {
    }
  }

  lemma {:induction false} UserIsSeparate(cfg: Config, e: set<string>, rules: seq<Rule>)
    requires UserRules(cfg, e, rules)
    ensures Separate(cfg, e) && MatchesHeaders(cfg.kind)
  {
  }

  lemma {:induction false} EvolvesFurther(cfg: Config, e: set<string>, weight: Int32, exp: Experiment,
                                          was: seq<Rule>, now: seq<Rule>)
    requires AllEvolved(cfg, e, was, now) && ServicesWithin(exp, e)
    ensures AllEvolved(cfg, e, was, AfterWeight(cfg, weight, exp, now))
  {
    var after := AfterWeight(cfg, weight, exp, now);
    WeightEvolves(cfg, e, weight, exp, now);
    forall k | 0 <= k < |was|
      ensures Evolved(cfg, e, was[k], after[k])
    {
      assert Evolved(cfg, e, was[k], now[k]) && Evolved(cfg, e, now[k], after[k]);
    }
  }

  /** When evolved rules are the weighed ones, for rules of which one side has no services in its selected rule. */
  lemma {:induction false} WeighedOrNot(cfg: Config, e: set<string>, weight: Int32, was: seq<Rule>, after: seq<Rule>)
    requires UserRules(cfg, e, was) && AllEvolved(cfg, e, was, after)
    requires Selected(was, cfg) < |was| && OthersKept(cfg, Selected(was, cfg), was, after)
    ensures var i := Selected(was, cfg);
            var free, clean := Leftover(e, was[i].backends) == {}, Leftover(e, after[i].backends) == {};
            free || clean ==>
              (after == Weigh(cfg, weight, was) <==>
               free && clean && forall k :: 0 <= k < |after| ==> SettledRule(cfg, weight, after[k]))
  {
    hide Evolved, Leftover, SettledRule, AnyManaged;
    var i, weighed := Selected(was, cfg), Weigh(cfg, weight, was);
    UserRulesUnmanaged(cfg, e, was);
    WeighedIsSettled(cfg, weight, was);
    LeftoverRecorded(e, e, was[i].backends);
    LeftoverRecorded(e, e, after[i].backends);
    LeftoverSame(e, was[i].backends, weighed[i].backends);
    AllInside(e, was[i].backends);
    AllInside(e, after[i].backends);
    if Leftover(e, was[i].backends) == {} && Leftover(e, after[i].backends) == {}
       && forall k :: 0 <= k < |after| ==> SettledRule(cfg, weight, after[k]) {
      AllWeighed(cfg, e, weight, was, after);
    }
  }

  lemma {:induction false} AllInside(e: set<string>, backends: seq<BackendRef>)
    ensures Leftover(e, backends) * e == Leftover(e, backends)
  {
  }

  // ----- over runs

  lemma {:induction false} AllowedThen(e: set<string>, rules: seq<Rule>, ops: seq<Op>, op: Op)
    requires AllAllowed(e, rules, ops) && Allowed(e, rules, op)
    ensures AllAllowed(e, rules, ops + [op])
  {
  }

  /** How a run ends. After any run, with any experiments and header routes, one call without an active experiment
      removes the recorded services, and leaves the user's rules as they were at the start with the asked weight
      exactly if no service stays and, if one was there, the weight is 0. This takes a start whose selected rule has
      no service of its own, or a call after which no service stays; in the latter case the start must be so. */
  lemma {:induction false} LastCall(cfg: Config, e: set<string>, weight: Int32, over: Experiment, ops: seq<Op>,
                                    start: RouteState)
    requires UserRules(cfg, e, start.rules) && AllAllowed(e, start.rules, ops) && Weighable(cfg, start.rules)
    requires cfg.kind == Http && !over.active && ServicesWithin(over, e)
    ensures var n, i := |start.rules|, Selected(start.rules, cfg);
            var before, after := Run(cfg, ops, start).rules, Run(cfg, ops + [SetWeight(weight, over)], start).rules;
            && i < n <= |before| && n <= |after| && Injected(cfg, after[n..])
            && Leftover(e, after[i].backends) == Leftover(e, before[i].backends) - over.recorded
            && var left, free := Leftover(e, before[i].backends), Leftover(e, start.rules[i].backends) == {};
               free || left <= over.recorded ==>
                 (after[..n] == Weigh(cfg, weight, start.rules) <==> free && EndsClean(left, over.recorded, weight))
  {
    hide Run, Next, Weighable, UserRules, AllAllowed, Evolved, Leftover, AfterWeight, Injected, EndsClean, Weigh,
         Selected;
    var n, op := |start.rules|, SetWeight(weight, over);
    var full := Run(cfg, ops, start);
    RunKeeps(cfg, e, ops, start);
    UserIsSeparate(cfg, e, start.rules);
    var now, tail := full.rules[..n], full.rules[n..];
    ClosingCall(cfg, e, weight, over, start.rules, now);
    RunThen(cfg, ops, op, start);
    assert full == full.(rules := now).(rules := now + tail);
    NextBehind(cfg, weight, over, full.(rules := now), tail);
    var after := AfterWeight(cfg, weight, over, now);
    assert (after + tail)[..n] == after && (after + tail)[n..] == tail;
  }

  /** Experiments leave nothing behind. After any run, with any experiments and header routes, two calls without an
      active experiment remove the services recorded at either of them. They leave the user's rules as they were at
      the start with the weight asked last, exactly if no service stays and the first call removes all that are
      there, or the weight is 0. */
  lemma {:induction false} ExperimentsLeaveNothing(cfg: Config, e: set<string>, first: Int32, before: Experiment,
                                                   last: Int32, after: Experiment, ops: seq<Op>, start: RouteState)
    requires UserRules(cfg, e, start.rules) && AllAllowed(e, start.rules, ops) && Weighable(cfg, start.rules)
    requires cfg.kind == Http && !before.active && !after.active
    requires ServicesWithin(before, e) && ServicesWithin(after, e)
    ensures var n, i := |start.rules|, Selected(start.rules, cfg);
            var mid, two := Run(cfg, ops, start).rules,
                             Run(cfg, ops + [SetWeight(first, before)] + [SetWeight(last, after)], start).rules;
            && i < n <= |mid| && n <= |two| && Injected(cfg, two[n..])
            && var left, free := Leftover(e, mid[i].backends), Leftover(e, start.rules[i].backends) == {};
               free || left <= before.recorded + after.recorded ==>
                 (two[..n] == Weigh(cfg, last, start.rules) <==>
                  free && left <= before.recorded + after.recorded && (left <= before.recorded || last == 0))
  {
    hide Run, Weighable, UserRules, AllAllowed, Leftover, Injected, Weigh, Selected;
    var one := ops + [SetWeight(first, before)];
    AllowedThen(e, start.rules, ops, SetWeight(first, before));
    LastCall(cfg, e, first, before, ops, start);
    LastCall(cfg, e, last, after, one, start);
    var left := Leftover(e, Run(cfg, ops, start).rules[Selected(start.rules, cfg)].backends);
    CoveredSet(left, before.recorded);
    RemovedTwice(left, before.recorded, after.recorded);
  }

  lemma {:induction false} RemovedTwice(left: set<string>, first: set<string>, last: set<string>)
    ensures left - first <= last <==> left <= first + last
  {
    forall name | name in left && name !in first
      ensures name in left - first
    {
    }
  }

  // ----- experiments whose services are not found

  predicate NothingFound(op: Op) {
    op.SetWeight? ==> forall d :: d in op.exp.destinations ==> d.port.None?
  }

  lemma {:induction false} NothingLeftByCall(cfg: Config, e: set<string>, weight: Int32, exp: Experiment,
                                             rules: seq<Rule>)
    requires Separate(cfg, e) && ServicesWithin(exp, e) && forall d :: d in exp.destinations ==> d.port.None?
    ensures var i := Selected(rules, cfg);
            i < |rules| ==>
              Leftover(e, AfterWeight(cfg, weight, exp, rules)[i].backends) <= Leftover(e, rules[i].backends)
  {
    var i, weighed := Selected(rules, cfg), Weigh(cfg, weight, rules);
    SelectedStays(cfg, e, weight, exp, rules);
    if i < |rules| {
      var backends := weighed[i].backends;
      LeftoverSame(e, rules[i].backends, backends);
      if exp.active {
        var shared := SetFirst(backends, cfg.stable, StableShare(exp.destinations));
        SetFirstPoints(backends, cfg.stable, StableShare(exp.destinations));
        LeftoverSame(e, backends, shared);
        AddAllSettled(shared, exp.destinations, exp.namespace);
      } else {
        LeftoverHandled(cfg, e, exp, backends);
      }
    }
  }

  lemma {:induction false} NothingLeftByRun(cfg: Config, e: set<string>, ops: seq<Op>, start: RouteState)
    requires UserRules(cfg, e, start.rules) && AllAllowed(e, start.rules, ops) && Weighable(cfg, start.rules)
    requires forall k :: 0 <= k < |ops| ==> NothingFound(ops[k])
    ensures var i, after := Selected(start.rules, cfg), Run(cfg, WeightsOf(ops), start).rules;
            i < |after| ==> i < |start.rules| && Leftover(e, after[i].backends) <= Leftover(e, start.rules[i].backends)
  {
    if ops != [] {
      var n := |ops| - 1;
      var before, op := ops[..n], ops[n];
      var bare := Run(cfg, WeightsOf(before), start);
      NothingLeftByRun(cfg, e, before, start);
      Isolation(cfg, e, before, start);
      UserIsSeparate(cfg, e, start.rules);
      hide Leftover, Evolved, Weighable, UserRules;
      if op.SetWeight? {
        RunThen(cfg, WeightsOf(before), op, start);
        assert Allowed(e, start.rules, op) && NothingFound(op);
        SameSelected(cfg, e, start.rules, bare.rules);
        if Weighable(cfg, bare.rules) {
          NextWeight(cfg, op.weight, op.exp, bare);
          NothingLeftByCall(cfg, e, op.weight, op.exp, bare.rules);
        }
      } else {
        assert WeightsOf(ops) == WeightsOf(before);
      }
    }
  }

  /** Experiments of which no service was found are harmless: the handler alone would not give the stable backend
      its weight back, but the next call writes all weights first. */
  lemma {:induction false} NothingFoundNothingLeft(cfg: Config, e: set<string>, weight: Int32, over: Experiment,
                                                   ops: seq<Op>, start: RouteState)
    requires UserRules(cfg, e, start.rules) && AllAllowed(e, start.rules, ops) && Weighable(cfg, start.rules)
    requires cfg.kind == Http && !over.active && ServicesWithin(over, e)
    requires forall k :: 0 <= k < |ops| ==> NothingFound(ops[k])
    requires var i := Selected(start.rules, cfg); i < |start.rules| ==> Leftover(e, start.rules[i].backends) == {}
    ensures var n, after := |start.rules|, Run(cfg, ops + [SetWeight(weight, over)], start).rules;
            n <= |after| && after[..n] == Weigh(cfg, weight, start.rules) && Injected(cfg, after[n..])
  {
    hide Run, Weighable, AllAllowed, Leftover, Weigh, Selected, UserRules;
    LastCall(cfg, e, weight, over, ops, start);
    NothingLeftByRun(cfg, e, ops, start);
    Isolation(cfg, e, ops, start);
  }
}
