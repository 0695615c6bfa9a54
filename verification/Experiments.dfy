/** What `HandleExperiment` does to the backends of one rule, and what it leaves alone. */
module Experiments {
  import opened Gateway
  import opened Rules

  /** A destination of an experiment; `port` is what looking its service up answers, `None` if that fails. */
  datatype Destination = Destination(service: string, weight: Int32, port: Option<Int32>)

  /** `recorded` holds the experiment services noted in the status of the rollout. */
  datatype Experiment = Experiment(
    active: bool,
    namespace: string,
    destinations: seq<Destination>,
    recorded: set<string>)

  const NO_EXPERIMENT := Experiment(false, "", [], {})

  // ----- which rule

  predicate Touches(rule: Rule, cfg: Config) {
    HasBackend(rule.backends, cfg.canary) || HasBackend(rule.backends, cfg.stable)
  }

  /** The index of the first rule that names one of the two services, or the number of rules. */
  function Selected(rules: seq<Rule>, cfg: Config): (i: nat)
    ensures i <= |rules|
    ensures i < |rules| ==> Touches(rules[i], cfg)
    ensures forall k :: 0 <= k < i ==> !Touches(rules[k], cfg)
  {
    if rules == [] then 0
    else if Touches(rules[0], cfg) then 0
    else 1 + Selected(rules[1..], cfg)
  }

  // ----- arithmetic

  /** The running sum of the loop, in `int32` arithmetic. */
  function Total(destinations: seq<Destination>): Int32 {
    if destinations == [] then 0
    else
      var n := |destinations| - 1;
      Wrap32(Total(destinations[..n]) as int + destinations[n].weight as int)
  }

  /** The weight left for the stable service. */
  function StableShare(destinations: seq<Destination>): Int32 {
    var total := Total(destinations);
    Wrap32(100 - if total > 100 then 100 else total as int)
  }

  // ----- backends

  /** Writes the weight of the first backend with the given name. */
  function SetFirst(backends: seq<BackendRef>, name: string, weight: Int32): (r: seq<BackendRef>)
    ensures |r| == |backends|
  {
    if backends == [] then []
    else if backends[0].name == name then [backends[0].(weight := Some(weight))] + backends[1..]
    else [backends[0]] + SetFirst(backends[1..], name, weight)
  }

  lemma {:induction false} SetFirstPoints(backends: seq<BackendRef>, name: string, weight: Int32)
    ensures var r := SetFirst(backends, name, weight);
            forall i :: 0 <= i < |r| ==>
              r[i] == if backends[i].name == name && !HasBackend(backends[..i], name)
                      then backends[i].(weight := Some(weight)) else backends[i]
  {
    if backends != [] {
      SetFirstPoints(backends[1..], name, weight);
      forall i | 0 < i < |backends|
        ensures HasBackend(backends[..i], name) <==>
                backends[0].name == name || HasBackend(backends[1..][..i - 1], name)
      {
        assert backends[..i][1..] == backends[1..][..i - 1];
        HasBackendSplit(backends[..i], name);
      }
    }
  }

  function NewBackend(d: Destination, namespace: string): BackendRef {
    BackendRef(None, None, d.service, Some(namespace), d.port, Some(d.weight), [])
  }

  function AddOne(backends: seq<BackendRef>, d: Destination, namespace: string): seq<BackendRef> {
    if HasBackend(backends, d.service) || d.port.None? then backends
    else backends + [NewBackend(d, namespace)]
  }

  function AddAll(backends: seq<BackendRef>, destinations: seq<Destination>, namespace: string): seq<BackendRef> {
    if destinations == [] then backends
    else
      var n := |destinations| - 1;
      AddOne(AddAll(backends, destinations[..n], namespace), destinations[n], namespace)
  }

  function ResetBackend(cfg: Config, b: BackendRef): BackendRef {
    if b.name == cfg.stable then b.(weight := Some(100))
    else if b.name == cfg.canary then b.(weight := Some(0))
    else b
  }

  /** Drops the recorded services and resets the two weights. */
  function CleanUp(cfg: Config, recorded: set<string>, backends: seq<BackendRef>): seq<BackendRef> {
    if backends == [] then []
    else
      (if backends[0].name in recorded then [] else [ResetBackend(cfg, backends[0])])
      + CleanUp(cfg, recorded, backends[1..])
  }

  predicate HasRecorded(backends: seq<BackendRef>, recorded: set<string>) {
    exists i :: 0 <= i < |backends| && backends[i].name in recorded
  }

  function Activate(cfg: Config, exp: Experiment, backends: seq<BackendRef>): seq<BackendRef> {
    AddAll(SetFirst(backends, cfg.stable, StableShare(exp.destinations)), exp.destinations, exp.namespace)
  }

  /** The backends of the selected rule afterwards. */
  function Handle(cfg: Config, exp: Experiment, backends: seq<BackendRef>): seq<BackendRef> {
    if exp.active then
      if exp.destinations == [] then backends else Activate(cfg, exp, backends)
    else
      if HasRecorded(backends, exp.recorded) then CleanUp(cfg, exp.recorded, backends) else backends
  }

  /** The rule list afterwards; without a matching rule the call fails and changes nothing. */
  function HandleRules(cfg: Config, exp: Experiment, rules: seq<Rule>): (r: seq<Rule>)
    ensures |r| == |rules|
  {
    var i := Selected(rules, cfg);
    if i == |rules| then rules
    else rules[i := rules[i].(backends := Handle(cfg, exp, rules[i].backends))]
  }

  lemma {:induction false} SelectedSame(a: seq<Rule>, b: seq<Rule>, cfg: Config)
    requires |a| == |b| && forall k :: 0 <= k < |a| ==> (Touches(a[k], cfg) <==> Touches(b[k], cfg))
    ensures Selected(a, cfg) == Selected(b, cfg)
  {
    var i, j := Selected(a, cfg), Selected(b, cfg);
    assert !(i < j) && !(j < i);
  }

  lemma {:induction false} SelectedConcat(a: seq<Rule>, b: seq<Rule>, cfg: Config)
    requires Selected(a, cfg) < |a|
    ensures Selected(a + b, cfg) == Selected(a, cfg)
  {
    assert forall k :: 0 <= k < |a| ==> (a + b)[k] == a[k];
  }

  // ----- the core of a backend list: what no experiment and no weight touches

  /** A backend without the weight the plugin writes to it. */
  function Bare(cfg: Config, b: BackendRef): BackendRef {
    if b.name == cfg.canary || b.name == cfg.stable then b.(weight := None) else b
  }

  function Core(cfg: Config, experimental: set<string>, backends: seq<BackendRef>): (core: seq<BackendRef>)
    ensures forall b :: b in core ==> b.name !in experimental
  {
    if backends == [] then []
    else
      (if backends[0].name in experimental then [] else [Bare(cfg, backends[0])])
      + Core(cfg, experimental, backends[1..])
  }

  lemma {:induction false} CoreConcat(cfg: Config, e: set<string>, a: seq<BackendRef>, b: seq<BackendRef>)
    ensures Core(cfg, e, a + b) == Core(cfg, e, a) + Core(cfg, e, b)
  {
    if a == [] {
      assert a + b == b;
    } else {
      assert (a + b)[1..] == a[1..] + b;
      CoreConcat(cfg, e, a[1..], b);
    }
  }

  lemma {:induction false} CoreSame(cfg: Config, e: set<string>, a: seq<BackendRef>, b: seq<BackendRef>)
    requires |a| == |b|
    requires forall i :: 0 <= i < |a| ==> a[i].name == b[i].name && Bare(cfg, a[i]) == Bare(cfg, b[i])
    ensures Core(cfg, e, a) == Core(cfg, e, b)
  {
    if a != [] {
      CoreSame(cfg, e, a[1..], b[1..]);
    }
  }

  lemma {:induction false} CoreAddAll(cfg: Config, e: set<string>, backends: seq<BackendRef>,
                                     destinations: seq<Destination>, namespace: string)
    requires forall d :: d in destinations ==> d.service in e
    ensures Core(cfg, e, AddAll(backends, destinations, namespace)) == Core(cfg, e, backends)
  {
    if destinations != [] {
      var n := |destinations| - 1;
      var before := AddAll(backends, destinations[..n], namespace);
      CoreAddAll(cfg, e, backends, destinations[..n], namespace);
      CoreConcat(cfg, e, before, [NewBackend(destinations[n], namespace)]);
    }
  }

  lemma {:induction false} CoreCleanUp(cfg: Config, e: set<string>, recorded: set<string>, backends: seq<BackendRef>)
    requires recorded <= e
    ensures Core(cfg, e, CleanUp(cfg, recorded, backends)) == Core(cfg, e, backends)
  {
    if backends != [] {
      var head := if backends[0].name in recorded then [] else [ResetBackend(cfg, backends[0])];
      CoreCleanUp(cfg, e, recorded, backends[1..]);
      CoreConcat(cfg, e, head, CleanUp(cfg, recorded, backends[1..]));
    }
  }

  predicate ServicesWithin(exp: Experiment, e: set<string>) {
    exp.recorded <= e && forall d :: d in exp.destinations ==> d.service in e
  }

  /** Whatever an experiment does to a rule, the rest of the rule stays: every other backend with all
      its fields, and the canary and stable backends except for their weights, in order. */
  lemma {:induction false} HandleKeepsCore(cfg: Config, exp: Experiment, e: set<string>, backends: seq<BackendRef>)
    requires ServicesWithin(exp, e)
    ensures Core(cfg, e, Handle(cfg, exp, backends)) == Core(cfg, e, backends)
  {
    if exp.active {
      var shared := SetFirst(backends, cfg.stable, StableShare(exp.destinations));
      SetFirstPoints(backends, cfg.stable, StableShare(exp.destinations));
      CoreSame(cfg, e, shared, backends);
      CoreAddAll(cfg, e, shared, exp.destinations, exp.namespace);
    } else {
      CoreCleanUp(cfg, e, exp.recorded, backends);
    }
  }

  lemma {:induction false} WeighKeepsCore(cfg: Config, weight: Int32, e: set<string>, backends: seq<BackendRef>)
    ensures Core(cfg, e, WeighBackends(cfg, weight, backends)) == Core(cfg, e, backends)
  {
    CoreSame(cfg, e, WeighBackends(cfg, weight, backends), backends);
  }

  /** The core still says whether a lasting service is present, and on which port. */
  lemma {:induction false} CoreKnows(cfg: Config, e: set<string>, backends: seq<BackendRef>, name: string)
    requires name !in e
    ensures HasBackend(backends, name) <==> HasBackend(Core(cfg, e, backends), name)
    ensures PortOf(backends, name) == PortOf(Core(cfg, e, backends), name)
  {
    if backends != [] {
      var core := Core(cfg, e, backends);
      CoreKnows(cfg, e, backends[1..], name);
      HasBackendSplit(backends, name);
      if backends[0].name !in e {
        HasBackendSplit(core, name);
        assert core[1..] == Core(cfg, e, backends[1..]);
      } else {
        assert core == Core(cfg, e, backends[1..]);
      }
    }
  }

  lemma {:induction false} HasBackendSplit(backends: seq<BackendRef>, name: string)
    requires backends != []
    ensures HasBackend(backends, name) <==> backends[0].name == name || HasBackend(backends[1..], name)
  {
    if i :| 0 < i < |backends| && backends[i].name == name {
      assert backends[1..][i - 1].name == name;
    }
  }

  // ----- arithmetic of an active experiment

  function Sum(destinations: seq<Destination>): int {
    if destinations == [] then 0
    else Sum(destinations[..|destinations| - 1]) + destinations[|destinations| - 1].weight as int
  }

  lemma {:induction false} WrapTwice(x: int, y: int)
    ensures Wrap32(Wrap32(x) as int + y) == Wrap32(x + y)
  {
  }

  lemma {:induction false} TotalWraps(destinations: seq<Destination>)
    ensures Total(destinations) == Wrap32(Sum(destinations))
  {
    if destinations != [] {
      var n := |destinations| - 1;
      TotalWraps(destinations[..n]);
      WrapTwice(Sum(destinations[..n]), destinations[n].weight as int);
    }
  }

  /** The share is a percentage exactly when the wrapped sum is not negative: the cap at 100 does not
      catch a sum that wraps. */
  lemma {:induction false} ShareIsPercentage(destinations: seq<Destination>)
    ensures 0 <= StableShare(destinations) <= 100 <==> Wrap32(Sum(destinations)) >= 0
  {
    TotalWraps(destinations);
  }

  /** For weights that sum to a non-negative number, the share is what the cap intends exactly when the
      sum fits an `int32` or wraps to a number that is capped as well. */
  lemma {:induction false} ShareAsIntended(destinations: seq<Destination>)
    requires Sum(destinations) >= 0
    ensures StableShare(destinations) as int == 100 - (if Sum(destinations) > 100 then 100 else Sum(destinations))
       <==> Sum(destinations) <= 0x7fff_ffff || Wrap32(Sum(destinations)) >= 100
  {
    TotalWraps(destinations);
  }

  /** Two large weights get past the cap. */
  lemma {:induction false} ShareOverflow()
    ensures var big := Destination("a", 0x7fff_ffff, None);
            StableShare([big, Destination("b", 1, None)]) == -0x7fff_ff9c
  {
    var ds := [Destination("a", 0x7fff_ffff, None), Destination("b", 1, None)];
    assert ds[..1] == [ds[0]] && ds[..1][..0] == [];
    assert Total(ds[..1]) == 0x7fff_ffff;
  }

  /** The total weight of a backend list; a backend without a weight counts as 1 in the Gateway API. */
  function TotalWeight(backends: seq<BackendRef>): int {
    if backends == [] then 0
    else (if backends[0].weight.Some? then backends[0].weight.value as int else 1) + TotalWeight(backends[1..])
  }

  lemma {:induction false} TotalWeightConcat(a: seq<BackendRef>, b: seq<BackendRef>)
    ensures TotalWeight(a + b) == TotalWeight(a) + TotalWeight(b)
  {
    if a == [] {
      assert a + b == b;
    } else {
      assert (a + b)[1..] == a[1..] + b;
      TotalWeightConcat(a[1..], b);
    }
  }

  predicate DistinctServices(destinations: seq<Destination>) {
    forall i, j :: 0 <= i < j < |destinations| ==> destinations[i].service != destinations[j].service
  }

  lemma {:induction false} AddAllNames(backends: seq<BackendRef>, destinations: seq<Destination>, namespace: string,
                                      name: string)
    ensures HasBackend(AddAll(backends, destinations, namespace), name) <==>
            HasBackend(backends, name)
            || exists i :: 0 <= i < |destinations| && destinations[i].service == name && destinations[i].port.Some?
  {
    if destinations != [] {
      var n := |destinations| - 1;
      var before, d := AddAll(backends, destinations[..n], namespace), destinations[n];
      AddAllNames(backends, destinations[..n], namespace, name);
      assert forall i :: 0 <= i < n ==> destinations[..n][i] == destinations[i];
      if !(HasBackend(before, d.service) || d.port.None?) {
        assert (before + [NewBackend(d, namespace)])[|before|].name == d.service;
        if HasBackend(before, name) {
          var i :| 0 <= i < |before| && before[i].name == name;
          assert (before + [NewBackend(d, namespace)])[i].name == name;
        }
      }
    }
  }

  lemma {:induction false} AddAllWeight(backends: seq<BackendRef>, destinations: seq<Destination>, namespace: string)
    requires DistinctServices(destinations)
    requires forall i :: 0 <= i < |destinations| ==>
               destinations[i].port.Some? && !HasBackend(backends, destinations[i].service)
    ensures TotalWeight(AddAll(backends, destinations, namespace)) == TotalWeight(backends) + Sum(destinations)
  {
    if destinations != [] {
      var n := |destinations| - 1;
      var before, d := AddAll(backends, destinations[..n], namespace), destinations[n];
      AddAllWeight(backends, destinations[..n], namespace);
      AddAllNames(backends, destinations[..n], namespace, d.service);
      TotalWeightConcat(before, [NewBackend(d, namespace)]);
    }
  }

  /** Replacing the weight of the backend at `i`. */
  lemma {:induction false} TotalWeightUpdate(backends: seq<BackendRef>, i: nat, weight: Int32)
    requires i < |backends|
    ensures TotalWeight(backends[i := backends[i].(weight := Some(weight))])
         == TotalWeight(backends[..i]) + TotalWeight(backends[i + 1..]) + weight as int
  {
    var b := backends[i].(weight := Some(weight));
    assert backends[i := b] == backends[..i] + ([b] + backends[i + 1..]);
    TotalWeightConcat(backends[..i], [b] + backends[i + 1..]);
    assert ([b] + backends[i + 1..])[1..] == backends[i + 1..];
  }

  /** Traffic is conserved: an experiment whose distinct new services are all found takes its weights from
      the first stable backend, so these together weigh 100, and the other backends weigh what they did. */
  lemma {:induction false} ActivationConserves(cfg: Config, exp: Experiment, backends: seq<BackendRef>, i: nat)
    requires DistinctServices(exp.destinations)
    requires forall k :: 0 <= k < |exp.destinations| ==>
               exp.destinations[k].port.Some? && !HasBackend(backends, exp.destinations[k].service)
    requires 0 <= Sum(exp.destinations) <= 100
    requires i < |backends| && backends[i].name == cfg.stable && !HasBackend(backends[..i], cfg.stable)
    ensures TotalWeight(Activate(cfg, exp, backends))
         == TotalWeight(backends[..i]) + TotalWeight(backends[i + 1..]) + 100
  {
    var share := StableShare(exp.destinations);
    var shared := SetFirst(backends, cfg.stable, share);
    SetFirstPoints(backends, cfg.stable, share);
    assert forall k :: 0 <= k < i ==> backends[..i][k] == backends[k];
    assert shared == backends[i := backends[i].(weight := Some(share))] by {
      forall k | 0 <= k < |backends| && k != i
        ensures shared[k] == backends[k]
      {
        if k > i {
          assert backends[..k][i].name == cfg.stable;
        }
      }
    }
    TotalWraps(exp.destinations);
    TotalWeightUpdate(backends, i, share);
    forall k | 0 <= k < |exp.destinations|
      ensures !HasBackend(shared, exp.destinations[k].service)
    {
      assert forall j :: 0 <= j < |shared| ==> shared[j].name == backends[j].name;
    }
    AddAllWeight(shared, exp.destinations, exp.namespace);
  }

  /** The documented case: a stable and a canary backend, the canary at 0, together sum to exactly 100. */
  lemma {:induction false} DocumentedSplit(cfg: Config, exp: Experiment, stable: BackendRef, canary: BackendRef)
    requires stable.name == cfg.stable && canary.name == cfg.canary && canary.weight == Some(0)
    requires DistinctServices(exp.destinations) && 0 <= Sum(exp.destinations) <= 100
    requires forall k :: 0 <= k < |exp.destinations| ==>
               exp.destinations[k].port.Some?
               && exp.destinations[k].service != cfg.stable && exp.destinations[k].service != cfg.canary
    ensures TotalWeight(Activate(cfg, exp, [stable, canary])) == 100
  {
    ActivationConserves(cfg, exp, [stable, canary], 0);
    assert [stable, canary][1..] == [canary];
  }

  // ----- repeating and undoing

  predicate DistinctNames(backends: seq<BackendRef>) {
    forall i, j :: 0 <= i < j < |backends| ==> backends[i].name != backends[j].name
  }

  lemma {:induction false} AddAllDistinct(backends: seq<BackendRef>, destinations: seq<Destination>, namespace: string)
    requires DistinctNames(backends)
    ensures DistinctNames(AddAll(backends, destinations, namespace))
  {
    if destinations != [] {
      AddAllDistinct(backends, destinations[..|destinations| - 1], namespace);
    }
  }

  lemma {:induction false} AddAllSettled(backends: seq<BackendRef>, destinations: seq<Destination>, namespace: string)
    requires forall i :: 0 <= i < |destinations| ==>
               HasBackend(backends, destinations[i].service) || destinations[i].port.None?
    ensures AddAll(backends, destinations, namespace) == backends
  {
    if destinations != [] {
      AddAllSettled(backends, destinations[..|destinations| - 1], namespace);
    }
  }

  predicate Added(b: BackendRef, destinations: seq<Destination>, namespace: string) {
    exists k :: 0 <= k < |destinations| && destinations[k].port.Some? && b == NewBackend(destinations[k], namespace)
  }

  lemma {:induction false} AddAllExtends(backends: seq<BackendRef>, destinations: seq<Destination>, namespace: string)
    ensures var all := AddAll(backends, destinations, namespace);
            backends <= all && forall i :: |backends| <= i < |all| ==> Added(all[i], destinations, namespace)
  {
    if destinations != [] {
      var n := |destinations| - 1;
      AddAllExtends(backends, destinations[..n], namespace);
      var before, after := AddAll(backends, destinations[..n], namespace), AddAll(backends, destinations, namespace);
      forall i | |backends| <= i < |after|
        ensures Added(after[i], destinations, namespace)
      {
        if i < |before| {
          assert Added(before[i], destinations[..n], namespace);
          var k :| 0 <= k < n && destinations[..n][k].port.Some?
            && before[i] == NewBackend(destinations[..n][k], namespace);
          assert destinations[k].port.Some?;
        }
      }
    }
  }

  lemma {:induction false} AddAllSplit(backends: seq<BackendRef>, a: seq<Destination>, b: seq<Destination>,
                                      namespace: string)
    ensures AddAll(backends, a + b, namespace) == AddAll(AddAll(backends, a, namespace), b, namespace)
  {
    if b == [] {
      assert a + b == a;
    } else {
      assert (a + b)[..|a + b| - 1] == a + b[..|b| - 1];
      AddAllSplit(backends, a, b[..|b| - 1], namespace);
    }
  }

  lemma {:induction false} SetFirstAgain(backends: seq<BackendRef>, more: seq<BackendRef>, name: string, weight: Int32)
    requires HasBackend(backends, name)
    ensures var once := SetFirst(backends, name, weight) + more;
            SetFirst(once, name, weight) == once
  {
    var once := SetFirst(backends, name, weight) + more;
    if backends[0].name != name {
      HasBackendSplit(backends, name);
      SetFirstAgain(backends[1..], more, name, weight);
      assert once[1..] == SetFirst(backends[1..], name, weight) + more;
    } else {
      assert once[0] == once[0].(weight := Some(weight));
    }
  }

  lemma {:induction false} SetFirstFound(backends: seq<BackendRef>, name: string, weight: Int32, i: nat)
    requires i < |backends| && backends[i].name == name && !HasBackend(backends[..i], name)
    ensures SetFirst(backends, name, weight) == backends[i := backends[i].(weight := Some(weight))]
  {
    if i > 0 {
      assert backends[..i][0] == backends[0];
      HasBackendSplit(backends[..i], name);
      assert backends[..i][1..] == backends[1..][..i - 1];
      SetFirstFound(backends[1..], name, weight, i - 1);
    }
  }

  lemma {:induction false} SetFirstAbsent(backends: seq<BackendRef>, name: string, weight: Int32)
    requires !HasBackend(backends, name)
    ensures SetFirst(backends, name, weight) == backends
  {
    SetFirstPoints(backends, name, weight);
  }

  /** Destination `k` is the first that is found and bears the name of the stable service. */
  predicate FirstStable(cfg: Config, destinations: seq<Destination>, k: nat) {
    k < |destinations|
    && destinations[k].service == cfg.stable && destinations[k].port.Some?
    && forall j :: 0 <= j < k ==> !(destinations[j].service == cfg.stable && destinations[j].port.Some?)
  }

  lemma {:induction false} AddedStable(cfg: Config, exp: Experiment, backends: seq<BackendRef>, k: nat)
    requires !HasBackend(backends, cfg.stable) && FirstStable(cfg, exp.destinations, k)
    ensures var once := Activate(cfg, exp, backends);
            var share := StableShare(exp.destinations);
            SetFirst(once, cfg.stable, share) == once <==> exp.destinations[k].weight == share
  {
    var ds, share := exp.destinations, StableShare(exp.destinations);
    assert ds[..k + 1] + ds[k + 1..] == ds && ds[..k + 1][..k] == ds[..k];
    SetFirstAbsent(backends, cfg.stable, share);
    var before := AddAll(backends, ds[..k], exp.namespace);
    AddAllNames(backends, ds[..k], exp.namespace, cfg.stable);
    var stable := NewBackend(ds[k], exp.namespace);
    assert AddAll(backends, ds[..k + 1], exp.namespace) == before + [stable];
    AddAllSplit(backends, ds[..k + 1], ds[k + 1..], exp.namespace);
    AddAllExtends(before + [stable], ds[k + 1..], exp.namespace);
    var once := Activate(cfg, exp, backends);
    assert once[|before|] == (before + [stable])[|before|];
    assert once[..|before|] == before;
    SetFirstAt(once, cfg.stable, share, |before|);
  }

  lemma {:induction false} SetFirstAt(backends: seq<BackendRef>, name: string, weight: Int32, at: nat)
    requires at < |backends| && backends[at].name == name && !HasBackend(backends[..at], name)
    ensures SetFirst(backends, name, weight) == backends <==> backends[at].weight == Some(weight)
  {
    SetFirstPoints(backends, name, weight);
    assert forall i :: 0 <= i < at ==> backends[..at][i] == backends[i];
    forall i | at < i < |backends|
      ensures HasBackend(backends[..i], name)
    {
      assert backends[..i][at].name == name;
    }
    assert SetFirst(backends, name, weight)[at] == backends[at].(weight := Some(weight));
  }

  lemma {:induction false} OwnStable(cfg: Config, exp: Experiment, backends: seq<BackendRef>)
    requires HasBackend(backends, cfg.stable)
    ensures var once := Activate(cfg, exp, backends);
            SetFirst(once, cfg.stable, StableShare(exp.destinations)) == once
  {
    var share := StableShare(exp.destinations);
    var shared := SetFirst(backends, cfg.stable, share);
    var once := AddAll(shared, exp.destinations, exp.namespace);
    AddAllExtends(shared, exp.destinations, exp.namespace);
    assert once == shared + once[|shared|..];
    SetFirstAgain(backends, once[|shared|..], cfg.stable, share);
  }

  lemma {:induction false} NoStable(cfg: Config, exp: Experiment, backends: seq<BackendRef>)
    requires !HasBackend(backends, cfg.stable)
    requires forall k: nat :: !FirstStable(cfg, exp.destinations, k)
    ensures var once := Activate(cfg, exp, backends);
            SetFirst(once, cfg.stable, StableShare(exp.destinations)) == once
  {
    var share := StableShare(exp.destinations);
    NoFirstStable(cfg, exp.destinations, |exp.destinations|);
    SetFirstAbsent(backends, cfg.stable, share);
    AddAllNames(backends, exp.destinations, exp.namespace, cfg.stable);
    SetFirstAbsent(Activate(cfg, exp, backends), cfg.stable, share);
  }

  /** The rule has a stable backend of its own, or the experiment adds none that weighs something else
      than the share. */
  ghost predicate StableSettled(cfg: Config, exp: Experiment, backends: seq<BackendRef>) {
    HasBackend(backends, cfg.stable)
    || forall k: nat :: FirstStable(cfg, exp.destinations, k) ==>
         exp.destinations[k].weight == StableShare(exp.destinations)
  }

  /** When handling the same experiment again, with the same lookups, changes nothing. */
  lemma {:induction false} ActivateTwice(cfg: Config, exp: Experiment, backends: seq<BackendRef>)
    ensures Activate(cfg, exp, Activate(cfg, exp, backends)) == Activate(cfg, exp, backends)
       <==> StableSettled(cfg, exp, backends)
  {
    SecondPass(cfg, exp, backends);
    if HasBackend(backends, cfg.stable) {
      OwnStable(cfg, exp, backends);
    } else if k: nat :| FirstStable(cfg, exp.destinations, k) {
      AddedStable(cfg, exp, backends, k);
      assert forall j: nat :: FirstStable(cfg, exp.destinations, j) ==> j == k;
    } else {
      NoStable(cfg, exp, backends);
    }
  }

  lemma {:induction false} ActivateDistinct(cfg: Config, exp: Experiment, backends: seq<BackendRef>)
    requires DistinctNames(backends)
    ensures DistinctNames(Activate(cfg, exp, backends))
  {
    SetFirstPoints(backends, cfg.stable, StableShare(exp.destinations));
    AddAllDistinct(SetFirst(backends, cfg.stable, StableShare(exp.destinations)), exp.destinations, exp.namespace);
  }

  /** The second pass adds nothing, so it only writes the share again. */
  lemma {:induction false} SecondPass(cfg: Config, exp: Experiment, backends: seq<BackendRef>)
    ensures var once := Activate(cfg, exp, backends);
            Activate(cfg, exp, once) == SetFirst(once, cfg.stable, StableShare(exp.destinations))
  {
    var share := StableShare(exp.destinations);
    var shared, once := SetFirst(backends, cfg.stable, share), Activate(cfg, exp, backends);
    var again := SetFirst(once, cfg.stable, share);
    SetFirstPoints(once, cfg.stable, share);
    forall i | 0 <= i < |exp.destinations|
      ensures HasBackend(again, exp.destinations[i].service) || exp.destinations[i].port.None?
    {
      if exp.destinations[i].port.Some? {
        AddAllNames(shared, exp.destinations, exp.namespace, exp.destinations[i].service);
        var k :| 0 <= k < |once| && once[k].name == exp.destinations[i].service;
        assert again[k].name == once[k].name;
      }
    }
    AddAllSettled(again, exp.destinations, exp.namespace);
  }

  lemma {:induction false} NoFirstStable(cfg: Config, destinations: seq<Destination>, n: nat)
    requires n <= |destinations|
    requires forall k: nat :: !FirstStable(cfg, destinations, k)
    ensures forall j :: 0 <= j < n ==> !(destinations[j].service == cfg.stable && destinations[j].port.Some?)
  {
    if n > 0 {
      NoFirstStable(cfg, destinations, n - 1);
      assert !FirstStable(cfg, destinations, n - 1);
    }
  }

  // ----- what the handler leaves, in full

  /** The destination is added: it is found, not among the backends, and no earlier one that is found bears its name. */
  predicate IsNew(backends: seq<BackendRef>, ds: seq<Destination>, k: nat)
    requires k < |ds|
  {
    ds[k].port.Some?
    && (forall i :: 0 <= i < |backends| ==> backends[i].name != ds[k].service)
    && forall j :: 0 <= j < k ==> !(ds[j].port.Some? && ds[j].service == ds[k].service)
  }

  /** `b` is the backend for the destination, on the port that looking it up gave. */
  predicate BackendFor(b: BackendRef, d: Destination, namespace: string) {
    b.name == d.service && b.namespace == Some(namespace) && b.port == d.port && b.weight == Some(d.weight)
    && b.group == None && b.kind == None && b.filters == []
  }

  lemma {:induction false} NewOrPresent(backends: seq<BackendRef>, ds: seq<Destination>, namespace: string)
    requires ds != []
    ensures var n := |ds| - 1;
            IsNew(backends, ds, n) <==>
            ds[n].port.Some? && !HasBackend(AddAll(backends, ds[..n], namespace), ds[n].service)
  {
    var n := |ds| - 1;
    AddAllNames(backends, ds[..n], namespace, ds[n].service);
    assert forall i :: 0 <= i < n ==> ds[..n][i] == ds[i];
  }

  lemma {:induction false} NewInPrefix(backends: seq<BackendRef>, ds: seq<Destination>, n: nat, k: nat)
    requires k < n <= |ds|
    ensures IsNew(backends, ds[..n], k) <==> IsNew(backends, ds, k)
  {
    assert forall i :: 0 <= i < n ==> ds[..n][i] == ds[i];
  }

  /** The backends stay, and behind them come those for the new destinations, each once and in order. */
  lemma {:induction false} AddedInOrder(backends: seq<BackendRef>, ds: seq<Destination>, namespace: string)
    returns (added: seq<Destination>, at: seq<nat>)
    ensures Picks(ds, added, at) && forall k :: 0 <= k < |ds| ==> (k in at <==> IsNew(backends, ds, k))
    ensures var all := AddAll(backends, ds, namespace);
            && |all| == |backends| + |added| && all[..|backends|] == backends
            && forall k :: 0 <= k < |added| ==> BackendFor(all[|backends| + k], added[k], namespace)
  {
    added, at := [], [];
    if ds != [] {
      var n := |ds| - 1;
      added, at := AddedInOrder(backends, ds[..n], namespace);
      PickNext(ds, added, at);
      NewOrPresent(backends, ds, namespace);
      forall k | 0 <= k < n
        ensures IsNew(backends, ds[..n], k) <==> IsNew(backends, ds, k)
      {
        NewInPrefix(backends, ds, n, k);
      }
      if IsNew(backends, ds, n) {
        added, at := added + [ds[n]], at + [n];
      }
    }
  }

  /** `shared` is `backends` with the weight `share` on the first stable one. */
  ghost predicate SharesFirst(cfg: Config, backends: seq<BackendRef>, shared: seq<BackendRef>, share: Int32) {
    |shared| == |backends|
    && forall i :: 0 <= i < |backends| ==>
         shared[i] == if backends[i].name == cfg.stable && forall k :: 0 <= k < i ==> backends[k].name != cfg.stable
                      then backends[i].(weight := Some(share)) else backends[i]
  }

  /** An active experiment gives the first stable backend what its destinations leave of 100, and appends the new
      ones; without destinations it does nothing. */
  lemma {:induction false} ActiveMeans(cfg: Config, exp: Experiment, backends: seq<BackendRef>)
    returns (added: seq<Destination>, at: seq<nat>, share: Int32)
    requires exp.active
    ensures exp.destinations == [] ==> Handle(cfg, exp, backends) == backends
    ensures exp.destinations != [] ==>
              var after := Handle(cfg, exp, backends);
              && Picks(exp.destinations, added, at)
              && (forall k :: 0 <= k < |exp.destinations| ==> (k in at <==> IsNew(backends, exp.destinations, k)))
              && |after| == |backends| + |added|
              && SharesFirst(cfg, backends, after[..|backends|], share)
              && forall k :: 0 <= k < |added| ==> BackendFor(after[|backends| + k], added[k], exp.namespace)
    ensures 0 <= Sum(exp.destinations) <= 100 ==> share as int + Sum(exp.destinations) == 100
    ensures 100 < Sum(exp.destinations) <= 0x7fff_ffff ==> share == 0
  {
    share := StableShare(exp.destinations);
    ShareAsIntendedIfPositive(exp.destinations);
    var shared := SetFirst(backends, cfg.stable, share);
    SetFirstPoints(backends, cfg.stable, share);
    added, at := AddedInOrder(shared, exp.destinations, exp.namespace);
    assert forall i :: 0 <= i < |backends| ==> shared[i].name == backends[i].name;
    assert SharesFirst(cfg, backends, shared, share) by {
      forall i | 0 <= i < |backends|
        ensures HasBackend(backends[..i], cfg.stable) <==> exists k :: 0 <= k < i && backends[k].name == cfg.stable
      {
        assert forall k :: 0 <= k < i ==> backends[..i][k] == backends[k];
      }
    }
  }

  lemma {:induction false} ShareAsIntendedIfPositive(destinations: seq<Destination>)
    ensures 0 <= Sum(destinations) <= 100 ==> StableShare(destinations) as int + Sum(destinations) == 100
    ensures 100 < Sum(destinations) <= 0x7fff_ffff ==> StableShare(destinations) == 0
  {
    TotalWraps(destinations);
  }

  /** Without an active experiment the handler drops the recorded services, if one is there, and keeps the other
      backends in order, with 100 on stable and 0 on canary; otherwise it does nothing. */
  lemma {:induction false} InactiveMeans(cfg: Config, exp: Experiment, backends: seq<BackendRef>)
    returns (kept: seq<BackendRef>, at: seq<nat>)
    requires !exp.active && cfg.canary != cfg.stable
    ensures (forall i :: 0 <= i < |backends| ==> backends[i].name !in exp.recorded) ==>
              Handle(cfg, exp, backends) == backends
    ensures (exists i :: 0 <= i < |backends| && backends[i].name in exp.recorded) ==>
              var after := Handle(cfg, exp, backends);
              && Picks(backends, kept, at)
              && (forall i :: 0 <= i < |backends| ==> (i in at <==> backends[i].name !in exp.recorded))
              && |after| == |kept|
              && forall k :: 0 <= k < |kept| ==>
                   after[k] == kept[k].(weight := if kept[k].name == cfg.stable then Some(100)
                                                  else if kept[k].name == cfg.canary then Some(0) else kept[k].weight)
  {
    kept, at := KeptInOrder(cfg, exp.recorded, backends);
  }

  lemma {:induction false} KeptInOrder(cfg: Config, recorded: set<string>, backends: seq<BackendRef>)
    returns (kept: seq<BackendRef>, at: seq<nat>)
    ensures Picks(backends, kept, at)
    ensures forall i :: 0 <= i < |backends| ==> (i in at <==> backends[i].name !in recorded)
    ensures var after := CleanUp(cfg, recorded, backends);
            |after| == |kept| && forall k :: 0 <= k < |kept| ==> after[k] == ResetBackend(cfg, kept[k])
  {
    kept, at := [], [];
    if backends != [] {
      var n := |backends| - 1;
      kept, at := KeptInOrder(cfg, recorded, backends[..n]);
      PickNext(backends, kept, at);
      CleanUpNext(cfg, recorded, backends, n);
      assert backends[..n + 1] == backends;
      if backends[n].name !in recorded {
        kept, at := kept + [backends[n]], at + [n];
      }
    }
  }

  /** The handler works on the first rule that names one of the two services. */
  lemma {:induction false} SelectedMeans(cfg: Config, rules: seq<Rule>)
    ensures var s := Selected(rules, cfg);
            && (s < |rules| ==> exists b :: b in rules[s].backends && (b.name == cfg.canary || b.name == cfg.stable))
            && forall k :: 0 <= k < s ==>
                 forall b :: b in rules[k].backends ==> b.name != cfg.canary && b.name != cfg.stable
  {
    var s := Selected(rules, cfg);
    if s < |rules| {
      var j :| 0 <= j < |rules[s].backends|
        && (rules[s].backends[j].name == cfg.canary || rules[s].backends[j].name == cfg.stable);
      assert rules[s].backends[j] in rules[s].backends;
    }
    forall k, b | 0 <= k < s && b in rules[k].backends
      ensures b.name != cfg.canary && b.name != cfg.stable
    {
      assert !Touches(rules[k], cfg);
    }
  }

  function ResetAll(cfg: Config, backends: seq<BackendRef>): (r: seq<BackendRef>)
    ensures |r| == |backends|
  {
    seq(|backends|, i requires 0 <= i < |backends| => ResetBackend(cfg, backends[i]))
  }

  lemma {:induction false} CleanUpConcat(cfg: Config, recorded: set<string>, a: seq<BackendRef>, b: seq<BackendRef>)
    ensures CleanUp(cfg, recorded, a + b) == CleanUp(cfg, recorded, a) + CleanUp(cfg, recorded, b)
  {
    if a == [] {
      assert a + b == b;
    } else {
      assert (a + b)[1..] == a[1..] + b;
      CleanUpConcat(cfg, recorded, a[1..], b);
    }
  }

  lemma {:induction false} CleanUpNext(cfg: Config, recorded: set<string>, backends: seq<BackendRef>, i: nat)
    requires i < |backends|
    ensures CleanUp(cfg, recorded, backends[..i + 1])
         == CleanUp(cfg, recorded, backends[..i])
            + if backends[i].name in recorded then [] else [ResetBackend(cfg, backends[i])]
  {
    assert backends[..i + 1] == backends[..i] + [backends[i]];
    CleanUpConcat(cfg, recorded, backends[..i], [backends[i]]);
    assert [backends[i]][1..] == [];
  }

  lemma {:induction false} CleanUpOwn(cfg: Config, recorded: set<string>, backends: seq<BackendRef>)
    requires !HasRecorded(backends, recorded)
    ensures CleanUp(cfg, recorded, backends) == ResetAll(cfg, backends)
  {
    if backends != [] {
      assert backends[0].name !in recorded;
      assert forall i :: 0 <= i < |backends[1..]| ==> backends[1..][i] == backends[i + 1];
      CleanUpOwn(cfg, recorded, backends[1..]);
      assert ResetAll(cfg, backends) == [ResetBackend(cfg, backends[0])] + ResetAll(cfg, backends[1..]);
    }
  }

  lemma {:induction false} CleanUpRecorded(cfg: Config, recorded: set<string>, backends: seq<BackendRef>)
    requires forall i :: 0 <= i < |backends| ==> backends[i].name in recorded
    ensures CleanUp(cfg, recorded, backends) == []
  {
    if backends != [] {
      CleanUpRecorded(cfg, recorded, backends[1..]);
    }
  }

  function ServiceNames(destinations: seq<Destination>): set<string> {
    set i | 0 <= i < |destinations| :: destinations[i].service
  }

  /** Cleaning up after services were appended to backends that are not recorded. */
  lemma {:induction false} CleanUpAdded(cfg: Config, recorded: set<string>, own: seq<BackendRef>,
                                        added: seq<BackendRef>)
    requires !HasRecorded(own, recorded)
    requires forall i :: 0 <= i < |added| ==> added[i].name in recorded
    ensures CleanUp(cfg, recorded, own + added) == ResetAll(cfg, own)
    ensures HasRecorded(own + added, recorded) <==> added != []
  {
    CleanUpConcat(cfg, recorded, own, added);
    CleanUpOwn(cfg, recorded, own);
    CleanUpRecorded(cfg, recorded, added);
    if added != [] {
      assert (own + added)[|own|] == added[0];
    } else {
      assert own + added == own;
    }
  }

  lemma {:induction false} AddedNames(exp: Experiment, backends: seq<BackendRef>)
    ensures var all := AddAll(backends, exp.destinations, exp.namespace);
            forall i :: |backends| <= i < |all| ==> all[i].name in ServiceNames(exp.destinations)
  {
    var all := AddAll(backends, exp.destinations, exp.namespace);
    AddAllExtends(backends, exp.destinations, exp.namespace);
    forall i | |backends| <= i < |all|
      ensures all[i].name in ServiceNames(exp.destinations)
    {
      assert Added(all[i], exp.destinations, exp.namespace);
    }
  }

  /** Something is appended exactly when a lookup succeeds, if no service is there already. */
  lemma {:induction false} SomethingAdded(exp: Experiment, backends: seq<BackendRef>)
    requires !HasRecorded(backends, ServiceNames(exp.destinations))
    ensures |AddAll(backends, exp.destinations, exp.namespace)| > |backends| <==>
            exists k :: 0 <= k < |exp.destinations| && exp.destinations[k].port.Some?
  {
    AddAllExtends(backends, exp.destinations, exp.namespace);
    if k :| 0 <= k < |exp.destinations| && exp.destinations[k].port.Some? {
      var name := exp.destinations[k].service;
      AddAllNames(backends, exp.destinations, exp.namespace, name);
      assert name in ServiceNames(exp.destinations);
    } else {
      AddAllSettled(backends, exp.destinations, exp.namespace);
    }
  }

  /** Starting an experiment and then stopping it, with its services recorded, gives back the original
      backends in order, with the two weights reset if any service had been added. If every lookup
      failed, nothing is cleaned up and the stable backend keeps the reduced share. */
  lemma {:induction false} ExperimentRoundTrip(cfg: Config, exp: Experiment, backends: seq<BackendRef>)
    requires exp.active && exp.destinations != []
    requires !HasRecorded(backends, ServiceNames(exp.destinations))
    ensures var started := Handle(cfg, exp, backends);
            var over := Experiment(false, exp.namespace, [], ServiceNames(exp.destinations));
            Handle(cfg, over, started) ==
              if exists k :: 0 <= k < |exp.destinations| && exp.destinations[k].port.Some?
              then ResetAll(cfg, backends)
              else SetFirst(backends, cfg.stable, StableShare(exp.destinations))
  {
    var names, share := ServiceNames(exp.destinations), StableShare(exp.destinations);
    var shared := SetFirst(backends, cfg.stable, share);
    SetFirstPoints(backends, cfg.stable, share);
    assert !HasRecorded(shared, names);
    assert ResetAll(cfg, shared) == ResetAll(cfg, backends);
    AddAllExtends(shared, exp.destinations, exp.namespace);
    AddedNames(exp, shared);
    SomethingAdded(exp, shared);
    var started := AddAll(shared, exp.destinations, exp.namespace);
    assert started == shared + started[|shared|..];
    CleanUpAdded(cfg, names, shared, started[|shared|..]);
  }
}
