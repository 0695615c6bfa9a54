/** The in-memory copy of an HTTPRoute or a GRPCRoute, and the code that rewrites it in place. */
module Routes {
  import opened Gateway
  import opened Labels
  import Names
  import opened Rules
  import opened Experiments
  import opened Operations
  import Search

  const NO_MATCHING_RULE := "no matching rule found for rollout"

  class Route {
    var rules: seq<Rule>
    var labels: LabelMap

    constructor (state: RouteState)
      ensures State() == state
    {
      rules, labels := state.rules, state.labels;
    }

    function State(): RouteState
      reads this
    {
      RouteState(rules, labels)
    }

    // ----- weights

    /** On failure the copy has been weighed already; it is discarded and never stored. */
    method SetWeight(cfg: Config, weight: Int32, exp: Experiment) returns (error: Option<string>)
      modifies this
      ensures error.None? ==> ApplyWeight(cfg, weight, exp, old(State())) == Commit(State())
      ensures error.Some? ==> ApplyWeight(cfg, weight, exp, old(State())) == Fail(error.value)
      ensures error.Some? ==> State() == old(State()).(rules := Weigh(cfg, weight, old(rules)))
    {
      var canaryFound, stableFound := false, false;
      for i := 0 to |rules|
        invariant labels == old(labels) && |rules| == |old(rules)|
        invariant forall k :: 0 <= k < i ==> rules[k] == WeighRule(cfg, weight, old(rules)[k])
        invariant forall k :: i <= k < |rules| ==> rules[k] == old(rules)[k]
        invariant canaryFound <==> Found(cfg, old(rules)[..i], cfg.canary)
        invariant stableFound <==> Found(cfg, old(rules)[..i], cfg.stable) && cfg.canary != cfg.stable
      {
        FoundNext(cfg, old(rules), i, cfg.canary);
        FoundNext(cfg, old(rules), i, cfg.stable);
        var managed := Recognise(rules[i], AnyManaged(cfg));
        if managed {
          continue;
        }
        var c, s := WriteWeights(cfg, weight, i);
        canaryFound, stableFound := canaryFound || c, stableFound || s;
      }
      assert old(rules)[..|rules|] == old(rules);
      assert rules == Weigh(cfg, weight, old(rules));
      if !canaryFound || !stableFound {
        return Some(NotFound(cfg.kind));
      }
      if cfg.kind == Http {
        var ignored := HandleExperiment(cfg, exp);
      }
      var changed := EnsureInProgressLabel(cfg.marker, weight);
      return None;
    }

    /** Writes the weights of one rule and reports which cases of the switch occurred. */
    method WriteWeights(cfg: Config, weight: Int32, i: nat) returns (canaryFound: bool, stableFound: bool)
      requires i < |rules|
      modifies this`rules
      ensures rules == WithBackends(old(rules), i, WeighBackends(cfg, weight, old(rules)[i].backends))
      ensures canaryFound <==> HasBackend(old(rules)[i].backends, cfg.canary)
      ensures stableFound <==> HasBackend(old(rules)[i].backends, cfg.stable) && cfg.canary != cfg.stable
    {
      canaryFound, stableFound := false, false;
      ghost var before := rules[i].backends;
      for j := 0 to |rules[i].backends|
        invariant |rules| == |old(rules)| && rules == WithBackends(old(rules), i, rules[i].backends)
        invariant |rules[i].backends| == |before|
        invariant forall k :: 0 <= k < j ==> rules[i].backends[k] == WeighBackend(cfg, weight, before[k])
        invariant forall k :: j <= k < |before| ==> rules[i].backends[k] == before[k]
        invariant canaryFound <==> HasBackend(before[..j], cfg.canary)
        invariant stableFound <==> HasBackend(before[..j], cfg.stable) && cfg.canary != cfg.stable
      {
        HasBackendNext(before, j, cfg.canary);
        HasBackendNext(before, j, cfg.stable);
        var b := rules[i].backends[j];
        if b.name == cfg.canary {
          WriteBackend(i, j, b.(weight := Some(weight)));
          canaryFound := true;
        } else if b.name == cfg.stable {
          WriteBackend(i, j, b.(weight := Some(RestOf(weight))));
          stableFound := true;
        }
      }
      assert before[..|before|] == before;
      assert rules[i].backends == WeighBackends(cfg, weight, before);
    }

    /** The assignment to one element of the backend list of one rule. */
    method WriteBackend(i: nat, j: nat, b: BackendRef)
      requires i < |rules| && j < |rules[i].backends|
      modifies this`rules
      ensures rules == WithBackends(old(rules), i, old(rules)[i].backends[j := b])
    {
      rules := rules[i := rules[i].(backends := rules[i].backends[j := b])];
    }

    // ----- header routes

    method SetHeader(cfg: Config, name: string, wanted: Option<seq<HeaderRule>>)
      returns (changed: bool, error: Option<string>)
      modifies this
      ensures match ApplyHeader(cfg, name, wanted, old(State()))
              case Commit(after) => error == None && changed && State() == after
              case Unchanged => error == None && !changed && State() == old(State())
              case Fail(e) => error == Some(e) && !changed && State() == old(State())
    {
      if wanted.None? {
        changed := RemoveManagedRules(cfg);
        return changed, None;
      }
      var list := GetHeaderList(wanted.value);
      if list.None? {
        return false, Some(INVALID_HEADER_MATCH_TYPE);
      }
      var headers := list.value;

      var sources := CollectSources(cfg);
      if sources == [] {
        return false, Some(NotFound(cfg.kind));
      }

      SourcesMembers(rules, cfg);
      var managedRules := BuildBlock(cfg, sources, name, headers);
      var cleaned := Clean(ManagedAs(cfg, name, headers));
      rules := cleaned + managedRules;
      return true, None;
    }

    /** One rule for each source rule; the first keeps the bare name. */
    method BuildBlock(cfg: Config, sources: seq<Rule>, name: string, headers: seq<HeaderMatch>)
      returns (block: seq<Rule>)
      requires forall r :: r in sources ==> HasBackend(r.backends, cfg.canary)
      ensures block == Block(cfg, sources, name, headers)
    {
      block := [];
      for idx := 0 to |sources|
        invariant block == Block(cfg, sources[..idx], name, headers)
      {
        assert sources[..idx + 1][..idx] == sources[..idx];
        var ruleName := name;
        if idx > 0 {
          ruleName := name + "-" + Names.PrintNat(idx);
        }
        assert sources[idx] in sources;
        var clone := CloneRule(cfg, sources[idx], ruleName, headers);
        block := block + [clone];
      }
      assert sources[..|sources|] == sources;
    }

    /** Every rule with both backends; Search.dfy proves the code's search against this function. */
    method CollectSources(cfg: Config) returns (sources: seq<Rule>)
      ensures sources == Sources(rules, cfg)
    {
      var found := Search.GetAllRouteRules(rules, [cfg.canary, cfg.stable]);
      Search.AllWithBoth(rules, cfg);
      sources := if found.Some? then found.value else [];
    }

    /** The rules that the recogniser does not own, in a fresh list. */
    method Clean(rec: Recogniser) returns (kept: seq<Rule>)
      ensures kept == Strip(rules, rec)
    {
      kept := [];
      for i := 0 to |rules|
        invariant kept == Strip(rules[..i], rec)
      {
        StripNext(rules, i, rec);
        var managed := Recognise(rules[i], rec);
        if managed {
          continue;
        }
        kept := kept + [rules[i]];
      }
      assert rules[..|rules|] == rules;
    }

    method RemoveManagedRules(cfg: Config) returns (changed: bool)
      modifies this`rules
      ensures ApplyRemove(cfg, old(State())) == if changed then Commit(State()) else Unchanged
      ensures !changed ==> rules == old(rules)
    {
      var all, rec := rules, AnyManaged(cfg);
      var newRules := [];
      changed := false;
      for i := 0 to |all|
        invariant rules == old(rules) && labels == old(labels)
        invariant newRules == Strip(all[..i], rec)
        invariant changed <==> |newRules| != i
      {
        StripNext(all, i, rec);
        var managed := Recognise(all[i], rec);
        if managed {
          changed := true;
          continue;
        }
        newRules := newRules + [all[i]];
      }
      assert all[..|all|] == all;
      if !changed {
        return;
      }
      rules := newRules;
    }

    // ----- experiments

    method HandleExperiment(cfg: Config, exp: Experiment) returns (error: Option<string>)
      modifies this`rules
      ensures rules == HandleRules(cfg, exp, old(rules))
      ensures error.Some? <==> Selected(old(rules), cfg) == |old(rules)|
    {
      var ruleIdx := SelectRule(cfg);
      if ruleIdx == -1 {
        return Some(NO_MATCHING_RULE);
      }
      var recordedPresent := false;
      var backends := rules[ruleIdx].backends;
      for i := 0 to |backends|
        invariant !recordedPresent
        invariant forall k :: 0 <= k < i ==> backends[k].name !in exp.recorded
      {
        if backends[i].name in exp.recorded {
          recordedPresent := true;
          break;
        }
      }
      if exp.active {
        if |exp.destinations| == 0 {
          assert rules == WithBackends(rules, ruleIdx, backends);
          return None;
        }
        AddServices(cfg, exp, ruleIdx);
        return None;
      }
      if recordedPresent {
        RemoveServices(cfg, exp.recorded, ruleIdx);
      } else {
        assert rules == WithBackends(rules, ruleIdx, backends);
      }
      return None;
    }

    /** The index of the first rule with one of the two services, or -1. */
    method SelectRule(cfg: Config) returns (ruleIdx: int)
      ensures ruleIdx == if Selected(rules, cfg) == |rules| then -1 else Selected(rules, cfg)
    {
      ruleIdx := -1;
      for i := 0 to |rules|
        invariant ruleIdx == -1 ==> forall k :: 0 <= k < i ==> !Touches(rules[k], cfg)
        invariant ruleIdx != -1 ==> ruleIdx == Selected(rules, cfg) && ruleIdx < |rules|
      {
        if ruleIdx != -1 {
          break;
        }
        for j := 0 to |rules[i].backends|
          invariant ruleIdx == -1
          invariant forall k :: 0 <= k < j ==>
                      rules[i].backends[k].name != cfg.stable && rules[i].backends[k].name != cfg.canary
        {
          if rules[i].backends[j].name == cfg.stable || rules[i].backends[j].name == cfg.canary {
            ruleIdx := i;
            assert Touches(rules[i], cfg);
            break;
          }
        }
      }
    }

    method AddServices(cfg: Config, exp: Experiment, ruleIdx: nat)
      requires ruleIdx < |rules|
      modifies this`rules
      ensures rules == WithBackends(old(rules), ruleIdx, Activate(cfg, exp, old(rules)[ruleIdx].backends))
    {
      var total := TotalOf(exp.destinations);
      if total > 100 {
        total := 100;
      }
      var stableWeight := Wrap32(100 - total as int);
      WriteFirst(ruleIdx, cfg.stable, stableWeight);
      AddMissing(exp.destinations, exp.namespace, ruleIdx);
    }

    method TotalOf(ds: seq<Destination>) returns (total: Int32)
      ensures total == Total(ds)
    {
      total := 0;
      for i := 0 to |ds|
        invariant total == Total(ds[..i])
      {
        assert ds[..i + 1][..i] == ds[..i];
        total := Wrap32(total as int + ds[i].weight as int);
      }
      assert ds[..|ds|] == ds;
    }

    method AddMissing(ds: seq<Destination>, namespace: string, ruleIdx: nat)
      requires ruleIdx < |rules|
      modifies this`rules
      ensures rules == WithBackends(old(rules), ruleIdx, AddAll(old(rules)[ruleIdx].backends, ds, namespace))
    {
      ghost var before := rules[ruleIdx].backends;
      for i := 0 to |ds|
        invariant |rules| == |old(rules)|
        invariant rules == WithBackends(old(rules), ruleIdx, AddAll(before, ds[..i], namespace))
      {
        assert ds[..i + 1][..i] == ds[..i];
        var backends := rules[ruleIdx].backends;
        var present := false;
        for j := 0 to |backends|
          invariant !present && rules[ruleIdx].backends == backends
          invariant rules == WithBackends(old(rules), ruleIdx, backends)
          invariant forall k :: 0 <= k < j ==> backends[k].name != ds[i].service
        {
          if backends[j].name == ds[i].service {
            present := true;
            break;
          }
        }
        if !present {
          if ds[i].port.None? {
            continue;
          }
          rules := WithBackends(rules, ruleIdx, backends + [NewBackend(ds[i], namespace)]);
        }
      }
      assert ds[..|ds|] == ds;
    }

    /** Writes the weight of the first backend with this name, if there is one. */
    method WriteFirst(ruleIdx: nat, name: string, weight: Int32)
      requires ruleIdx < |rules|
      modifies this`rules
      ensures rules == WithBackends(old(rules), ruleIdx, SetFirst(old(rules)[ruleIdx].backends, name, weight))
    {
      ghost var before := rules[ruleIdx].backends;
      for i := 0 to |rules[ruleIdx].backends|
        invariant rules == old(rules)
        invariant !HasBackend(before[..i], name)
      {
        if rules[ruleIdx].backends[i].name == name {
          WriteBackend(ruleIdx, i, rules[ruleIdx].backends[i].(weight := Some(weight)));
          SetFirstFound(before, name, weight, i);
          return;
        }
        HasBackendNext(before, i, name);
      }
      assert before[..|before|] == before;
      SetFirstAbsent(before, name, weight);
    }

    method RemoveServices(cfg: Config, recorded: set<string>, ruleIdx: nat)
      requires ruleIdx < |rules|
      modifies this`rules
      ensures rules == WithBackends(old(rules), ruleIdx, CleanUp(cfg, recorded, old(rules)[ruleIdx].backends))
    {
      var filtered := Remaining(cfg, recorded, rules[ruleIdx].backends);
      rules := WithBackends(rules, ruleIdx, filtered);
    }

    method Remaining(cfg: Config, recorded: set<string>, backends: seq<BackendRef>)
      returns (filtered: seq<BackendRef>)
      ensures filtered == CleanUp(cfg, recorded, backends)
    {
      filtered := [];
      for i := 0 to |backends|
        invariant filtered == CleanUp(cfg, recorded, backends[..i])
      {
        CleanUpNext(cfg, recorded, backends, i);
        var b := backends[i];
        if b.name in recorded {
          continue;
        }
        if b.name == cfg.stable {
          b := b.(weight := Some(100));
        } else if b.name == cfg.canary {
          b := b.(weight := Some(0));
        }
        filtered := filtered + [b];
      }
      assert backends[..|backends|] == backends;
    }

    // ----- the label

    method EnsureInProgressLabel(c: LabelConfig, weight: Int32) returns (changed: bool)
      modifies this`labels
      ensures labels == Marked(c, weight, old(labels))
      ensures changed <==> labels != old(labels)
    {
      if c.disabled {
        return false;
      }
      var key := c.Key();
      if weight == 0 {
        if labels.None? {
          return false;
        }
        if key in labels.value {
          labels := Some(labels.value - {key});
          return true;
        }
        assert labels.value - {key} == labels.value;
        return false;
      }
      var value := c.Value();
      var current := if labels.None? then map[] else labels.value;
      if key in current && current[key] == value {
        assert current[key := value] == current;
        return false;
      }
      labels := Some(current[key := value]);
      return true;
    }
  }

  function WithBackends(rules: seq<Rule>, i: nat, backends: seq<BackendRef>): (r: seq<Rule>)
    requires i < |rules|
    ensures |r| == |rules|
  {
    rules[i := rules[i].(backends := backends)]
  }

  lemma {:induction false} FoundNext(cfg: Config, rules: seq<Rule>, i: nat, name: string)
    requires i < |rules|
    ensures Found(cfg, rules[..i + 1], name) <==>
            Found(cfg, rules[..i], name) || (!AnyManaged(cfg).Owns(rules[i]) && HasBackend(rules[i].backends, name))
  {
    if k :| 0 <= k < i && !AnyManaged(cfg).Owns(rules[k]) && HasBackend(rules[k].backends, name) {
      assert rules[..i + 1][k] == rules[k] == rules[..i][k];
    }
    assert rules[..i + 1][i] == rules[i];
  }

  lemma {:induction false} HasBackendNext(backends: seq<BackendRef>, i: nat, name: string)
    requires i < |backends|
    ensures HasBackend(backends[..i + 1], name) <==> HasBackend(backends[..i], name) || backends[i].name == name
  {
    if k :| 0 <= k < i && backends[k].name == name {
      assert backends[..i + 1][k] == backends[k] == backends[..i][k];
    }
    assert backends[..i + 1][i] == backends[i];
  }

}
