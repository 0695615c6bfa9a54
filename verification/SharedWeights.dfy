/** HTTP routes with the weights as the pointers they are. Setting a weight stores one pointer to the weight and one
    to the rest in many backends. The experiment handler stores pointers of its own in the rule it selects; no cell
    is ever written, so no other rule sees it. The recognition and the choice of the rule are those of Routes.dfy. */
module SharedWeights {
  import opened Gateway
  import opened Rules
  import opened Experiments
  import opened Operations
  import opened Routes
  import opened TcpRoutes

  /** An element of a slice of backends; its weight is the cell, not the one in `fields`. */
  datatype Ref = Ref(fields: BackendRef, weight: Cell?)
  {
    function View(): (b: BackendRef)
      reads weight
      ensures b.name == fields.name
    {
      fields.(weight := if weight == null then None else Some(weight.value))
    }
  }

  /** A rule in memory; its backends are the references, not those in `rest`. */
  datatype Decoded = Decoded(rest: Rule, refs: seq<Ref>)
  {
    function View(): Rule
      reads Cells(refs)
    {
      rest.(backends := Views(refs))
    }
  }

  function Cells(refs: seq<Ref>): set<Cell?> {
    set r | r in refs :: r.weight
  }

  function Views(refs: seq<Ref>): (backends: seq<BackendRef>)
    reads Cells(refs)
    ensures |backends| == |refs|
    ensures forall j :: 0 <= j < |refs| ==> backends[j] == refs[j].View()
  {
    seq(|refs|, j requires 0 <= j < |refs| reads Cells(refs) => assert refs[j] in refs; refs[j].View())
  }

  function AllCells(rules: seq<Decoded>): set<Cell?> {
    set d, r | d in rules && r in d.refs :: r.weight
  }

  function RuleViews(rules: seq<Decoded>): (views: seq<Rule>)
    reads AllCells(rules)
    ensures |views| == |rules|
    ensures forall i :: 0 <= i < |rules| ==> views[i] == rules[i].View()
  {
    seq(|rules|, i requires 0 <= i < |rules| reads AllCells(rules) => assert rules[i] in rules; rules[i].View())
  }

  // ----- the backends of one rule

  /** The pointers that setting a weight stores. */
  function Pointed(cfg: Config, r: Ref, desired: Cell, rest: Cell): Ref {
    if r.fields.name == cfg.canary then r.(weight := desired)
    else if r.fields.name == cfg.stable then r.(weight := rest)
    else r
  }

  method WeighRefs(cfg: Config, refs: seq<Ref>, desired: Cell, rest: Cell)
    returns (out: seq<Ref>, canaryFound: bool, stableFound: bool)
    requires rest.value == RestOf(desired.value)
    ensures |out| == |refs| && forall j :: 0 <= j < |refs| ==> out[j] == Pointed(cfg, refs[j], desired, rest)
    ensures Views(out) == WeighBackends(cfg, desired.value, Views(refs))
    ensures canaryFound <==> HasBackend(Views(refs), cfg.canary)
    ensures stableFound <==> HasBackend(Views(refs), cfg.stable) && cfg.canary != cfg.stable
  {
    out, canaryFound, stableFound := refs, false, false;
    for j := 0 to |refs|
      invariant |out| == |refs|
      invariant forall k :: 0 <= k < j ==> out[k] == Pointed(cfg, refs[k], desired, rest)
      invariant forall k :: j <= k < |refs| ==> out[k] == refs[k]
      invariant canaryFound <==> HasBackend(Views(refs)[..j], cfg.canary)
      invariant stableFound <==> HasBackend(Views(refs)[..j], cfg.stable) && cfg.canary != cfg.stable
    {
      HasBackendNext(Views(refs), j, cfg.canary);
      HasBackendNext(Views(refs), j, cfg.stable);
      if out[j].fields.name == cfg.canary {
        out := out[j := out[j].(weight := desired)];
        canaryFound := true;
      } else if out[j].fields.name == cfg.stable {
        out := out[j := out[j].(weight := rest)];
        stableFound := true;
      }
    }
    assert Views(refs)[..|refs|] == Views(refs);
  }

  method ShareRefs(cfg: Config, refs: seq<Ref>, share: Cell) returns (out: seq<Ref>)
    ensures Views(out) == SetFirst(Views(refs), cfg.stable, share.value)
  {
    ghost var own := Views(refs);
    for i := 0 to |refs|
      invariant Views(refs) == own && !HasBackend(own[..i], cfg.stable)
    {
      if refs[i].fields.name == cfg.stable {
        out := refs[i := refs[i].(weight := share)];
        SetFirstFound(own, cfg.stable, share.value, i);
        assert Views(out) == own[i := own[i].(weight := Some(share.value))];
        return;
      }
      HasBackendNext(own, i, cfg.stable);
    }
    assert own[..|refs|] == own;
    SetFirstAbsent(own, cfg.stable, share.value);
    out := refs;
  }

  method HasRef(refs: seq<Ref>, name: string) returns (present: bool)
    ensures present <==> HasBackend(Views(refs), name)
  {
    for j := 0 to |refs|
      invariant forall k :: 0 <= k < j ==> refs[k].fields.name != name
    {
      if refs[j].fields.name == name {
        assert Views(refs)[j].name == name;
        return true;
      }
    }
    return false;
  }

  /** Every appended backend has a cell of its own. */
  method AddRefs(refs: seq<Ref>, ds: seq<Destination>, namespace: string) returns (out: seq<Ref>)
    ensures Views(out) == AddAll(Views(refs), ds, namespace)
  {
    ghost var own := Views(refs);
    out := refs;
    for i := 0 to |ds|
      invariant Views(refs) == own
      invariant Views(out) == AddAll(own, ds[..i], namespace)
    {
      assert ds[..i + 1][..i] == ds[..i];
      var present := HasRef(out, ds[i].service);
      if present || ds[i].port.None? {
        continue;
      }
      var weight := new Cell(ds[i].weight);
      ghost var before := Views(out);
      var added := Ref(NewBackend(ds[i], namespace), weight);
      out := out + [added];
      assert Views(out) == before + [NewBackend(ds[i], namespace)];
    }
    assert ds[..|ds|] == ds;
  }

  /** All stable backends share one cell; every canary backend gets its own. */
  method CleanRefs(cfg: Config, recorded: set<string>, refs: seq<Ref>) returns (out: seq<Ref>)
    ensures Views(out) == CleanUp(cfg, recorded, Views(refs))
  {
    ghost var own := Views(refs);
    var stableWeight := new Cell(100);
    out := [];
    for i := 0 to |refs|
      invariant stableWeight.value == 100 && Views(refs) == own
      invariant Views(out) == CleanUp(cfg, recorded, own[..i])
    {
      CleanUpNext(cfg, recorded, own, i);
      ghost var before := Views(out);
      var r := refs[i];
      if r.fields.name in recorded {
        continue;
      }
      if r.fields.name == cfg.stable {
        r := r.(weight := stableWeight);
      } else if r.fields.name == cfg.canary {
        var zeroWeight := new Cell(0);
        r := r.(weight := zeroWeight);
      }
      out := out + [r];
      assert Views(out) == before + [r.View()];
    }
    assert Views(refs)[..|refs|] == Views(refs);
  }

  method HandleRefs(cfg: Config, exp: Experiment, refs: seq<Ref>) returns (out: seq<Ref>)
    ensures Views(out) == Handle(cfg, exp, Views(refs))
  {
    if exp.active {
      if |exp.destinations| == 0 {
        return refs;
      }
      ghost var own := Views(refs);
      var share := new Cell(StableShare(exp.destinations));
      assert Views(refs) == own;
      var shared := ShareRefs(cfg, refs, share);
      assert Views(refs) == own;
      ghost var sharing := Views(shared);
      out := AddRefs(shared, exp.destinations, exp.namespace);
      assert Views(shared) == sharing && Views(refs) == own;
      assert sharing == SetFirst(own, cfg.stable, StableShare(exp.destinations));
      return;
    }
    if i :| 0 <= i < |refs| && refs[i].fields.name in exp.recorded {
      assert Views(refs)[i].name in exp.recorded;
      out := CleanRefs(cfg, exp.recorded, refs);
    } else {
      out := refs;
    }
  }

  // ----- the route

  class SharedRoute {
    var rules: seq<Decoded>

    /** Writes no cell: its frame is the rule list alone. The rules see what the specification on values says. */
    method SetWeight(cfg: Config, weight: Int32, exp: Experiment) returns (found: bool)
      requires cfg.kind == Http
      modifies this
      ensures found <==> Weighable(cfg, old(RuleViews(rules)))
      ensures found ==> RuleViews(rules) == AfterWeight(cfg, weight, exp, old(RuleViews(rules)))
    {
      hide AnyManaged, Found;
      ghost var was := RuleViews(rules);
      var desired := new Cell(weight);
      var rest := new Cell(RestOf(weight));
      var canaryFound, stableFound := false, false;
      FoundNowhere(cfg, was);
      for i := 0 to |rules|
        invariant desired.value == weight && rest.value == RestOf(weight)
        invariant |rules| == |was|
        invariant forall k :: 0 <= k < |rules| ==>
                    rules[k].View() == if k < i then WeighRule(cfg, weight, was[k]) else was[k]
        invariant canaryFound <==> Found(cfg, was[..i], cfg.canary)
        invariant stableFound <==> Found(cfg, was[..i], cfg.stable) && cfg.canary != cfg.stable
      {
        FoundNext(cfg, was, i, cfg.canary);
        FoundNext(cfg, was, i, cfg.stable);
        var c, s := WeighOne(cfg, i, desired, rest);
        canaryFound, stableFound := canaryFound || c, stableFound || s;
      }
      assert was[..|was|] == was;
      assert RuleViews(rules) == Weigh(cfg, weight, was);
      if !canaryFound || !stableFound {
        return false;
      }
      var selected := HandleExperiment(cfg, exp);
      return true;
    }

    /** The turn of one rule. */
    method WeighOne(cfg: Config, i: nat, desired: Cell, rest: Cell) returns (canaryFound: bool, stableFound: bool)
      requires i < |rules| && rest.value == RestOf(desired.value)
      modifies this
      ensures |rules| == |old(rules)|
      ensures forall k :: 0 <= k < |rules| ==>
                rules[k].View() == if k == i then WeighRule(cfg, desired.value, old(rules[k].View()))
                                   else old(rules[k].View())
      ensures canaryFound <==>
              !AnyManaged(cfg).Owns(old(rules[i].View())) && HasBackend(old(rules[i].View()).backends, cfg.canary)
      ensures stableFound <==>
              !AnyManaged(cfg).Owns(old(rules[i].View())) && HasBackend(old(rules[i].View()).backends, cfg.stable)
              && cfg.canary != cfg.stable
    {
      var managed := Recognise(rules[i].View(), AnyManaged(cfg));
      if managed {
        return false, false;
      }
      var refs;
      refs, canaryFound, stableFound := WeighRefs(cfg, rules[i].refs, desired, rest);
      rules := rules[i := rules[i].(refs := refs)];
    }

    /** Only the references of the selected rule change; all other rules keep their very pointers. */
    method HandleExperiment(cfg: Config, exp: Experiment) returns (selected: nat)
      modifies this
      ensures selected == Selected(old(RuleViews(rules)), cfg)
      ensures |rules| == |old(rules)| && forall k :: 0 <= k < |rules| && k != selected ==> rules[k] == old(rules)[k]
      ensures RuleViews(rules) == HandleRules(cfg, exp, old(RuleViews(rules)))
    {
      ghost var was := RuleViews(rules);
      selected := Selected(RuleViews(rules), cfg);
      if selected < |rules| {
        var refs := HandleRefs(cfg, exp, rules[selected].refs);
        assert Views(rules[selected].refs) == was[selected].backends;
        rules := rules[selected := rules[selected].(refs := refs)];
        assert Views(refs) == Handle(cfg, exp, was[selected].backends);
        forall k | 0 <= k < |rules| && k != selected
          ensures rules[k].View() == was[k]
        {
          assert Views(rules[k].refs) == was[k].backends;
        }
        assert RuleViews(rules) == HandleRules(cfg, exp, was);
      }
    }
  }

  lemma {:induction false} FoundNowhere(cfg: Config, rules: seq<Rule>)
    ensures !Found(cfg, rules[..0], cfg.canary) && !Found(cfg, rules[..0], cfg.stable)
  {
  }
}
