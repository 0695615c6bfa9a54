/** TCP and TLS routes: weights are written in two passes, through references that were collected first.

    Here backends are objects and weights are pointers, as in the Go code: the same cell ends up in many
    backends, and no cell is ever written. */
module TcpRoutes {
  import opened Gateway
  import opened Labels
  import opened Rules
  import opened Operations
  import opened Search

  /** What an `*int32` points to. */
  class Cell {
    var value: Int32

    constructor (value: Int32)
      ensures this.value == value
    {
      this.value := value;
    }
  }

  class Backend {
    const fields: BackendRef
    var weight: Cell?

    constructor (b: BackendRef)
      ensures View() == b && fields == b
      ensures weight != null ==> fresh(weight)
    {
      fields := b;
      weight := null;
      new;
      if b.weight.Some? {
        weight := new Cell(b.weight.value);
      }
    }

    function Name(): string {
      fields.name
    }

    /** The backend as a value. */
    function View(): BackendRef
      reads this, weight
    {
      fields.(weight := if weight == null then None else Some(weight.value))
    }
  }

  // ----- collecting references

  function Flat(rules: seq<seq<Backend>>): seq<Backend> {
    if rules == [] then [] else Flat(rules[..|rules| - 1]) + rules[|rules| - 1]
  }

  function Named(refs: seq<Backend>, name: string): seq<Backend> {
    if refs == [] then []
    else
      var last := refs[|refs| - 1];
      Named(refs[..|refs| - 1], name) + if last.Name() == name then [last] else []
  }

  lemma {:induction false} NamedConcat(a: seq<Backend>, b: seq<Backend>, name: string)
    ensures Named(a + b, name) == Named(a, name) + Named(b, name)
  {
    if b == [] {
      assert a + b == a;
    } else {
      assert (a + b)[..|a + b| - 1] == a + b[..|b| - 1];
      NamedConcat(a, b[..|b| - 1], name);
    }
  }

  lemma {:induction false} NamedMembers(refs: seq<Backend>, name: string)
    ensures forall k :: 0 <= k < |Named(refs, name)| ==>
              Named(refs, name)[k] in refs && Named(refs, name)[k].Name() == name
    ensures forall k :: 0 <= k < |refs| && refs[k].Name() == name ==> refs[k] in Named(refs, name)
  {
    if refs != [] {
      NamedMembers(refs[..|refs| - 1], name);
      assert refs == refs[..|refs| - 1] + [refs[|refs| - 1]];
    }
  }

  /** The references are put one behind the other in document order: that at `(i, j)` has its place behind those of
      the rules before `i`. */
  lemma {:induction false} FlatAt(rules: seq<seq<Backend>>, i: nat, j: nat)
    requires i < |rules| && j < |rules[i]|
    ensures |Flat(rules[..0])| == 0 && |Flat(rules[..i + 1])| == |Flat(rules[..i])| + |rules[i]|
    ensures |Flat(rules[..i])| + j < |Flat(rules)| && Flat(rules)[|Flat(rules[..i])| + j] == rules[i][j]
  {
    var n := |rules| - 1;
    if i < n {
      FlatAt(rules[..n], i, j);
      assert rules[..n][..i] == rules[..i] && rules[..n][..i + 1] == rules[..i + 1] && rules[..n][..0] == rules[..0];
    } else {
      assert rules[..n + 1] == rules;
    }
  }

  /** Of these, the ones with the name are collected, each once and in order. */
  lemma {:induction false} NamedPicks(refs: seq<Backend>, name: string) returns (at: seq<nat>)
    ensures Picks(refs, Named(refs, name), at)
    ensures forall i :: 0 <= i < |refs| ==> (i in at <==> refs[i].fields.name == name)
  {
    at := [];
    if refs != [] {
      var n := |refs| - 1;
      at := NamedPicks(refs[..n], name);
      PickNext(refs, Named(refs[..n], name), at);
      at := at + if refs[n].Name() == name then [n] else [];
    }
  }

  ghost predicate Within(rules: seq<seq<Backend>>, b: Backend) {
    exists i, j :: 0 <= i < |rules| && 0 <= j < |rules[i]| && rules[i][j] == b
  }

  lemma {:induction false} FlatMembers(rules: seq<seq<Backend>>)
    ensures forall k :: 0 <= k < |Flat(rules)| ==> Within(rules, Flat(rules)[k])
    ensures forall i, j :: 0 <= i < |rules| && 0 <= j < |rules[i]| ==> rules[i][j] in Flat(rules)
  {
    if rules != [] {
      var n := |rules| - 1;
      FlatMembers(rules[..n]);
      forall k | 0 <= k < |Flat(rules)|
        ensures Within(rules, Flat(rules)[k])
      {
        if k < |Flat(rules[..n])| {
          assert Within(rules[..n], Flat(rules[..n])[k]);
          var i, j :| 0 <= i < n && 0 <= j < |rules[..n][i]| && rules[..n][i][j] == Flat(rules)[k];
          assert rules[i][j] == Flat(rules)[k];
        } else {
          assert rules[n][k - |Flat(rules[..n])|] == Flat(rules)[k];
        }
      }
      forall i, j | 0 <= i < |rules| && 0 <= j < |rules[i]|
        ensures rules[i][j] in Flat(rules)
      {
        assert i < n ==> rules[..n][i][j] in Flat(rules[..n]);
      }
    }
  }

  /** Collecting by name finds exactly the backends of the route with that name. */
  lemma {:induction false} CollectedExactly(rules: seq<seq<Backend>>, name: string)
    ensures forall k :: 0 <= k < |Named(Flat(rules), name)| ==>
              Within(rules, Named(Flat(rules), name)[k]) && Named(Flat(rules), name)[k].Name() == name
    ensures forall i, j :: 0 <= i < |rules| && 0 <= j < |rules[i]| && rules[i][j].Name() == name ==>
              rules[i][j] in Named(Flat(rules), name)
  {
    NamedMembers(Flat(rules), name);
    FlatMembers(rules);
  }

  lemma {:induction false} NamedNext(refs: seq<Backend>, i: nat, name: string)
    requires i < |refs|
    ensures Named(refs[..i + 1], name) == Named(refs[..i], name) + if refs[i].Name() == name then [refs[i]] else []
  {
    assert refs[..i + 1][..i] == refs[..i];
  }

  /** The inner loop: the references of one rule. */
  method CollectFrom(name: string, rule: seq<Backend>, matched: seq<Backend>) returns (more: seq<Backend>)
    ensures more == matched + Named(rule, name)
  {
    more := matched;
    var next := new ListIterator<Backend>(rule);
    var hasNext := next.HasNext();
    while hasNext
      invariant fresh(next) && next.Valid() && next.list == rule && (hasNext <==> next.HasNext())
      invariant more == matched + Named(rule[..next.index], name)
      decreases |rule| - next.index
    {
      NamedNext(rule, next.index, name);
      var ref;
      ref, hasNext := next.Next();
      if name == ref.value.Name() {
        more := more + [ref.value];
      }
    }
    assert rule[..|rule|] == rule;
  }

  /** Every reference with the name, in document order, each exactly once; an error if there is none. */
  method GetBackendRefs(name: string, rules: seq<seq<Backend>>) returns (refs: Option<seq<Backend>>)
    ensures refs == if Named(Flat(rules), name) == [] then None else Some(Named(Flat(rules), name))
  {
    var matched: seq<Backend> := [];
    var next := new ListIterator<seq<Backend>>(rules);
    var hasNext := next.HasNext();
    while hasNext
      invariant fresh(next) && next.Valid() && next.list == rules && (hasNext <==> next.HasNext())
      invariant matched == Named(Flat(rules[..next.index]), name)
      decreases |rules| - next.index
    {
      ghost var at := next.index;
      assert rules[..at + 1][..at] == rules[..at];
      NamedConcat(Flat(rules[..at]), rules[at], name);
      var rule;
      rule, hasNext := next.Next();
      matched := CollectFrom(name, rule.value, matched);
    }
    assert rules[..|rules|] == rules;
    if |matched| > 0 {
      return Some(matched);
    }
    return None;
  }

  // ----- the two passes

  /** The two passes do what the single pass over HTTP and gRPC rules does, for every backend, exactly when
      the two services differ or the weight equals the rest. */
  lemma {:induction false} TwoPassIsOnePass(cfg: Config, weight: Int32)
    ensures (forall b :: TwoPass(cfg.canary, cfg.stable, weight, b) == WeighBackend(cfg, weight, b))
       <==> cfg.canary != cfg.stable || weight == RestOf(weight)
  {
    var b := BackendRef(None, None, cfg.canary, None, None, None, []);
    assert TwoPass(cfg.canary, cfg.stable, weight, b) == WeighBackend(cfg, weight, b) <==>
      cfg.canary != cfg.stable || weight == RestOf(weight);
  }

  /** Every reference gets the same pointer. */
  method WriteThrough(refs: seq<Backend>, cell: Cell)
    modifies refs
    ensures forall k :: 0 <= k < |refs| ==> refs[k].weight == cell
  {
    for i := 0 to |refs|
      invariant forall k :: 0 <= k < i ==> refs[k].weight == cell
    {
      refs[i].weight := cell;
    }
  }

  /** One pass: collects the references with the name and writes through them. */
  method Pass(rules: seq<seq<Backend>>, name: string, cell: Cell) returns (found: bool)
    modifies set i, j | 0 <= i < |rules| && 0 <= j < |rules[i]| :: rules[i][j]
    ensures found <==> Named(Flat(rules), name) != []
    ensures !found ==> forall i, j :: 0 <= i < |rules| && 0 <= j < |rules[i]| ==> rules[i][j].Name() != name
    ensures forall i, j :: 0 <= i < |rules| && 0 <= j < |rules[i]| ==>
              rules[i][j].weight == if rules[i][j].Name() == name then cell else old(rules[i][j].weight)
  {
    CollectedExactly(rules, name);
    var refs := GetBackendRefs(name, rules);
    if refs.None? {
      return false;
    }
    WriteThrough(refs.value, cell);
    return true;
  }

  /** On success every backend of the route carries the weight of the two passes and is otherwise untouched;
      on failure at most the canary references of the copy, which is discarded, have been written. */
  method SetWeight(rules: seq<seq<Backend>>, canary: string, stable: string, weight: Int32, error: string)
    returns (failed: Option<string>)
    modifies set i, j | 0 <= i < |rules| && 0 <= j < |rules[i]| :: rules[i][j]
    ensures failed == if Named(Flat(rules), canary) == [] || Named(Flat(rules), stable) == []
                      then Some(error) else None
    ensures failed.None? ==>
              forall i, j :: 0 <= i < |rules| && 0 <= j < |rules[i]| ==>
                rules[i][j].View() == TwoPass(canary, stable, weight, old(rules[i][j].View()))
    ensures failed.Some? ==>
              forall i, j :: 0 <= i < |rules| && 0 <= j < |rules[i]| && rules[i][j].Name() != canary ==>
                rules[i][j].View() == old(rules[i][j].View())
  {
    hide Flat, Named;
    var desired := new Cell(weight);
    var rest := new Cell(RestOf(weight));
    var found := Pass(rules, canary, desired);
    if !found {
      return Some(error);
    }
    found := Pass(rules, stable, rest);
    if !found {
      return Some(error);
    }
    return None;
  }

  // ----- the same on values

  /** `objects` are the backends of `rules`. */
  ghost predicate Represents(objects: seq<seq<Backend>>, rules: seq<Rule>)
    reads set i, j | 0 <= i < |objects| && 0 <= j < |objects[i]| :: objects[i][j]
    reads set i, j | 0 <= i < |objects| && 0 <= j < |objects[i]| :: objects[i][j].weight
  {
    |objects| == |rules|
    && forall i :: 0 <= i < |objects| ==>
         |objects[i]| == |rules[i].backends|
         && forall j :: 0 <= j < |objects[i]| ==> objects[i][j].View() == rules[i].backends[j]
  }

  method LoadRule(rule: Rule) returns (objects: seq<Backend>)
    ensures |objects| == |rule.backends|
    ensures forall j :: 0 <= j < |objects| ==>
              fresh(objects[j]) && objects[j].View() == rule.backends[j]
              && (objects[j].weight != null ==> fresh(objects[j].weight))
  {
    objects := [];
    for i := 0 to |rule.backends|
      invariant |objects| == i
      invariant forall j :: 0 <= j < i ==>
                  fresh(objects[j]) && objects[j].View() == rule.backends[j]
                  && (objects[j].weight != null ==> fresh(objects[j].weight))
    {
      var b := new Backend(rule.backends[i]);
      objects := objects + [b];
    }
  }

  /** The decoded route: one object for each backend. */
  method Load(rules: seq<Rule>) returns (objects: seq<seq<Backend>>)
    ensures Represents(objects, rules)
    ensures forall i, j :: 0 <= i < |objects| && 0 <= j < |objects[i]| ==> fresh(objects[i][j])
  {
    objects := [];
    for i := 0 to |rules|
      invariant |objects| == i
      invariant forall k :: 0 <= k < i ==>
                  |objects[k]| == |rules[k].backends|
                  && forall j :: 0 <= j < |objects[k]| ==>
                       fresh(objects[k][j]) && objects[k][j].View() == rules[k].backends[j]
                       && (objects[k][j].weight != null ==> fresh(objects[k][j].weight))
    {
      var o := LoadRule(rules[i]);
      objects := objects + [o];
    }
  }

  lemma {:induction false} NamedIffSome(objects: seq<seq<Backend>>, rules: seq<Rule>, name: string)
    requires Represents(objects, rules)
    ensures Named(Flat(objects), name) != [] <==> SomeBackend(rules, name)
  {
    CollectedExactly(objects, name);
    if Named(Flat(objects), name) != [] {
      var b := Named(Flat(objects), name)[0];
      var i, j :| 0 <= i < |objects| && 0 <= j < |objects[i]| && objects[i][j] == b;
      assert objects[i][j].View().name == name && rules[i].backends[j].name == name;
      assert HasBackend(rules[i].backends, name);
    }
    if SomeBackend(rules, name) {
      var i :| 0 <= i < |rules| && HasBackend(rules[i].backends, name);
      var j :| 0 <= j < |rules[i].backends| && rules[i].backends[j].name == name;
      assert objects[i][j].View().name == name;
      assert objects[i][j].Name() == name;
    }
  }

  /** The backends of a rule as the objects now are. */
  method ReadRule(objects: seq<Backend>) returns (backends: seq<BackendRef>)
    ensures |backends| == |objects|
    ensures forall j :: 0 <= j < |objects| ==> backends[j] == objects[j].View()
  {
    backends := [];
    for j := 0 to |objects|
      invariant |backends| == j
      invariant forall k :: 0 <= k < j ==> backends[k] == objects[k].View()
    {
      backends := backends + [objects[j].View()];
    }
  }

  /** The rules with the backends as the objects now are, after both passes. */
  method ReadBack(cfg: Config, weight: Int32, objects: seq<seq<Backend>>, rules: seq<Rule>)
    returns (after: seq<Rule>)
    requires |objects| == |rules|
    requires forall i :: 0 <= i < |rules| ==> |objects[i]| == |rules[i].backends|
    requires forall i, j :: 0 <= i < |objects| && 0 <= j < |objects[i]| ==>
               objects[i][j].View() == TwoPass(cfg.canary, cfg.stable, weight, rules[i].backends[j])
    ensures after == TwoPassRules(cfg, weight, rules)
  {
    after := [];
    for i := 0 to |rules|
      invariant |after| == i
      invariant forall k :: 0 <= k < i ==> after[k] == TwoPassRule(cfg, weight, rules[k])
    {
      var backends := ReadRule(objects[i]);
      assert backends == TwoPassRule(cfg, weight, rules[i]).backends;
      after := after + [rules[i].(backends := backends)];
    }
  }

  /** The whole call on the decoded copy of a TCP or TLS route. */
  method SetRouteWeight(cfg: Config, weight: Int32, route: RouteState) returns (outcome: Outcome)
    ensures outcome == ApplyTcp(cfg, weight, route)
  {
    var objects := Load(route.rules);
    NamedIffSome(objects, route.rules, cfg.canary);
    NamedIffSome(objects, route.rules, cfg.stable);
    var failed := SetWeight(objects, cfg.canary, cfg.stable, weight, NotFound(cfg.kind));
    if failed.Some? {
      return Fail(failed.value);
    }
    var rules := ReadBack(cfg, weight, objects, route.rules);
    return Commit(RouteState(rules, Marked(cfg.marker, weight, route.labels)));
  }
}
