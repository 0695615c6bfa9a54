/** The generic search over rules and backends, written with the plugin's stateful iterators. */
module Search {
  import opened Gateway
  import opened Rules

  /** An iterator closure: its captured index is the field, and every call also reports whether another
      element follows. */
  class ListIterator<T> {
    const list: seq<T>
    var index: nat

    constructor (list: seq<T>)
      ensures this.list == list && index == 0
    {
      this.list := list;
      index := 0;
    }

    predicate Valid()
      reads this
    {
      index <= |list|
    }

    /** Whether an element follows; this is the second result of Go's `Iterator`. */
    function HasNext(): bool
      reads this
    {
      index < |list|
    }

    method Next() returns (item: Option<T>, hasNext: bool)
      requires Valid()
      modifies this
      ensures Valid()
      ensures old(index) == |list| ==> item == None && !hasNext && index == old(index)
      ensures old(index) < |list| ==> item == Some(list[old(index)]) && index == old(index) + 1
      ensures hasNext <==> HasNext()
    {
      if index == |list| {
        return None, false;
      }
      item := Some(list[index]);
      index := index + 1;
      hasNext := index < |list|;
    }
  }

  /** Whether a rule names every backend of the list. */
  predicate NamesAll(rule: Rule, names: seq<string>) {
    forall i :: 0 <= i < |names| ==> HasBackend(rule.backends, names[i])
  }

  /** What `getAllRouteRules` keeps. */
  predicate Accepts(rule: Rule, names: seq<string>) {
    rule.backends != [] && NamesAll(rule, names)
  }

  function Accepted(rules: seq<Rule>, names: seq<string>): (accepted: seq<Rule>)
    ensures |accepted| <= |rules|
  {
    if rules == [] then []
    else
      var last := rules[|rules| - 1];
      Accepted(rules[..|rules| - 1], names) + if Accepts(last, names) then [last] else []
  }

  /** Visits every backend of a rule, without stopping at the first hit, as the code does. */
  method RuleHasBackend(rule: Rule, name: string) returns (found: bool)
    ensures found <==> HasBackend(rule.backends, name)
  {
    found := false;
    var refs := new ListIterator(rule.backends);
    var hasRef := refs.HasNext();
    while hasRef
      invariant refs.Valid() && refs.list == rule.backends && (hasRef <==> refs.HasNext())
      invariant found <==> exists k :: 0 <= k < refs.index && rule.backends[k].name == name
      decreases |rule.backends| - refs.index
    {
      var ref;
      ref, hasRef := refs.Next();
      if name == ref.value.name {
        found := true;
      }
    }
  }

  method GetAllRouteRules(rules: seq<Rule>, names: seq<string>) returns (result: Option<seq<Rule>>)
    ensures result == if Accepted(rules, names) == [] then None else Some(Accepted(rules, names))
  {
    var found := [];
    var next := new ListIterator(rules);
    var hasNext := next.HasNext();
    while hasNext
      invariant fresh(next) && next.Valid() && next.list == rules && (hasNext <==> next.HasNext())
      invariant found == Accepted(rules[..next.index], names)
      decreases |rules| - next.index
    {
      ghost var at := next.index;
      AcceptedNext(rules, at, names);
      var rule;
      rule, hasNext := next.Next();
      if rule.value.backends == [] {
        continue;
      }
      var allFound := true;
      for i := 0 to |names|
        invariant next.index == at + 1 && allFound
        invariant forall k :: 0 <= k < i ==> HasBackend(rule.value.backends, names[k])
      {
        var has := RuleHasBackend(rule.value, names[i]);
        if !has {
          allFound := false;
          break;
        }
      }
      if allFound {
        found := found + [rule.value];
      }
    }
    assert rules[..|rules|] == rules;
    if |found| == 0 {
      return None;
    }
    return Some(found);
  }

  /** The loop over the names in the older search; without names the flag keeps its value. */
  method RuleHasAll(rule: Rule, names: seq<string>, flag: bool) returns (isFound: bool)
    ensures isFound == if names == [] then flag else NamesAll(rule, names)
  {
    isFound := flag;
    for i := 0 to |names|
      invariant isFound == if i == 0 then flag else true
      invariant forall k :: 0 <= k < i ==> HasBackend(rule.backends, names[k])
    {
      isFound := RuleHasBackend(rule, names[i]);
      if !isFound {
        break;
      }
    }
  }

  lemma {:induction false} AcceptedNext(rules: seq<Rule>, i: nat, names: seq<string>)
    requires i < |rules|
    ensures Accepted(rules[..i + 1], names)
         == Accepted(rules[..i], names) + if Accepts(rules[i], names) then [rules[i]] else []
  {
    assert rules[..i + 1][..i] == rules[..i];
  }

  /** The rule has backends, and one for every name of the list. */
  ghost predicate Wanted(rule: Rule, names: seq<string>) {
    rule.backends != [] && forall name :: name in names ==> HasBackend(rule.backends, name)
  }

  lemma {:induction false} AcceptsMeans(rule: Rule, names: seq<string>)
    ensures Accepts(rule, names) <==> Wanted(rule, names)
  {
  }

  /** What is accepted: each such rule, once and in order. */
  lemma {:induction false} AcceptedPicks(rules: seq<Rule>, names: seq<string>) returns (at: seq<nat>)
    ensures Picks(rules, Accepted(rules, names), at)
    ensures forall i :: 0 <= i < |rules| ==> (i in at <==> Wanted(rules[i], names))
  {
    hide Accepts, Wanted;
    at := [];
    if rules != [] {
      var n := |rules| - 1;
      at := AcceptedPicks(rules[..n], names);
      PickNext(rules, Accepted(rules[..n], names), at);
      AcceptsMeans(rules[n], names);
      at := at + if Accepts(rules[n], names) then [n] else [];
    }
  }

  /** What the older search answers. */
  function FirstAccepted(rules: seq<Rule>, names: seq<string>): Option<Rule> {
    if names == [] || Accepted(rules, names) == [] then None else Some(Accepted(rules, names)[0])
  }

  /** The older search: the flag outlives the iteration that sets it, so an empty name list finds nothing. */
  method GetRouteRule(rules: seq<Rule>, names: seq<string>) returns (result: Option<Rule>)
    ensures result == FirstAccepted(rules, names)
  {
    var isFound := false;
    var next := new ListIterator(rules);
    var hasNext := next.HasNext();
    while hasNext
      invariant fresh(next) && next.Valid() && next.list == rules && (hasNext <==> next.HasNext())
      invariant !isFound
      invariant names == [] || Accepted(rules[..next.index], names) == []
      decreases |rules| - next.index
    {
      ghost var at := next.index;
      AcceptedNext(rules, at, names);
      var rule;
      rule, hasNext := next.Next();
      if rule.value.backends == [] {
        continue;
      }
      isFound := RuleHasAll(rule.value, names, isFound);
      if isFound {
        AcceptedPrefix(rules, at + 1, names);
        return rule;
      }
    }
    assert rules[..|rules|] == rules;
    return None;
  }

  lemma {:induction false} AcceptedPrefix(rules: seq<Rule>, n: nat, names: seq<string>)
    requires n <= |rules|
    ensures Accepted(rules[..n], names) <= Accepted(rules, names)
  {
    if n == |rules| {
      assert rules[..n] == rules;
    } else {
      AcceptedPrefix(rules[..|rules| - 1], n, names);
      assert rules[..|rules| - 1][..n] == rules[..n];
    }
  }

  /** The older search answers the first rule the newer one finds, and they fail together, exactly when
      there is a name to look for or no rule has a backend. */
  lemma {:induction false} SearchesAgree(rules: seq<Rule>, names: seq<string>)
    ensures var newer := Accepted(rules, names);
            FirstAccepted(rules, names) == (if newer == [] then None else Some(newer[0])) <==>
            names != [] || forall i :: 0 <= i < |rules| ==> rules[i].backends == []
  {
    AcceptedWithoutNames(rules);
  }

  lemma {:induction false} AcceptedWithoutNames(rules: seq<Rule>)
    ensures Accepted(rules, []) == [] <==> forall i :: 0 <= i < |rules| ==> rules[i].backends == []
  {
    if rules != [] {
      var n := |rules| - 1;
      AcceptedWithoutNames(rules[..n]);
      assert Accepts(rules[n], []) <==> rules[n].backends != [];
      assert forall i :: 0 <= i < n ==> rules[..n][i] == rules[i];
    }
  }

  lemma {:induction false} AllWithBoth(rules: seq<Rule>, cfg: Config)
    ensures Accepted(rules, [cfg.canary, cfg.stable]) == Sources(rules, cfg)
  {
    if rules != [] {
      var last, names := rules[|rules| - 1], [cfg.canary, cfg.stable];
      AllWithBoth(rules[..|rules| - 1], cfg);
      assert names[0] == cfg.canary && names[1] == cfg.stable;
      assert Accepts(last, names) <==> IsSource(last, cfg);
    }
  }
}
