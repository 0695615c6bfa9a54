/** Recognising, selecting, cloning and weighing the rules of one route. */
module Rules {
  import opened Gateway
  import opened Labels
  import opened Names

  /** What the rollout says about the route; `declared` holds the names of its managed routes. */
  datatype Config = Config(
    kind: Kind,
    canary: string,
    stable: string,
    declared: set<string>,
    marker: LabelConfig)

  predicate HasBackend(backends: seq<BackendRef>, name: string) {
    exists i :: 0 <= i < |backends| && backends[i].name == name
  }

  lemma {:induction false} ConcatIndex<T>(a: seq<T>, b: seq<T>, i: nat)
    requires i < |a + b|
    ensures (a + b)[i] == if i < |a| then a[i] else b[i - |a|]
  {
  }

  lemma {:induction false} ConcatAssociates<T>(a: seq<T>, b: seq<T>, c: seq<T>)
    ensures (a + b) + c == a + (b + c)
  {
  }

  /** The elements of `picked` are those of `all` at the increasing places `at`. */
  ghost predicate Picks<T>(all: seq<T>, picked: seq<T>, at: seq<nat>) {
    |at| == |picked|
    && (forall k :: 0 <= k < |at| ==> at[k] < |all| && picked[k] == all[at[k]])
    && forall k, l :: 0 <= k < l < |at| ==> at[k] < at[l]
  }

  /** Whether or not the last element is taken, the places stay increasing. */
  lemma {:induction false} PickNext<T>(all: seq<T>, picked: seq<T>, at: seq<nat>)
    requires all != [] && Picks(all[..|all| - 1], picked, at)
    ensures Picks(all, picked, at) && Picks(all, picked + [all[|all| - 1]], at + [|all| - 1])
  {
  }

  // ----- recognising managed rules

  predicate NamesHeader(headers: seq<HeaderMatch>, name: string) {
    exists i :: 0 <= i < |headers| && headers[i].name == name
  }

  predicate Covers(headers: seq<HeaderMatch>, wanted: seq<HeaderMatch>) {
    forall i :: 0 <= i < |wanted| ==> NamesHeader(headers, wanted[i].name)
  }

  predicate CanaryOnly(rule: Rule, canary: string) {
    |rule.backends| == 1 && rule.backends[0].name == canary
  }

  /** What a rule is compared with: base names, and the shape of an injected rule. */
  datatype Recogniser = Recogniser(names: set<string>, canary: string, headers: Option<seq<HeaderMatch>>)
  {
    ghost predicate ByName(rule: Rule) {
      rule.name.Some? && ManagedName(rule.name.value, names)
    }

    predicate ByShape(rule: Rule) {
      CanaryOnly(rule, canary)
      && (headers.Some? ==>
            exists i :: 0 <= i < |rule.matches| && Covers(rule.matches[i].headers, headers.value))
    }

    ghost predicate Owns(rule: Rule) {
      ByName(rule) || ByShape(rule)
    }
  }

  function HeaderNames(headers: seq<HeaderMatch>): set<string> {
    set i | 0 <= i < |headers| :: headers[i].name
  }

  /** Header names are compared exactly, and neither order nor repetition matters. */
  lemma {:induction false} CoversMeans(headers: seq<HeaderMatch>, wanted: seq<HeaderMatch>)
    ensures Covers(headers, wanted) <==> HeaderNames(wanted) <= HeaderNames(headers)
  {
    if HeaderNames(wanted) <= HeaderNames(headers) {
      forall i | 0 <= i < |wanted|
        ensures NamesHeader(headers, wanted[i].name)
      {
        assert wanted[i].name in HeaderNames(wanted);
        var j :| 0 <= j < |headers| && headers[j].name == wanted[i].name;
      }
    }
    if Covers(headers, wanted) {
      forall name | name in HeaderNames(wanted)
        ensures name in HeaderNames(headers)
      {
        var i :| 0 <= i < |wanted| && wanted[i].name == name;
        assert NamesHeader(headers, wanted[i].name);
        var j :| 0 <= j < |headers| && headers[j].name == name;
      }
    }
  }

  function AnyManaged(cfg: Config): Recogniser {
    Recogniser(cfg.declared, cfg.canary, None)
  }

  function ManagedAs(cfg: Config, name: string, headers: seq<HeaderMatch>): Recogniser {
    Recogniser({name}, cfg.canary, Some(headers))
  }

  /** What is taken for an injected rule: a rule with the name of a declared route, with or without a number, and
      a rule with a single canary backend, whatever its name is. */
  ghost predicate LooksInjected(cfg: Config, rule: Rule) {
    (rule.name.Some? && exists base :: base in cfg.declared && InFamily(base, rule.name.value))
    || (|rule.backends| == 1 && rule.backends[0].name == cfg.canary)
  }

  lemma {:induction false} AnyManagedMeans(cfg: Config, rule: Rule)
    ensures AnyManaged(cfg).Owns(rule) <==> LooksInjected(cfg, rule)
  {
  }

  /** What the upsert of one route takes: a rule in the family of the name, and a rule with a single canary backend
      and a match that has all the header names. */
  ghost predicate TakenBy(cfg: Config, name: string, headers: seq<HeaderMatch>, rule: Rule) {
    || (rule.name.Some? && InFamily(name, rule.name.value))
    || (|rule.backends| == 1 && rule.backends[0].name == cfg.canary
        && exists i :: 0 <= i < |rule.matches| && HeaderNames(headers) <= HeaderNames(rule.matches[i].headers))
  }

  lemma {:induction false} ManagedAsMeans(cfg: Config, name: string, headers: seq<HeaderMatch>, rule: Rule)
    ensures ManagedAs(cfg, name, headers).Owns(rule) <==> TakenBy(cfg, name, headers, rule)
  {
    forall i | 0 <= i < |rule.matches|
      ensures Covers(rule.matches[i].headers, headers) <==>
              HeaderNames(headers) <= HeaderNames(rule.matches[i].headers)
    {
      CoversMeans(rule.matches[i].headers, headers);
    }
    assert name in ManagedAs(cfg, name, headers).names;
  }

  method ContainsAllHeaders(headers: seq<HeaderMatch>, wanted: seq<HeaderMatch>) returns (all: bool)
    ensures all <==> Covers(headers, wanted)
  {
    for i := 0 to |wanted|
      invariant Covers(headers, wanted[..i])
    {
      var found := false;
      for j := 0 to |headers|
        invariant !found
        invariant forall k :: 0 <= k < j ==> headers[k].name != wanted[i].name
      {
        if headers[j].name == wanted[i].name {
          found := true;
          break;
        }
      }
      if !found {
        return false;
      }
    }
    assert wanted[..|wanted|] == wanted;
    return true;
  }

  method IsManagedRule(rule: Rule, canary: string, headers: Option<seq<HeaderMatch>>) returns (managed: bool)
    ensures managed <==> Recogniser({}, canary, headers).ByShape(rule)
  {
    if |rule.backends| != 1 || rule.backends[0].name != canary {
      return false;
    }
    if headers.None? {
      return true;
    }
    for i := 0 to |rule.matches|
      invariant forall k :: 0 <= k < i ==> !Covers(rule.matches[k].headers, headers.value)
    {
      var all := ContainsAllHeaders(rule.matches[i].headers, headers.value);
      if all {
        return true;
      }
    }
    return false;
  }

  /** The test every operation applies to every rule: by name first, by shape as a fallback. */
  method Recognise(rule: Rule, rec: Recogniser) returns (managed: bool)
    ensures managed <==> rec.Owns(rule)
  {
    managed := false;
    if rule.name.Some? {
      managed := IsManagedRuleName(rule.name.value, rec.names);
    }
    if !managed {
      managed := IsManagedRule(rule, rec.canary, rec.headers);
    }
  }

  /** The rules a recogniser leaves, in order. */
  ghost function Strip(rules: seq<Rule>, rec: Recogniser): (kept: seq<Rule>)
    ensures |kept| <= |rules|
  {
    if rules == [] then []
    else
      var last := rules[|rules| - 1];
      Strip(rules[..|rules| - 1], rec) + if rec.Owns(last) then [] else [last]
  }

  lemma {:induction false} StripMembers(rules: seq<Rule>, rec: Recogniser)
    ensures forall r :: r in Strip(rules, rec) <==> r in rules && !rec.Owns(r)
  {
    if rules != [] {
      StripMembers(rules[..|rules| - 1], rec);
      assert rules == rules[..|rules| - 1] + [rules[|rules| - 1]];
    }
  }

  /** Stripping keeps the rules that are not recognised, each once and in order. */
  lemma {:induction false} StripPicks(rules: seq<Rule>, rec: Recogniser) returns (at: seq<nat>)
    ensures Picks(rules, Strip(rules, rec), at)
    ensures forall i :: 0 <= i < |rules| ==> (i in at <==> !rec.Owns(rules[i]))
  {
    at := [];
    if rules != [] {
      var n := |rules| - 1;
      at := StripPicks(rules[..n], rec);
      PickNext(rules, Strip(rules[..n], rec), at);
      at := at + if rec.Owns(rules[n]) then [] else [n];
    }
  }

  lemma {:induction false} StripNext(rules: seq<Rule>, i: nat, rec: Recogniser)
    requires i < |rules|
    ensures Strip(rules[..i + 1], rec) == Strip(rules[..i], rec) + if rec.Owns(rules[i]) then [] else [rules[i]]
  {
    assert rules[..i + 1][..i] == rules[..i];
  }

  lemma {:induction false} StripConcat(a: seq<Rule>, b: seq<Rule>, rec: Recogniser)
    ensures Strip(a + b, rec) == Strip(a, rec) + Strip(b, rec)
  {
    if b == [] {
      assert a + b == a;
    } else {
      assert (a + b)[..|a + b| - 1] == a + b[..|b| - 1];
      StripConcat(a, b[..|b| - 1], rec);
    }
  }

  lemma {:induction false} StripNone(rules: seq<Rule>, rec: Recogniser)
    requires forall r :: r in rules ==> !rec.Owns(r)
    ensures Strip(rules, rec) == rules
  {
    if rules != [] {
      StripNone(rules[..|rules| - 1], rec);
      assert rules == rules[..|rules| - 1] + [rules[|rules| - 1]];
    }
  }

  /** Nothing was removed exactly when nothing is recognised. */
  lemma {:induction false} StripShorter(rules: seq<Rule>, rec: Recogniser)
    ensures |Strip(rules, rec)| == |rules| <==> forall r :: r in rules ==> !rec.Owns(r)
  {
    if rules != [] {
      StripShorter(rules[..|rules| - 1], rec);
      assert rules == rules[..|rules| - 1] + [rules[|rules| - 1]];
    }
  }

  lemma {:induction false} StripAll(rules: seq<Rule>, rec: Recogniser)
    requires forall r :: r in rules ==> rec.Owns(r)
    ensures Strip(rules, rec) == []
  {
    if rules != [] {
      assert rules[|rules| - 1] in rules;
      StripAll(rules[..|rules| - 1], rec);
    }
  }

  // ----- source rules

  predicate IsSource(rule: Rule, cfg: Config) {
    HasBackend(rule.backends, cfg.canary) && HasBackend(rule.backends, cfg.stable)
  }

  /** The rules that carry both services, in order: an injected rule is made for each of them. */
  function Sources(rules: seq<Rule>, cfg: Config): (sources: seq<Rule>)
    ensures |sources| <= |rules|
  {
    if rules == [] then []
    else
      var last := rules[|rules| - 1];
      Sources(rules[..|rules| - 1], cfg) + if IsSource(last, cfg) then [last] else []
  }

  lemma {:induction false} SourcesMembers(rules: seq<Rule>, cfg: Config)
    ensures forall r :: r in Sources(rules, cfg) <==> r in rules && IsSource(r, cfg)
  {
    if rules != [] {
      SourcesMembers(rules[..|rules| - 1], cfg);
      assert rules == rules[..|rules| - 1] + [rules[|rules| - 1]];
    }
  }

  /** The source rules are the rules that name both services, each once and in order. */
  lemma {:induction false} SourcesPick(rules: seq<Rule>, cfg: Config) returns (at: seq<nat>)
    ensures Picks(rules, Sources(rules, cfg), at)
    ensures forall i :: 0 <= i < |rules| ==>
              (i in at <==> HasBackend(rules[i].backends, cfg.canary) && HasBackend(rules[i].backends, cfg.stable))
  {
    at := [];
    if rules != [] {
      var n := |rules| - 1;
      at := SourcesPick(rules[..n], cfg);
      PickNext(rules, Sources(rules[..n], cfg), at);
      at := at + if IsSource(rules[n], cfg) then [n] else [];
    }
  }

  lemma {:induction false} SourcesConcat(a: seq<Rule>, b: seq<Rule>, cfg: Config)
    ensures Sources(a + b, cfg) == Sources(a, cfg) + Sources(b, cfg)
  {
    if b == [] {
      assert a + b == a;
    } else {
      assert (a + b)[..|a + b| - 1] == a + b[..|b| - 1];
      SourcesConcat(a, b[..|b| - 1], cfg);
    }
  }

  lemma {:induction false} NoSources(rules: seq<Rule>, cfg: Config)
    requires forall r :: r in rules ==> !IsSource(r, cfg)
    ensures Sources(rules, cfg) == []
  {
    if rules != [] {
      assert rules[|rules| - 1] in rules;
      NoSources(rules[..|rules| - 1], cfg);
    }
  }

  lemma {:induction false} CanaryOnlyIsNoSource(rule: Rule, cfg: Config)
    requires cfg.canary != cfg.stable && CanaryOnly(rule, cfg.canary)
    ensures !IsSource(rule, cfg)
  {
  }

  // ----- the header list

  /** One entry of a `setHeaderRoute` step; an unset value is the empty string, as in Go. */
  datatype HeaderRule = HeaderRule(name: string, exact: string, prefix: string, regex: string)

  function HeaderOf(rule: HeaderRule): Option<HeaderMatch> {
    if rule.exact != "" then Some(HeaderMatch(rule.name, Some(Exact), rule.exact))
    else if rule.prefix != "" then Some(HeaderMatch(rule.name, Some(RegularExpression), rule.prefix + ".*"))
    else if rule.regex != "" then Some(HeaderMatch(rule.name, Some(RegularExpression), rule.regex))
    else None
  }

  const INVALID_HEADER_MATCH_TYPE := "invalid header match type"

  predicate ValidHeaderRules(rules: seq<HeaderRule>) {
    forall i :: 0 <= i < |rules| ==> HeaderOf(rules[i]).Some?
  }

  function HeaderList(rules: seq<HeaderRule>): (headers: seq<HeaderMatch>)
    requires ValidHeaderRules(rules)
    ensures |headers| == |rules|
  {
    seq(|rules|, i requires 0 <= i < |rules| && ValidHeaderRules(rules) => HeaderOf(rules[i]).value)
  }

  /** What the entries of a step become, one by one: an exact value comes before a prefix and a prefix before a
      regular expression, and a prefix becomes a regular expression. */
  lemma {:induction false} HeaderListMeans(rules: seq<HeaderRule>)
    ensures ValidHeaderRules(rules) <==>
            forall i :: 0 <= i < |rules| ==> rules[i].exact != "" || rules[i].prefix != "" || rules[i].regex != ""
    ensures ValidHeaderRules(rules) ==>
              forall i :: 0 <= i < |rules| ==>
                var r, h := rules[i], HeaderList(rules)[i];
                && h.name == r.name
                && (r.exact != "" ==> h.kind == Some(Exact) && h.value == r.exact)
                && (r.exact == "" ==> h.kind == Some(RegularExpression))
                && (r.exact == "" && r.prefix != "" ==> h.value == r.prefix + ".*")
                && (r.exact == "" && r.prefix == "" ==> h.value == r.regex)
  {
    forall i | 0 <= i < |rules|
      ensures HeaderOf(rules[i]).Some? <==> rules[i].exact != "" || rules[i].prefix != "" || rules[i].regex != ""
    {
    }
  }

  /** Fails on the first entry without a value and otherwise keeps one entry per rule, in order. */
  method GetHeaderList(rules: seq<HeaderRule>) returns (headers: Option<seq<HeaderMatch>>)
    ensures headers == if ValidHeaderRules(rules) then Some(HeaderList(rules)) else None
  {
    var list := [];
    for i := 0 to |rules|
      invariant |list| == i
      invariant forall k :: 0 <= k < i ==> HeaderOf(rules[k]) == Some(list[k])
    {
      if rules[i].exact != "" {
        list := list + [HeaderMatch(rules[i].name, Some(Exact), rules[i].exact)];
      } else if rules[i].prefix != "" {
        list := list + [HeaderMatch(rules[i].name, Some(RegularExpression), rules[i].prefix + ".*")];
      } else if rules[i].regex != "" {
        list := list + [HeaderMatch(rules[i].name, Some(RegularExpression), rules[i].regex)];
      } else {
        return None;
      }
    }
    assert list == HeaderList(rules);
    return Some(list);
  }

  // ----- cloning a source rule

  function AnyCriteria(kind: Kind): Criteria {
    if kind == Grpc then GrpcCriteria(None) else HttpCriteria(None, [], None)
  }

  /** The matches a rule stands for: a rule without matches accepts every request. */
  function EffectiveMatches(kind: Kind, matches: seq<Match>): seq<Match> {
    if matches == [] then [Match(AnyCriteria(kind), [])] else matches
  }

  function Merge(m: Match, headers: seq<HeaderMatch>): Match {
    Match(m.criteria, m.headers + headers)
  }

  function MergeAll(matches: seq<Match>, headers: seq<HeaderMatch>): (merged: seq<Match>)
    ensures |merged| == |matches|
  {
    seq(|matches|, i requires 0 <= i < |matches| => Merge(matches[i], headers))
  }

  /** The port of the first backend with the given name. */
  function PortOf(backends: seq<BackendRef>, name: string): Option<Int32> {
    if backends == [] then None
    else if backends[0].name == name then backends[0].port
    else PortOf(backends[1..], name)
  }

  lemma {:induction false} PortOfFirst(backends: seq<BackendRef>, name: string, i: nat)
    requires i < |backends| && backends[i].name == name
    requires forall k :: 0 <= k < i ==> backends[k].name != name
    ensures PortOf(backends, name) == backends[i].port
  {
    if i > 0 {
      PortOfFirst(backends[1..], name, i - 1);
    }
  }

  /** The managed rule for one source rule. */
  function Clone(cfg: Config, source: Rule, name: string, headers: seq<HeaderMatch>): Rule {
    Rule(
      Some(name),
      MergeAll(EffectiveMatches(cfg.kind, source.matches), headers),
      source.filters,
      [BackendRef(Some(""), Some("Service"), cfg.canary, None, PortOf(source.backends, cfg.canary), None, [])],
      None)
  }

  /** The managed rules of one managed route, one for each source rule. */
  function Block(cfg: Config, sources: seq<Rule>, base: string, headers: seq<HeaderMatch>): (block: seq<Rule>)
    ensures |block| == |sources|
  {
    if sources == [] then []
    else
      var n := |sources| - 1;
      Block(cfg, sources[..n], base, headers) + [Clone(cfg, sources[n], RuleName(base, n), headers)]
  }

  lemma {:induction false} BlockNth(cfg: Config, sources: seq<Rule>, base: string, headers: seq<HeaderMatch>, i: nat)
    requires i < |sources|
    ensures Block(cfg, sources, base, headers)[i] == Clone(cfg, sources[i], RuleName(base, i), headers)
  {
    var n := |sources| - 1;
    if i < n {
      BlockNth(cfg, sources[..n], base, headers, i);
    }
  }

  /** The rule that the design asks for in place of a source rule: its filters, its matches with the headers
      appended to each (or a single match with nothing but the headers), and one backend without a weight, the
      canary service on the port of the first canary reference. */
  ghost predicate InjectedFor(cfg: Config, source: Rule, headers: seq<HeaderMatch>, rule: Rule) {
    && rule.filters == source.filters && rule.policy == None
    && |rule.matches| == (if source.matches == [] then 1 else |source.matches|)
    && (source.matches == [] ==>
          rule.matches[0].headers == headers
          && rule.matches[0].criteria == if cfg.kind == Grpc then GrpcCriteria(None) else HttpCriteria(None, [], None))
    && (forall j :: 0 <= j < |source.matches| ==>
          rule.matches[j].criteria == source.matches[j].criteria
          && rule.matches[j].headers == source.matches[j].headers + headers)
    && |rule.backends| == 1 && CanaryBackend(cfg, source.backends, rule.backends[0])
  }

  ghost predicate CanaryBackend(cfg: Config, own: seq<BackendRef>, b: BackendRef) {
    && b.group == Some("") && b.kind == Some("Service") && b.name == cfg.canary && b.namespace == None
    && b.weight == None && b.filters == []
    && exists p :: 0 <= p < |own| && own[p].name == cfg.canary && b.port == own[p].port
         && forall k :: 0 <= k < p ==> own[k].name != cfg.canary
  }

  lemma {:induction false} FirstWithName(backends: seq<BackendRef>, name: string) returns (p: nat)
    requires HasBackend(backends, name)
    ensures p < |backends| && backends[p].name == name && forall k :: 0 <= k < p ==> backends[k].name != name
    ensures PortOf(backends, name) == backends[p].port
  {
    p := 0;
    while backends[p].name != name
      invariant p < |backends| && forall k :: 0 <= k < p ==> backends[k].name != name
      decreases |backends| - p
    {
      p := p + 1;
    }
    PortOfFirst(backends, name, p);
  }

  lemma {:induction false} CloneMeans(cfg: Config, source: Rule, name: string, headers: seq<HeaderMatch>)
    requires HasBackend(source.backends, cfg.canary)
    ensures Clone(cfg, source, name, headers).name == Some(name)
    ensures InjectedFor(cfg, source, headers, Clone(cfg, source, name, headers))
  {
    var p := FirstWithName(source.backends, cfg.canary);
    assert [] + headers == headers;
  }

  method CloneRule(cfg: Config, source: Rule, name: string, headers: seq<HeaderMatch>) returns (clone: Rule)
    requires HasBackend(source.backends, cfg.canary)
    ensures clone == Clone(cfg, source, name, headers)
  {
    var canaryRef: Option<BackendRef> := None;
    for i := 0 to |source.backends|
      invariant canaryRef.None?
      invariant forall k :: 0 <= k < i ==> source.backends[k].name != cfg.canary
    {
      if cfg.canary == source.backends[i].name {
        canaryRef := Some(source.backends[i]);
        PortOfFirst(source.backends, cfg.canary, i);
        break;
      }
    }
    var port := canaryRef.value.port;

    var filters := [];
    for i := 0 to |source.filters|
      invariant filters == source.filters[..i]
    {
      filters := filters + [source.filters[i]];
    }

    var matches := [];
    if |source.matches| == 0 {
      matches := [Match(AnyCriteria(cfg.kind), headers)];
      assert [] + headers == headers;
    } else {
      for i := 0 to |source.matches|
        invariant matches == MergeAll(source.matches, headers)[..i]
      {
        var merged := source.matches[i].headers;
        merged := merged + headers;
        matches := matches + [Match(source.matches[i].criteria, merged)];
      }
    }
    assert matches == MergeAll(EffectiveMatches(cfg.kind, source.matches), headers);
    clone := Rule(Some(name), matches, filters,
                  [BackendRef(Some(""), Some("Service"), cfg.canary, None, port, None, [])], None);
  }

  // ----- weights

  function RestOf(weight: Int32): Int32 {
    Wrap32(100 - weight as int)
  }

  /** The two cases of the weight switch, in source order. */
  function WeighBackend(cfg: Config, weight: Int32, b: BackendRef): BackendRef {
    if b.name == cfg.canary then b.(weight := Some(weight))
    else if b.name == cfg.stable then b.(weight := Some(RestOf(weight)))
    else b
  }

  function WeighBackends(cfg: Config, weight: Int32, backends: seq<BackendRef>): (weighed: seq<BackendRef>)
    ensures |weighed| == |backends|
  {
    seq(|backends|, i requires 0 <= i < |backends| => WeighBackend(cfg, weight, backends[i]))
  }

  ghost function WeighRule(cfg: Config, weight: Int32, rule: Rule): Rule {
    if AnyManaged(cfg).Owns(rule) then rule
    else rule.(backends := WeighBackends(cfg, weight, rule.backends))
  }

  ghost function Weigh(cfg: Config, weight: Int32, rules: seq<Rule>): (weighed: seq<Rule>)
    ensures |weighed| == |rules|
  {
    seq(|rules|, i requires 0 <= i < |rules| => WeighRule(cfg, weight, rules[i]))
  }

  /** Some rule that is not managed names the backend `name`. */
  ghost predicate Found(cfg: Config, rules: seq<Rule>, name: string) {
    exists i :: 0 <= i < |rules| && !AnyManaged(cfg).Owns(rules[i]) && HasBackend(rules[i].backends, name)
  }

  /** The stable service counts only in the second case of the switch. */
  ghost predicate Weighable(cfg: Config, rules: seq<Rule>) {
    Found(cfg, rules, cfg.canary) && Found(cfg, rules, cfg.stable) && cfg.canary != cfg.stable
  }

  lemma {:induction false} WeighConcat(cfg: Config, weight: Int32, a: seq<Rule>, b: seq<Rule>)
    ensures Weigh(cfg, weight, a + b) == Weigh(cfg, weight, a) + Weigh(cfg, weight, b)
  {
  }
}
