/** Where a gateway sends a request, by the field documentation of Gateway API v1.4.0: a rule accepts a
    request if one of its matches does, and among accepting matches the most specific wins, the first in list
    order on ties. */
module Routing {
  import opened Gateway
  import Names
  import opened Rules
  import opened Operations
  import opened Runs
  import opened HeaderMatching
  import opened Precedence

  // ----- accepting matches

  function LengthOf(s: Option<string>): nat {
    if s.Some? then |s.value| else 0
  }

  /** A match without a path stands for the path prefix "/". */
  function KeyOf(p: Provider, m: Match): Key {
    match m.criteria
    case HttpCriteria(path, query, verb) =>
      var rank := match path
        case None => (0, 1)
        case Some(ExactPath(v)) => (1, |v|)
        case Some(PrefixPath(v)) => (0, |v|)
        case Some(RegexPath(v)) => p.regexRank(v);
      Key(rank.0, rank.1, if verb.Some? then 1 else 0, HeaderCount(m.headers), |query|)
    case GrpcCriteria(call) =>
      var rank := if call.None? then (0, 0) else (LengthOf(call.value.service), LengthOf(call.value.procedure));
      Key(rank.0, rank.1, 0, HeaderCount(m.headers), 0)
  }

  function MatchesOf(kind: Kind, rules: seq<Rule>, i: nat): seq<Match>
    requires i < |rules|
  {
    EffectiveMatches(kind, rules[i].matches)
  }

  ghost predicate MatchHolds(p: Provider, m: Match, q: Request) {
    p.accepts(m.criteria, q.line) && HeadersHold(p, m.headers, q)
  }

  /** Match `j` of rule `i` accepts the request. */
  ghost predicate Hit(p: Provider, kind: Kind, rules: seq<Rule>, q: Request, i: nat, j: nat) {
    i < |rules| && j < |MatchesOf(kind, rules, i)| && MatchHolds(p, MatchesOf(kind, rules, i)[j], q)
  }

  /** All matches that accept the request. */
  ghost function Entries(p: Provider, kind: Kind, rules: seq<Rule>, q: Request): iset<Entry> {
    iset e: Entry |
      Hit(p, kind, rules, q, e.rule, e.at) && e.key == KeyOf(p, MatchesOf(kind, rules, e.rule)[e.at])
  }

  /** The gateway sends the request to rule `w.value.rule`, by its match `w.value.at`, or refuses it. */
  ghost predicate Routed(p: Provider, kind: Kind, rules: seq<Rule>, q: Request, w: Option<Entry>) {
    Leads(Entries(p, kind, rules, q), w)
  }

  /** The entries before match `n` of rule `m`. */
  ghost function Upto(s: iset<Entry>, m: nat, n: nat): iset<Entry> {
    iset e | e in s && (e.rule < m || (e.rule == m && e.at < n))
  }

  lemma {:induction false} UptoNext(p: Provider, kind: Kind, rules: seq<Rule>, q: Request, s: iset<Entry>, next: Entry)
    requires s <= Entries(p, kind, rules, q)
    requires next.rule < |rules| && next.at < |MatchesOf(kind, rules, next.rule)|
    requires next.key == KeyOf(p, MatchesOf(kind, rules, next.rule)[next.at])
    ensures var m, n := next.rule, next.at;
            Upto(s, m, n + 1) == if next in s then Upto(s, m, n) + iset{next} else Upto(s, m, n)
  {
    var m, n := next.rule, next.at;
    assert forall e :: e in s && e.rule == m && e.at == n ==> e == next;
    forall e: Entry
      ensures e in Upto(s, m, n + 1) <==> e in Upto(s, m, n) || (e == next && next in s)
    {
    }
  }

  lemma {:induction false} NoLeader()
    ensures Leads(iset{}, None)
  {
  }

  /** Any selection of the accepting matches has a leader: the one among those before match `n` of rule `m`. */
  lemma {:induction false} LeaderBefore(p: Provider, kind: Kind, rules: seq<Rule>, q: Request, s: iset<Entry>,
                                        m: nat, n: nat) returns (best: Option<Entry>)
    requires s <= Entries(p, kind, rules, q)
    requires m <= |rules| && n <= if m < |rules| then |MatchesOf(kind, rules, m)| else 0
    ensures Leads(Upto(s, m, n), best)
    decreases m, n
  {
    hide Leads, Before;
    if n > 0 {
      best := LeaderBefore(p, kind, rules, q, s, m, n - 1);
      var next := Entry(m, n - 1, KeyOf(p, MatchesOf(kind, rules, m)[n - 1]));
      UptoNext(p, kind, rules, q, s, next);
      if next in s {
        LeaderOfTwo(Upto(s, m, n - 1), best, next);
        best := Some(if best.Some? && Before(best.value, next) then best.value else next);
      }
    } else if m > 0 {
      best := LeaderBefore(p, kind, rules, q, s, m - 1, |MatchesOf(kind, rules, m - 1)|);
      assert Upto(s, m, 0) == Upto(s, m - 1, |MatchesOf(kind, rules, m - 1)|);
    } else {
      best := None;
      assert Upto(s, 0, 0) == iset{};
      NoLeader();
    }
  }

  lemma {:induction false} LeaderExists(p: Provider, kind: Kind, rules: seq<Rule>, q: Request, s: iset<Entry>)
    returns (best: Option<Entry>)
    requires s <= Entries(p, kind, rules, q)
    ensures Leads(s, best)
  {
    best := LeaderBefore(p, kind, rules, q, s, |rules|, 0);
    assert s == Upto(s, |rules|, 0);
  }

  /** Every request has exactly one fate, and it is refused only if no match accepts it. */
  lemma {:induction false} RoutedOnce(p: Provider, kind: Kind, rules: seq<Rule>, q: Request) returns (w: Option<Entry>)
    ensures Routed(p, kind, rules, q, w)
    ensures forall v :: Routed(p, kind, rules, q, v) ==> v == w
    ensures w.Some? <==> exists i: nat, j: nat :: Hit(p, kind, rules, q, i, j)
  {
    var all := Entries(p, kind, rules, q);
    w := LeaderExists(p, kind, rules, q, all);
    forall v | Routed(p, kind, rules, q, v)
      ensures v == w
    {
      LeaderIsUnique(all, v, w);
    }
    if i: nat, j: nat :| Hit(p, kind, rules, q, i, j) {
      assert Entry(i, j, KeyOf(p, MatchesOf(kind, rules, i)[j])) in all;
    }
  }

  /** What receives a request has the highest precedence of all that accept it, and comes first among equals: by the
      order of the rules, and in a rule by the order of its matches. */
  lemma {:induction false} RoutedBest(p: Provider, kind: Kind, rules: seq<Rule>, q: Request, w: Entry, i: nat, j: nat)
    requires Routed(p, kind, rules, q, Some(w)) && Hit(p, kind, rules, q, i, j)
    ensures Hit(p, kind, rules, q, w.rule, w.at)
    ensures var mine, other := KeyOf(p, MatchesOf(kind, rules, w.rule)[w.at]), KeyOf(p, MatchesOf(kind, rules, i)[j]);
            Less(other, mine) || (other == mine && (w.rule < i || (w.rule == i && w.at <= j)))
  {
    var x := Entry(i, j, KeyOf(p, MatchesOf(kind, rules, i)[j]));
    assert x in Entries(p, kind, rules, q) && Before(w, x);
  }

  /** The precedence of HTTP matches: an exact path, then the longer prefix, then a method, then more headers, then
      more query parameters. */
  lemma {:induction false} HttpPrecedence(p: Provider, a: Match, b: Match)
    requires a.criteria.HttpCriteria? && b.criteria.HttpCriteria?
    ensures var x, y := a.criteria, b.criteria;
            && (x.path.Some? && x.path.value.ExactPath? && (y.path.None? || y.path.value.PrefixPath?) ==>
                  Less(KeyOf(p, b), KeyOf(p, a)))
            && (x.path.Some? && x.path.value.PrefixPath? && y.path.Some? && y.path.value.PrefixPath? ==>
                  (|x.path.value.value| > |y.path.value.value| ==> Less(KeyOf(p, b), KeyOf(p, a))))
            && (x.path.Some? && x.path.value.PrefixPath? && y.path.None? ==>
                  (|x.path.value.value| > 1 ==> Less(KeyOf(p, b), KeyOf(p, a))))
            && (x.path == y.path ==>
                  && (x.verb.Some? && y.verb.None? ==> Less(KeyOf(p, b), KeyOf(p, a)))
                  && ((x.verb.Some? <==> y.verb.Some?) ==>
                        && (HeaderCount(a.headers) > HeaderCount(b.headers) ==> Less(KeyOf(p, b), KeyOf(p, a)))
                        && (HeaderCount(a.headers) == HeaderCount(b.headers) ==>
                              (Less(KeyOf(p, b), KeyOf(p, a)) <==> |x.query| > |y.query|))))
  {
  }

  /** The precedence of gRPC matches: the longer service name, then the longer method name, then more headers. */
  lemma {:induction false} GrpcPrecedence(p: Provider, a: Match, b: Match)
    requires a.criteria.GrpcCriteria? && b.criteria.GrpcCriteria? && a.criteria.call.Some? && b.criteria.call.Some?
    requires a.criteria.call.value.service.Some? && b.criteria.call.value.service.Some?
    requires a.criteria.call.value.procedure.Some? && b.criteria.call.value.procedure.Some?
    ensures var s, t := |a.criteria.call.value.service.value|, |b.criteria.call.value.service.value|;
            var m, n := |a.criteria.call.value.procedure.value|, |b.criteria.call.value.procedure.value|;
            Less(KeyOf(p, b), KeyOf(p, a)) <==>
            s > t || (s == t && (m > n || (m == n && HeaderCount(a.headers) > HeaderCount(b.headers))))
  {
  }

  lemma {:induction false} EntriesBelow(p: Provider, kind: Kind, rules: seq<Rule>, q: Request)
    ensures Below(Entries(p, kind, rules, q), |rules|)
  {
  }

  // ----- appending rules

  lemma {:induction false} AppendEntry(p: Provider, kind: Kind, a: seq<Rule>, b: seq<Rule>, q: Request, e: Entry)
    ensures e in Entries(p, kind, a + b, q) <==>
            e in Entries(p, kind, a, q) || e in Copy(Entries(p, kind, b, q), 0, |a|)
  {
    if e.rule < |a| {
      assert (a + b)[e.rule] == a[e.rule];
    } else if e.rule < |a + b| {
      assert (a + b)[e.rule] == b[e.rule - |a|];
    }
  }

  lemma {:induction false} AppendEntries(p: Provider, kind: Kind, a: seq<Rule>, b: seq<Rule>, q: Request)
    ensures Entries(p, kind, a + b, q) == Entries(p, kind, a, q) + Copy(Entries(p, kind, b, q), 0, |a|)
  {
    forall e: Entry
      ensures e in Entries(p, kind, a + b, q) <==>
              e in Entries(p, kind, a, q) || e in Copy(Entries(p, kind, b, q), 0, |a|)
    {
      AppendEntry(p, kind, a, b, q, e);
    }
  }

  // ----- the injected block

  /** No canary header has a name that a match of a source uses. */
  ghost predicate AllDisjoint(kind: Kind, sources: seq<Rule>, headers: seq<HeaderMatch>) {
    forall i, j :: 0 <= i < |sources| && 0 <= j < |MatchesOf(kind, sources, i)| ==>
      Disjoint(MatchesOf(kind, sources, i)[j].headers, headers)
  }

  lemma {:induction false} MergeSemantics(p: Provider, m: Match, headers: seq<HeaderMatch>, q: Request)
    requires Disjoint(m.headers, headers)
    ensures MatchHolds(p, Merge(m, headers), q) <==> MatchHolds(p, m, q) && HeadersHold(p, headers, q)
    ensures KeyOf(p, Merge(m, headers))
         == KeyOf(p, m).(headers := KeyOf(p, m).headers + HeaderCount(headers))
  {
    MergedHoldDisjoint(p, m.headers, headers, q);
    MergedCount(m.headers, headers);
  }

  lemma {:induction false} CloneMatches(cfg: Config, sources: seq<Rule>, name: string, headers: seq<HeaderMatch>,
                                        i: nat)
    requires i < |sources|
    ensures MatchesOf(cfg.kind, Block(cfg, sources, name, headers), i)
         == MergeAll(MatchesOf(cfg.kind, sources, i), headers)
  {
    BlockNth(cfg, sources, name, headers, i);
  }

  /** Clone semantics: match by match, a managed rule accepts what its source accepts and what carries the
      canary headers, with the precedence of its source raised by the number of canary headers. */
  lemma {:induction false} CloneSemantics(p: Provider, cfg: Config, sources: seq<Rule>, name: string,
                                          headers: seq<HeaderMatch>, q: Request, e: Entry)
    requires AllDisjoint(cfg.kind, sources, headers)
    ensures Raise(e, HeaderCount(headers)) in Entries(p, cfg.kind, Block(cfg, sources, name, headers), q)
       <==> e in Entries(p, cfg.kind, sources, q) && HeadersHold(p, headers, q)
  {
    if e.rule < |sources| {
      CloneMatches(cfg, sources, name, headers, e.rule);
      var matches := MatchesOf(cfg.kind, sources, e.rule);
      if e.at < |matches| {
        assert Disjoint(matches[e.at].headers, headers);
        MergeSemantics(p, matches[e.at], headers, q);
      }
    }
  }

  /** The entries of a block: none without the canary headers, otherwise those of the sources, raised. */
  lemma {:induction false} BlockEntries(p: Provider, cfg: Config, sources: seq<Rule>, m: Managed, q: Request)
    requires AllDisjoint(cfg.kind, sources, m.headers)
    ensures Entries(p, cfg.kind, Block(cfg, sources, m.name, m.headers), q) ==
            if HeadersHold(p, m.headers, q) then Copy(Entries(p, cfg.kind, sources, q), HeaderCount(m.headers), 0)
            else iset{}
  {
    var n := HeaderCount(m.headers);
    forall e: Entry
      ensures e in Entries(p, cfg.kind, Block(cfg, sources, m.name, m.headers), q) <==>
              HeadersHold(p, m.headers, q) && e in Copy(Entries(p, cfg.kind, sources, q), n, 0)
    {
      assert Raise(Original(e, n, 0), n) == e;
      CloneSemantics(p, cfg, sources, m.name, m.headers, q, Original(e, n, 0));
    }
  }

  lemma {:induction false} CopyTwice(s: iset<Entry>, headers: nat, shift: nat)
    ensures Copy(Copy(s, headers, 0), 0, shift) == Copy(s, headers, shift)
  {
    forall e: Entry | shift <= e.rule
      ensures Original(Original(e, 0, shift), headers, 0) == Original(e, headers, shift)
    {
    }
  }

  /** The entries once a block has been put behind any rules. */
  lemma {:induction false} InjectionEntries(p: Provider, cfg: Config, rules: seq<Rule>, sources: seq<Rule>,
                                            m: Managed, q: Request)
    requires AllDisjoint(cfg.kind, sources, m.headers)
    ensures Entries(p, cfg.kind, rules + Block(cfg, sources, m.name, m.headers), q) ==
            if HeadersHold(p, m.headers, q)
            then Entries(p, cfg.kind, rules, q)
                 + Copy(Entries(p, cfg.kind, sources, q), HeaderCount(m.headers), |rules|)
            else Entries(p, cfg.kind, rules, q)
  {
    AppendEntries(p, cfg.kind, rules, Block(cfg, sources, m.name, m.headers), q);
    BlockEntries(p, cfg, sources, m, q);
    CopyTwice(Entries(p, cfg.kind, sources, q), HeaderCount(m.headers), |rules|);
    assert Copy(iset{}, 0, |rules|) == iset{};
  }

  /** Where any request goes once a block has been put behind any rules: to the clone of the best source rule if
      it carries the canary headers and that rule, with these counted, is more specific than the rule that
      received the request before; otherwise where it went before. */
  lemma {:induction false} Injection(p: Provider, cfg: Config, rules: seq<Rule>, sources: seq<Rule>, m: Managed,
                                     q: Request, w: Option<Entry>, f: Option<Entry>)
    requires AllDisjoint(cfg.kind, sources, m.headers)
    requires Routed(p, cfg.kind, rules, q, w) && Routed(p, cfg.kind, sources, q, f)
    ensures Routed(p, cfg.kind, rules + Block(cfg, sources, m.name, m.headers), q,
                   if HeadersHold(p, m.headers, q) then Prevailing(w, Copied(f, HeaderCount(m.headers), |rules|))
                   else w)
  {
    var a, s, n := Entries(p, cfg.kind, rules, q), Entries(p, cfg.kind, sources, q), HeaderCount(m.headers);
    InjectionEntries(p, cfg, rules, sources, m, q);
    EntriesBelow(p, cfg.kind, rules, q);
    CopyLeads(s, n, |rules|, f);
    UnionLeads(a, Copy(s, n, |rules|), |rules|, w, Copied(f, n, |rules|));
  }

  // ----- source rules by index

  /** The position of rule `i` among the source rules. */
  function SourceIndex(rules: seq<Rule>, cfg: Config, i: nat): nat
    requires i <= |rules|
  {
    |Sources(rules[..i], cfg)|
  }

  lemma {:induction false} SourceAt(rules: seq<Rule>, cfg: Config, i: nat)
    requires i < |rules| && IsSource(rules[i], cfg)
    ensures SourceIndex(rules, cfg, i) < |Sources(rules, cfg)|
    ensures Sources(rules, cfg)[SourceIndex(rules, cfg, i)] == rules[i]
  {
    assert rules == rules[..i] + ([rules[i]] + rules[i + 1..]);
    SourcesConcat(rules[..i], [rules[i]] + rules[i + 1..], cfg);
    SourcesConcat([rules[i]], rules[i + 1..], cfg);
    assert [rules[i]][..0] == [];
  }

  lemma {:induction false} SourceFrom(rules: seq<Rule>, cfg: Config, s: nat) returns (i: nat)
    requires s < |Sources(rules, cfg)|
    ensures i < |rules| && IsSource(rules[i], cfg) && SourceIndex(rules, cfg, i) == s
    decreases |rules|
  {
    var n := |rules| - 1;
    if s < |Sources(rules[..n], cfg)| {
      i := SourceFrom(rules[..n], cfg, s);
      assert rules[..n][..i] == rules[..i];
    } else {
      i := n;
    }
  }

  lemma {:induction false} SourceIndexGrows(rules: seq<Rule>, cfg: Config, i: nat, k: nat)
    requires i < k <= |rules| && IsSource(rules[i], cfg)
    ensures SourceIndex(rules, cfg, i) < SourceIndex(rules, cfg, k)
  {
    assert rules[..k] == rules[..i] + ([rules[i]] + rules[i + 1..k]);
    SourcesConcat(rules[..i], [rules[i]] + rules[i + 1..k], cfg);
    SourcesConcat([rules[i]], rules[i + 1..k], cfg);
    assert [rules[i]][..0] == [];
  }

  function AmongSources(rules: seq<Rule>, cfg: Config, e: Entry): Entry
    requires e.rule < |rules|
  {
    e.(rule := SourceIndex(rules, cfg, e.rule))
  }

  lemma {:induction false} SourceEntry(p: Provider, cfg: Config, rules: seq<Rule>, q: Request, e: Entry)
    requires e.rule < |rules| && IsSource(rules[e.rule], cfg)
    ensures e in Entries(p, cfg.kind, rules, q) <==>
            AmongSources(rules, cfg, e) in Entries(p, cfg.kind, Sources(rules, cfg), q)
  {
    SourceAt(rules, cfg, e.rule);
  }

  /** The accepting matches of the source rules. */
  ghost function SourceEntries(p: Provider, cfg: Config, rules: seq<Rule>, q: Request): iset<Entry> {
    iset e: Entry | e.rule < |rules| && IsSource(rules[e.rule], cfg) && e in Entries(p, cfg.kind, rules, q)
  }

  lemma {:induction false} SourceOrigin(p: Provider, cfg: Config, rules: seq<Rule>, q: Request, x: Entry)
    returns (y: Entry)
    requires x in Entries(p, cfg.kind, Sources(rules, cfg), q)
    ensures y in SourceEntries(p, cfg, rules, q) && AmongSources(rules, cfg, y) == x
  {
    var i := SourceFrom(rules, cfg, x.rule);
    y := x.(rule := i);
    SourceEntry(p, cfg, rules, q, y);
  }

  lemma {:induction false} SourceBefore(p: Provider, cfg: Config, rules: seq<Rule>, q: Request, f: Entry, y: Entry)
    requires Best(SourceEntries(p, cfg, rules, q), f) && y in SourceEntries(p, cfg, rules, q)
    ensures Before(AmongSources(rules, cfg, f), AmongSources(rules, cfg, y))
  {
    assert Before(f, y);
    if y.rule < f.rule {
      SourceIndexGrows(rules, cfg, y.rule, f.rule);
    } else if f.rule < y.rule {
      SourceIndexGrows(rules, cfg, f.rule, y.rule);
    }
  }

  /** The best entry of the source rules, by its position among these. */
  function SourceOption(rules: seq<Rule>, cfg: Config, f: Option<Entry>): Option<Entry>
    requires f.Some? ==> f.value.rule < |rules|
  {
    if f.None? then None else Some(AmongSources(rules, cfg, f.value))
  }

  lemma {:induction false} SourceLeads(p: Provider, cfg: Config, rules: seq<Rule>, q: Request, f: Option<Entry>)
    requires Leads(SourceEntries(p, cfg, rules, q), f)
    ensures Routed(p, cfg.kind, Sources(rules, cfg), q, SourceOption(rules, cfg, f))
  {
    forall x | x in Entries(p, cfg.kind, Sources(rules, cfg), q)
      ensures f.Some? && Before(AmongSources(rules, cfg, f.value), x)
    {
      var y := SourceOrigin(p, cfg, rules, q, x);
      if f.Some? {
        SourceBefore(p, cfg, rules, q, f.value, y);
      }
    }
    if f.Some? {
      SourceEntry(p, cfg, rules, q, f.value);
    }
  }

  // ----- all live managed routes

  ghost predicate AllLiveDisjoint(kind: Kind, sources: seq<Rule>, live: seq<Managed>) {
    forall k :: 0 <= k < |live| ==> AllDisjoint(kind, sources, live[k].headers)
  }

  /** How a request sees the live routes. */
  ghost function Marks(p: Provider, live: seq<Managed>, q: Request): (marks: seq<Mark>)
    ensures |marks| == |live|
  {
    if live == [] then []
    else
      var n := |live| - 1;
      Marks(p, live[..n], q) + [Mark(HeadersHold(p, live[n].headers, q), HeaderCount(live[n].headers))]
  }

  lemma {:induction false} MarkAt(p: Provider, live: seq<Managed>, q: Request, k: nat)
    requires k < |live|
    ensures Marks(p, live, q)[k] == Mark(HeadersHold(p, live[k].headers, q), HeaderCount(live[k].headers))
  {
    var n := |live| - 1;
    if k < n {
      MarkAt(p, live[..n], q, k);
    }
  }

  /** The live route whose clones receive the request, if there is one. */
  ghost function ChosenRoute(p: Provider, live: seq<Managed>, q: Request): Option<nat> {
    Chosen(Marks(p, live, q))
  }

  /** None is chosen exactly if the request carries the headers of no live route. Otherwise the request carries
      those of the chosen one, and of these routes none has more headers, and no earlier one as many. */
  lemma {:induction false} ChosenRouteIsBest(p: Provider, live: seq<Managed>, q: Request, k: nat)
    requires k < |live| && HeadersHold(p, live[k].headers, q)
    ensures var c := ChosenRoute(p, live, q);
            c.Some? && c.value < |live| && HeadersHold(p, live[c.value].headers, q)
            && HeaderCount(live[k].headers) <= HeaderCount(live[c.value].headers)
            && (k < c.value ==> HeaderCount(live[k].headers) < HeaderCount(live[c.value].headers))
  {
    MarkAt(p, live, q, k);
    ChosenIsBest(Marks(p, live, q), k);
    MarkAt(p, live, q, ChosenRoute(p, live, q).value);
  }

  lemma {:induction false} BlocksLength(cfg: Config, sources: seq<Rule>, live: seq<Managed>)
    ensures |Blocks(cfg, sources, live)| == Offset(|live|, |sources|)
  {
    if live != [] {
      BlocksLength(cfg, sources, live[..|live| - 1]);
    }
  }

  lemma {:induction false} BlocksSize(cfg: Config, rules: seq<Rule>, sources: seq<Rule>, live: seq<Managed>)
    ensures |rules + Blocks(cfg, sources, live)| == |rules| + Offset(|live|, |sources|)
  {
    BlocksLength(cfg, sources, live);
  }

  lemma {:induction false} BlocksNext(cfg: Config, rules: seq<Rule>, sources: seq<Rule>, live: seq<Managed>)
    requires live != []
    ensures var n := |live| - 1;
            rules + Blocks(cfg, sources, live)
            == rules + Blocks(cfg, sources, live[..n]) + Block(cfg, sources, live[n].name, live[n].headers)
  {
  }

  lemma {:induction false} BlocksEntriesStep(p: Provider, cfg: Config, rules: seq<Rule>, sources: seq<Rule>,
                                             live: seq<Managed>, q: Request)
    requires live != [] && AllDisjoint(cfg.kind, sources, live[|live| - 1].headers)
    ensures var n := |live| - 1;
            var before := Entries(p, cfg.kind, rules + Blocks(cfg, sources, live[..n]), q);
            Entries(p, cfg.kind, rules + Blocks(cfg, sources, live), q) ==
              if HeadersHold(p, live[n].headers, q)
              then before + Copy(Entries(p, cfg.kind, sources, q), HeaderCount(live[n].headers),
                                 |rules| + Offset(n, |sources|))
              else before
  {
    hide Entries, Block, Blocks, HeadersHold, HeaderCount, Copy;
    var n := |live| - 1;
    BlocksNext(cfg, rules, sources, live);
    BlocksSize(cfg, rules, sources, live[..n]);
    InjectionEntries(p, cfg, rules + Blocks(cfg, sources, live[..n]), sources, live[n], q);
  }

  lemma {:induction false} MarksNext(p: Provider, live: seq<Managed>, q: Request)
    requires live != []
    ensures var n := |live| - 1;
            Marks(p, live, q)[..n] == Marks(p, live[..n], q)
            && Marks(p, live, q)[n] == Mark(HeadersHold(p, live[n].headers, q), HeaderCount(live[n].headers))
  {
  }

  /** The entries of the user's rules with the blocks of all live routes behind them. */
  lemma {:induction false} BlocksEntries(p: Provider, cfg: Config, rules: seq<Rule>, sources: seq<Rule>,
                                         live: seq<Managed>, q: Request)
    requires AllLiveDisjoint(cfg.kind, sources, live)
    ensures Entries(p, cfg.kind, rules + Blocks(cfg, sources, live), q)
         == Appended(Entries(p, cfg.kind, rules, q), Entries(p, cfg.kind, sources, q), |rules|, |sources|,
                     Marks(p, live, q))
  {
    hide Entries, Block, HeadersHold, HeaderCount, Copy;
    if live == [] {
      assert rules + Blocks(cfg, sources, live) == rules;
    } else {
      var n := |live| - 1;
      assert forall k :: 0 <= k < n ==> live[..n][k] == live[k];
      BlocksEntries(p, cfg, rules, sources, live[..n], q);
      BlocksEntriesStep(p, cfg, rules, sources, live, q);
      MarksNext(p, live, q);
    }
  }

  lemma {:induction false} BlockAt(cfg: Config, sources: seq<Rule>, live: seq<Managed>, k: nat, s: nat)
    requires k < |live| && s < |sources|
    ensures var i := Offset(k, |sources|) + s;
            i < |Blocks(cfg, sources, live)|
            && Blocks(cfg, sources, live)[i] == Clone(cfg, sources[s], Names.RuleName(live[k].name, s), live[k].headers)
  {
    hide Block, Blocks, Clone;
    BlockNth(cfg, sources, live[k].name, live[k].headers, s);
    BlocksLength(cfg, sources, live[..k]);
    var rest := BlocksSplit(cfg, sources, live, k);
  }

  lemma {:induction false} BlocksConcat(cfg: Config, sources: seq<Rule>, a: seq<Managed>, b: seq<Managed>)
    ensures Blocks(cfg, sources, a + b) == Blocks(cfg, sources, a) + Blocks(cfg, sources, b)
  {
    if b == [] {
      assert a + b == a;
    } else {
      var rest, last := b[..|b| - 1], b[|b| - 1];
      BlocksConcat(cfg, sources, a, rest);
      assert (a + b)[..|a + b| - 1] == a + rest && (a + b)[|a + b| - 1] == last;
      ConcatAssociates(Blocks(cfg, sources, a), Blocks(cfg, sources, rest),
                       Block(cfg, sources, last.name, last.headers));
    }
  }

  lemma {:induction false} BlocksSplit(cfg: Config, sources: seq<Rule>, live: seq<Managed>, k: nat)
    returns (rest: seq<Rule>)
    requires k < |live|
    ensures Blocks(cfg, sources, live)
         == Blocks(cfg, sources, live[..k]) + Block(cfg, sources, live[k].name, live[k].headers) + rest
  {
    assert live == live[..k + 1] + live[k + 1..] && live[..k + 1][..k] == live[..k];
    BlocksConcat(cfg, sources, live[..k + 1], live[k + 1..]);
    rest := Blocks(cfg, sources, live[k + 1..]);
  }

  // ----- over runs

  /** Routing looks at matches only, so weights and experiments do not move a request. */
  lemma {:induction false} EntriesEvolved(p: Provider, cfg: Config, e: set<string>, was: seq<Rule>, now: seq<Rule>,
                                          q: Request)
    requires AllEvolved(cfg, e, was, now)
    ensures Entries(p, cfg.kind, was, q) == Entries(p, cfg.kind, now, q)
  {
    forall k | 0 <= k < |was|
      ensures MatchesOf(cfg.kind, was, k) == MatchesOf(cfg.kind, now, k)
    {
      assert Evolved(cfg, e, was[k], now[k]);
      assert was[k].(backends := []).matches == now[k].(backends := []).matches;
    }
    forall x: Entry
      ensures x in Entries(p, cfg.kind, was, q) <==> x in Entries(p, cfg.kind, now, q)
    {
      assert x.rule < |was| ==> MatchesOf(cfg.kind, was, x.rule) == MatchesOf(cfg.kind, now, x.rule);
    }
  }

  /** The entries after a run, whatever weights and experiments came and went. */
  lemma {:induction false} RunEntries(p: Provider, cfg: Config, e: set<string>, ops: seq<Op>, start: RouteState,
                                      q: Request)
    requires |start.rules| <= MAX_INT
    requires UserRules(cfg, e, start.rules) && AllAllowed(e, start.rules, ops)
    requires Compatible(cfg, Sources(start.rules, cfg), ops)
    requires AllLiveDisjoint(cfg.kind, Sources(start.rules, cfg), Live(ops))
    ensures var sources := Sources(start.rules, cfg);
            Entries(p, cfg.kind, Run(cfg, ops, start).rules, q)
            == Appended(Entries(p, cfg.kind, start.rules, q), Entries(p, cfg.kind, sources, q),
                        |start.rules|, |sources|, Marks(p, Live(ops), q))
  {
    var bare := Run(cfg, WeightsOf(ops), start).rules;
    WholeRun(cfg, e, ops, start);
    Isolation(cfg, e, ops, start);
    EntriesEvolved(p, cfg, e, start.rules, bare, q);
    BlocksEntries(p, cfg, bare, Sources(start.rules, cfg), Live(ops), q);
  }

  /** A request that carries the headers of no live managed route meets, after any run, exactly the accepting
      matches it met at the start, in the same rules and with the same precedence: no run moves it, whichever
      rule receives it, and none lets it in if no rule did. */
  lemma {:induction false} PlainRequestsUnmoved(p: Provider, cfg: Config, e: set<string>, ops: seq<Op>,
                                                start: RouteState, q: Request)
    requires |start.rules| <= MAX_INT
    requires UserRules(cfg, e, start.rules) && AllAllowed(e, start.rules, ops)
    requires Compatible(cfg, Sources(start.rules, cfg), ops)
    requires AllLiveDisjoint(cfg.kind, Sources(start.rules, cfg), Live(ops))
    requires forall k :: 0 <= k < |Live(ops)| ==> !HeadersHold(p, Live(ops)[k].headers, q)
    ensures Entries(p, cfg.kind, Run(cfg, ops, start).rules, q) == Entries(p, cfg.kind, start.rules, q)
  {
    var sources, marks := Sources(start.rules, cfg), Marks(p, Live(ops), q);
    RunEntries(p, cfg, e, ops, start, q);
    forall k | 0 <= k < |marks|
      ensures !marks[k].holds
    {
      MarkAt(p, Live(ops), q, k);
    }
    AppendedSilent(Entries(p, cfg.kind, start.rules, q), Entries(p, cfg.kind, sources, q),
                   |start.rules|, |sources|, marks);
  }

  /** What receives the request after a run if `w` did at the start and `f` was the best match of a source rule. */
  ghost function Receiver(p: Provider, cfg: Config, rules: seq<Rule>, live: seq<Managed>, q: Request,
                          w: Option<Entry>, f: Option<Entry>): Option<Entry>
    requires f.Some? ==> f.value.rule < |rules|
  {
    var marks := Marks(p, live, q);
    var c := Chosen(marks);
    Prevailing(w, Offered(c, CountOf(marks, c), SourceOption(rules, cfg, f), |rules|, |Sources(rules, cfg)|))
  }

  /** The meaning of a rollout for every request, after any run with weights, experiments and header routes coming
      and going. A request that carries the headers of a live managed route goes to the clone, for the chosen
      route, of the best source rule if that rule, with these headers counted, is more specific than the rule
      that received the request at the start. Every other request goes where it went at the start. */
  lemma {:induction false} RunRouting(p: Provider, cfg: Config, e: set<string>, ops: seq<Op>, start: RouteState,
                                      q: Request, w: Option<Entry>, f: Option<Entry>)
    requires |start.rules| <= MAX_INT
    requires UserRules(cfg, e, start.rules) && AllAllowed(e, start.rules, ops)
    requires Compatible(cfg, Sources(start.rules, cfg), ops)
    requires AllLiveDisjoint(cfg.kind, Sources(start.rules, cfg), Live(ops))
    requires Routed(p, cfg.kind, start.rules, q, w) && Leads(SourceEntries(p, cfg, start.rules, q), f)
    ensures Routed(p, cfg.kind, Run(cfg, ops, start).rules, q, Receiver(p, cfg, start.rules, Live(ops), q, w, f))
  {
    var sources, marks := Sources(start.rules, cfg), Marks(p, Live(ops), q);
    RunEntries(p, cfg, e, ops, start, q);
    EntriesBelow(p, cfg.kind, start.rules, q);
    EntriesBelow(p, cfg.kind, sources, q);
    SourceLeads(p, cfg, start.rules, q, f);
    AppendedLeads(Entries(p, cfg.kind, start.rules, q), Entries(p, cfg.kind, sources, q),
                  |start.rules|, |sources|, marks, w, SourceOption(start.rules, cfg, f));
  }

  /** The two matches that the theorem asks for exist for every request. */
  lemma {:induction false} SourceLeader(p: Provider, cfg: Config, rules: seq<Rule>, q: Request)
    returns (w: Option<Entry>, f: Option<Entry>)
    ensures Routed(p, cfg.kind, rules, q, w) && Leads(SourceEntries(p, cfg, rules, q), f)
  {
    w := RoutedOnce(p, cfg.kind, rules, q);
    f := LeaderExists(p, cfg.kind, rules, q, SourceEntries(p, cfg, rules, q));
  }

  /** The clone of rule `i` for a managed route. */
  function CloneFor(cfg: Config, rules: seq<Rule>, i: nat, m: Managed): Rule
    requires i < |rules|
  {
    Clone(cfg, rules[i], Names.RuleName(m.name, SourceIndex(rules, cfg, i)), m.headers)
  }

  lemma {:induction false} CloneForIsCanaryOnly(cfg: Config, rules: seq<Rule>, i: nat, m: Managed)
    requires i < |rules|
    ensures CanaryOnly(CloneFor(cfg, rules, i, m), cfg.canary)
  {
  }

  lemma {:induction false} PlaceInBlocks(cfg: Config, rules: seq<Rule>, live: seq<Managed>, c: nat, i: nat)
    requires c < |live| && i < |rules| && IsSource(rules[i], cfg)
    ensures var blocks, sources := Blocks(cfg, Sources(rules, cfg), live), Sources(rules, cfg);
            var at := Offset(c, |sources|) + SourceIndex(rules, cfg, i);
            at < |blocks| && blocks[at] == CloneFor(cfg, rules, i, live[c])
  {
    SourceAt(rules, cfg, i);
    BlockAt(cfg, Sources(rules, cfg), live, c, SourceIndex(rules, cfg, i));
  }

  lemma {:induction false} ClonePlace(cfg: Config, e: set<string>, ops: seq<Op>, start: RouteState, c: nat, i: nat)
    requires |start.rules| <= MAX_INT
    requires UserRules(cfg, e, start.rules) && AllAllowed(e, start.rules, ops)
    requires Compatible(cfg, Sources(start.rules, cfg), ops)
    requires c < |Live(ops)| && i < |start.rules| && IsSource(start.rules[i], cfg)
    ensures var after, sources := Run(cfg, ops, start).rules, Sources(start.rules, cfg);
            var at := |start.rules| + (Offset(c, |sources|) + SourceIndex(start.rules, cfg, i));
            at < |after| && after[at] == CloneFor(cfg, start.rules, i, Live(ops)[c])
  {
    hide Blocks, CloneFor, Live, Offset, Run, SourceIndex, Sources;
    PlaceInBlocks(cfg, start.rules, Live(ops), c, i);
    AfterRun(cfg, e, ops, start, Offset(c, |Sources(start.rules, cfg)|) + SourceIndex(start.rules, cfg, i));
  }

  /** The request carries the headers of a live route, and the best match of a source rule, with these headers
      counted, is more specific than the match that received the request at the start. */
  ghost predicate Diverted(p: Provider, live: seq<Managed>, q: Request, w: Option<Entry>, f: Option<Entry>) {
    var c := ChosenRoute(p, live, q);
    c.Some? && c.value < |live| && f.Some?
    && (w.None? || Less(w.value.key, Raise(f.value, HeaderCount(live[c.value].headers)).key))
  }

  /** What the receiver of the theorem above is: the one at the start, or the match with the same place in the
      clone of the rule of the best source match; and a clone sends everything to the canary service. */
  lemma {:induction false} ReceiverIsClone(p: Provider, cfg: Config, e: set<string>, ops: seq<Op>, start: RouteState,
                                           q: Request, w: Option<Entry>, f: Option<Entry>)
    requires |start.rules| <= MAX_INT
    requires UserRules(cfg, e, start.rules) && AllAllowed(e, start.rules, ops)
    requires Compatible(cfg, Sources(start.rules, cfg), ops)
    requires f.Some? ==> f.value.rule < |start.rules| && IsSource(start.rules[f.value.rule], cfg)
    ensures var after, r := Run(cfg, ops, start).rules, Receiver(p, cfg, start.rules, Live(ops), q, w, f);
            var c := ChosenRoute(p, Live(ops), q);
            if !Diverted(p, Live(ops), q, w, f) then r == w
            else r.Some? && r.value.at == f.value.at && r.value.rule < |after|
                 && CanaryOnly(after[r.value.rule], cfg.canary)
                 && after[r.value.rule] == CloneFor(cfg, start.rules, f.value.rule, Live(ops)[c.value])
  {
    hide AllAllowed, CloneFor, Compatible, Live, Marks, Offset, Run, SourceIndex, Sources, UserRules;
    var c, live := ChosenRoute(p, Live(ops), q), Live(ops);
    if c.Some? {
      MarkAt(p, live, q, c.value);
    }
    if Diverted(p, live, q, w, f) {
      var at := Offset(c.value, |Sources(start.rules, cfg)|) + SourceIndex(start.rules, cfg, f.value.rule);
      assert Receiver(p, cfg, start.rules, live, q, w, f).value.rule == |start.rules| + at;
      ClonePlace(cfg, e, ops, start, c.value, f.value.rule);
      CloneForIsCanaryOnly(cfg, start.rules, f.value.rule, live[c.value]);
    }
  }

  /** A request that a source rule received is diverted to a clone of that rule exactly if it carries the headers
      of a live route, unless the chosen one has an empty header list; one that no source rule accepts is not. */
  lemma {:induction false} SourceRequestsDiverted(p: Provider, cfg: Config, rules: seq<Rule>, live: seq<Managed>,
                                                  q: Request, w: Option<Entry>, f: Option<Entry>)
    requires Routed(p, cfg.kind, rules, q, w) && Leads(SourceEntries(p, cfg, rules, q), f)
    ensures f.None? ==> !Diverted(p, live, q, w, f)
    ensures w.Some? && IsSource(rules[w.value.rule], cfg) ==>
              var c := ChosenRoute(p, live, q);
              && f == w
              && (Diverted(p, live, q, w, f) <==> c.Some? && c.value < |live| && live[c.value].headers != [])
  {
    if w.Some? && IsSource(rules[w.value.rule], cfg) {
      assert w.value in SourceEntries(p, cfg, rules, q);
      LeaderIsUnique(SourceEntries(p, cfg, rules, q), w, f);
      var c := ChosenRoute(p, live, q);
      if c.Some? && c.value < |live| && live[c.value].headers != [] {
        SomeHeaderCounts(live[c.value].headers);
      }
    }
  }

  lemma {:induction false} AfterRun(cfg: Config, e: set<string>, ops: seq<Op>, start: RouteState, at: nat)
    requires |start.rules| <= MAX_INT
    requires UserRules(cfg, e, start.rules) && AllAllowed(e, start.rules, ops)
    requires Compatible(cfg, Sources(start.rules, cfg), ops)
    requires at < |Blocks(cfg, Sources(start.rules, cfg), Live(ops))|
    ensures var after := Run(cfg, ops, start).rules;
            |start.rules| + at < |after|
            && after[|start.rules| + at] == Blocks(cfg, Sources(start.rules, cfg), Live(ops))[at]
  {
    hide AllAllowed, Blocks, Compatible, Live, Run, Sources, UserRules, WeightsOf;
    var bare, blocks := Run(cfg, WeightsOf(ops), start).rules, Blocks(cfg, Sources(start.rules, cfg), Live(ops));
    WholeRun(cfg, e, ops, start);
    Isolation(cfg, e, ops, start);
    ConcatIndex(bare, blocks, |bare| + at);
  }
}
