/** Header lists of matches, by the field documentation of Gateway API v1.4.0: a match needs all its headers,
    and of several entries with equivalent names only the first counts. */
module HeaderMatching {
  import opened Gateway

  /** A request; `headers` is keyed by lower-case names, `line` is everything else. */
  datatype Request = Request(line: string, headers: map<string, string>)

  /** The parts the standard leaves to the implementation or that are not modelled further: whether the
      criteria of a match accept a request, whether a header value is accepted, and the precedence of a
      regular expression path. */
  datatype Provider = Provider(
    accepts: (Criteria, string) -> bool,
    value: (HeaderType, string, string) -> bool,
    regexRank: string -> (int, int))

  function LowerChar(c: char): char {
    if 'A' <= c <= 'Z' then 'a' + (c - 'A') else c
  }

  /** Equivalence of header names ignores case: section 5.1 of RFC 9110. */
  function Lower(name: string): string {
    seq(|name|, i requires 0 <= i < |name| => LowerChar(name[i]))
  }

  /** Two names are equivalent exactly if they are equal letter by letter up to ASCII case. */
  lemma {:induction false} Equivalent(a: string, b: string)
    ensures Lower(a) == Lower(b) <==>
            |a| == |b| && forall i :: 0 <= i < |a| ==>
              a[i] == b[i]
              || ('A' <= a[i] <= 'Z' && b[i] as int == a[i] as int + 32)
              || ('A' <= b[i] <= 'Z' && a[i] as int == b[i] as int + 32)
  {
    forall i | 0 <= i < |a| && |a| == |b|
      ensures LowerChar(a[i]) == LowerChar(b[i]) <==>
              a[i] == b[i]
              || ('A' <= a[i] <= 'Z' && b[i] as int == a[i] as int + 32)
              || ('A' <= b[i] <= 'Z' && a[i] as int == b[i] as int + 32)
    {
    }
    if Lower(a) == Lower(b) {
      assert |Lower(a)| == |Lower(b)|;
      assert forall i :: 0 <= i < |a| ==> Lower(a)[i] == LowerChar(a[i]) && Lower(b)[i] == LowerChar(b[i]);
    }
  }

  predicate HasEquivalent(headers: seq<HeaderMatch>, name: string) {
    exists i :: 0 <= i < |headers| && Lower(headers[i].name) == Lower(name)
  }

  /** An earlier entry has an equivalent name, so this one is ignored. */
  predicate Ignored(headers: seq<HeaderMatch>, i: nat)
    requires i < |headers|
  {
    exists j :: 0 <= j < i && Lower(headers[j].name) == Lower(headers[i].name)
  }

  function TypeOf(h: HeaderMatch): HeaderType {
    if h.kind.Some? then h.kind.value else Exact
  }

  predicate HeaderHolds(p: Provider, h: HeaderMatch, q: Request) {
    Lower(h.name) in q.headers && p.value(TypeOf(h), h.value, q.headers[Lower(h.name)])
  }

  /** A header match without a type is exact, and one without its header in the request does not hold. */
  lemma {:induction false} HeaderDefaults(p: Provider, name: string, value: string, q: Request)
    ensures HeaderHolds(p, HeaderMatch(name, None, value), q) <==>
            HeaderHolds(p, HeaderMatch(name, Some(Exact), value), q)
    ensures HeaderHolds(p, HeaderMatch(name, Some(Exact), value), q) ==> Lower(name) in q.headers
  {
  }

  ghost predicate HeadersHold(p: Provider, headers: seq<HeaderMatch>, q: Request) {
    forall i :: 0 <= i < |headers| && !Ignored(headers, i) ==> HeaderHolds(p, headers[i], q)
  }

  function NamesIn(headers: seq<HeaderMatch>): set<string> {
    set i | 0 <= i < |headers| :: Lower(headers[i].name)
  }

  /** The number of entries that count: one for each name. */
  function HeaderCount(headers: seq<HeaderMatch>): nat {
    |NamesIn(headers)|
  }

  // ----- merged header lists

  predicate Disjoint(a: seq<HeaderMatch>, b: seq<HeaderMatch>) {
    forall i :: 0 <= i < |b| ==> !HasEquivalent(a, b[i].name)
  }

  lemma {:induction false} IgnoredInMerge(a: seq<HeaderMatch>, b: seq<HeaderMatch>, i: nat)
    requires i < |a + b|
    ensures Ignored(a + b, i) <==>
            if i < |a| then Ignored(a, i) else HasEquivalent(a, b[i - |a|].name) || Ignored(b, i - |a|)
  {
    assert forall j :: 0 <= j < |a| ==> (a + b)[j] == a[j];
    assert forall j :: 0 <= j < |b| ==> (a + b)[|a| + j] == b[j];
    if i >= |a| && Ignored(a + b, i) {
      var j :| 0 <= j < i && Lower((a + b)[j].name) == Lower((a + b)[i].name);
      assert j >= |a| ==> Lower(b[j - |a|].name) == Lower(b[i - |a|].name);
    }
  }

  /** What a merged header list asks for: all that the source asks for, and those canary headers whose names
      the source does not use. The others are ignored. */
  lemma {:induction false} MergedHold(p: Provider, source: seq<HeaderMatch>, canary: seq<HeaderMatch>, q: Request)
    ensures HeadersHold(p, source + canary, q) <==>
            HeadersHold(p, source, q)
            && forall k :: 0 <= k < |canary| && !Ignored(canary, k) && !HasEquivalent(source, canary[k].name) ==>
                 HeaderHolds(p, canary[k], q)
  {
    var merged := source + canary;
    forall i | 0 <= i < |merged|
      ensures Ignored(merged, i) <==>
              if i < |source| then Ignored(source, i)
              else HasEquivalent(source, canary[i - |source|].name) || Ignored(canary, i - |source|)
    {
      IgnoredInMerge(source, canary, i);
    }
    if HeadersHold(p, merged, q) {
      forall k | 0 <= k < |canary| && !Ignored(canary, k) && !HasEquivalent(source, canary[k].name)
        ensures HeaderHolds(p, canary[k], q)
      {
        assert !Ignored(merged, |source| + k) && merged[|source| + k] == canary[k];
      }
      forall i | 0 <= i < |source| && !Ignored(source, i)
        ensures HeaderHolds(p, source[i], q)
      {
        assert !Ignored(merged, i);
      }
    }
  }

  /** With disjoint names the merged list asks for both lists. */
  lemma {:induction false} MergedHoldDisjoint(p: Provider, source: seq<HeaderMatch>, canary: seq<HeaderMatch>,
                                              q: Request)
    requires Disjoint(source, canary)
    ensures HeadersHold(p, source + canary, q) <==> HeadersHold(p, source, q) && HeadersHold(p, canary, q)
  {
    MergedHold(p, source, canary, q);
  }

  lemma {:induction false} MergedCount(source: seq<HeaderMatch>, canary: seq<HeaderMatch>)
    requires Disjoint(source, canary)
    ensures HeaderCount(source + canary) == HeaderCount(source) + HeaderCount(canary)
  {
    forall name
      ensures name in NamesIn(source + canary) <==> name in NamesIn(source) || name in NamesIn(canary)
    {
      if i :| 0 <= i < |source| && Lower(source[i].name) == name {
        assert (source + canary)[i] == source[i];
      }
      if i :| 0 <= i < |canary| && Lower(canary[i].name) == name {
        assert (source + canary)[|source| + i] == canary[i];
      }
    }
    assert NamesIn(source + canary) == NamesIn(source) + NamesIn(canary);
    assert NamesIn(source) !! NamesIn(canary);
  }

  lemma {:induction false} SomeHeaderCounts(headers: seq<HeaderMatch>)
    requires headers != []
    ensures HeaderCount(headers) >= 1
  {
    assert Lower(headers[0].name) in NamesIn(headers);
  }

  /** The places of the entries that are not ignored. */
  function Counted(headers: seq<HeaderMatch>): set<nat> {
    set i: nat | i < |headers| && !Ignored(headers, i)
  }

  lemma {:induction false} IgnoredInPrefix(headers: seq<HeaderMatch>, n: nat, i: nat)
    requires i < n <= |headers|
    ensures Ignored(headers[..n], i) <==> Ignored(headers, i)
  {
    if Ignored(headers, i) {
      var j :| 0 <= j < i && Lower(headers[j].name) == Lower(headers[i].name);
      assert headers[..n][j] == headers[j];
    }
  }

  lemma {:induction false} CountedNext(headers: seq<HeaderMatch>, n: nat)
    requires |headers| == n + 1
    ensures |Counted(headers)| == |Counted(headers[..n])| + if Ignored(headers, n) then 0 else 1
  {
    var before := Counted(headers[..n]);
    forall i: nat | i < n
      ensures i in before <==> i in Counted(headers)
    {
      IgnoredInPrefix(headers, n, i);
    }
    assert n !in before;
    assert Counted(headers) == if Ignored(headers, n) then before else before + {n};
  }

  lemma {:induction false} CountNext(headers: seq<HeaderMatch>, n: nat)
    requires |headers| == n + 1
    ensures HeaderCount(headers) == HeaderCount(headers[..n]) + if Ignored(headers, n) then 0 else 1
  {
    var before, name := NamesIn(headers[..n]), Lower(headers[n].name);
    assert forall i :: 0 <= i < n ==> headers[..n][i] == headers[i];
    assert NamesIn(headers) == before + {name};
    assert Ignored(headers, n) <==> name in before;
  }

  lemma {:induction false} NothingCounted()
    ensures HeaderCount([]) == 0 && Counted([]) == {}
  {
    var none: seq<HeaderMatch> := [];
    assert NamesIn(none) == {};
  }

  /** The precedence counts names, a match needs the entries that are not ignored: these are equally many. */
  lemma {:induction false} CountedEntries(headers: seq<HeaderMatch>)
    ensures HeaderCount(headers) == |Counted(headers)|
  {
    hide Ignored, NamesIn;
    if headers == [] {
      NothingCounted();
    } else {
      var n := |headers| - 1;
      CountedEntries(headers[..n]);
      CountedNext(headers, n);
      CountNext(headers, n);
    }
  }

  /** Every canary header that the source's names hide asks for what the source asks for anyway. */
  ghost predicate Harmless(source: seq<HeaderMatch>, canary: seq<HeaderMatch>) {
    forall j, k :: 0 <= j < |source| && 0 <= k < |canary| && !Ignored(source, j) && !Ignored(canary, k)
                   && Lower(source[j].name) == Lower(canary[k].name)
      ==> TypeOf(source[j]) == TypeOf(canary[k]) && source[j].value == canary[k].value
  }

  ghost predicate OnlyCanaryRequests(source: seq<HeaderMatch>, canary: seq<HeaderMatch>) {
    forall p: Provider, q: Request :: HeadersHold(p, source + canary, q) ==> HeadersHold(p, canary, q)
  }

  /** The managed match accepts only requests with the canary headers, for every way of comparing values,
      exactly when no header of the source hides a different canary header. The code compares header names
      exactly and merges them without a check, so the user has to see to it. */
  lemma {:induction false} CanaryRequestsOnly(source: seq<HeaderMatch>, canary: seq<HeaderMatch>)
    ensures OnlyCanaryRequests(source, canary) <==> Harmless(source, canary)
  {
    if Harmless(source, canary) {
      forall p: Provider, q: Request | HeadersHold(p, source + canary, q)
        ensures HeadersHold(p, canary, q)
      {
        HarmlessHolds(p, source, canary, q);
      }
    } else {
      var j, k :| 0 <= j < |source| && 0 <= k < |canary| && !Ignored(source, j) && !Ignored(canary, k)
        && Lower(source[j].name) == Lower(canary[k].name)
        && !(TypeOf(source[j]) == TypeOf(canary[k]) && source[j].value == canary[k].value);
      HiddenHeader(source, canary, j, k);
    }
  }

  /** The first entry with a given name is not ignored. */
  lemma {:induction false} FirstEquivalent(headers: seq<HeaderMatch>, i: nat) returns (j: nat)
    requires i < |headers|
    ensures j <= i && !Ignored(headers, j) && Lower(headers[j].name) == Lower(headers[i].name)
    decreases i
  {
    if Ignored(headers, i) {
      var k :| 0 <= k < i && Lower(headers[k].name) == Lower(headers[i].name);
      j := FirstEquivalent(headers, k);
    } else {
      j := i;
    }
  }

  lemma {:induction false} HarmlessHolds(p: Provider, source: seq<HeaderMatch>, canary: seq<HeaderMatch>, q: Request)
    requires Harmless(source, canary) && HeadersHold(p, source + canary, q)
    ensures HeadersHold(p, canary, q)
  {
    MergedHold(p, source, canary, q);
    forall k | 0 <= k < |canary| && !Ignored(canary, k)
      ensures HeaderHolds(p, canary[k], q)
    {
      if HasEquivalent(source, canary[k].name) {
        var i :| 0 <= i < |source| && Lower(source[i].name) == Lower(canary[k].name);
        var j := FirstEquivalent(source, i);
        assert HeaderHolds(p, source[j], q);
      }
    }
  }

  /** A gateway that accepts everything but the value "other" for one header. */
  function Picky(hidden: HeaderMatch): Provider {
    Provider((c, l) => true,
             (t, v, actual) => !(t == TypeOf(hidden) && v == hidden.value && actual == "other"),
             r => (0, 0))
  }

  /** A request with all these headers, one of them with the value "other". */
  function Probe(names: set<string>, name: string): Request {
    Request("", map n | n in names :: if n == name then "other" else "")
  }

  lemma {:induction false} FirstIsUnique(headers: seq<HeaderMatch>, i: nat, j: nat)
    requires i < |headers| && j < |headers| && !Ignored(headers, i) && !Ignored(headers, j)
    requires Lower(headers[i].name) == Lower(headers[j].name)
    ensures i == j
  {
  }

  /** A request that only the hidden canary header would have refused. */
  lemma {:induction false} HiddenHeader(source: seq<HeaderMatch>, canary: seq<HeaderMatch>, j: nat, k: nat)
    requires j < |source| && k < |canary| && !Ignored(source, j) && !Ignored(canary, k)
    requires Lower(source[j].name) == Lower(canary[k].name)
    requires !(TypeOf(source[j]) == TypeOf(canary[k]) && source[j].value == canary[k].value)
    ensures var p := Picky(canary[k]);
            var q := Probe(NamesIn(source) + NamesIn(canary), Lower(canary[k].name));
            HeadersHold(p, source + canary, q) && !HeadersHold(p, canary, q)
  {
    var name := Lower(canary[k].name);
    var p, q := Picky(canary[k]), Probe(NamesIn(source) + NamesIn(canary), name);
    assert name in NamesIn(canary);
    assert !HeaderHolds(p, canary[k], q);
    MergedHold(p, source, canary, q);
    forall i | 0 <= i < |source| && !Ignored(source, i)
      ensures HeaderHolds(p, source[i], q)
    {
      assert Lower(source[i].name) in NamesIn(source);
      if Lower(source[i].name) == name {
        FirstIsUnique(source, i, j);
      }
    }
    forall i | 0 <= i < |canary| && !HasEquivalent(source, canary[i].name)
      ensures HeaderHolds(p, canary[i], q)
    {
      assert Lower(canary[i].name) in NamesIn(canary);
      assert Lower(source[j].name) == name;
    }
  }
}
