/** Which of several accepting matches receives a request, and how that changes when the injected blocks are
    put behind the rules. Nothing here depends on what a match looks like. */
module Precedence {
  import opened Gateway

  /** The precedence of a match, most important part first. For HTTP: exact path, length of the path, verb,
      headers, query parameters. For gRPC: length of the service, length of the method, headers. */
  datatype Key = Key(a: int, b: int, c: int, headers: int, d: int)

  predicate Less(x: Key, y: Key) {
    if x.a != y.a then x.a < y.a
    else if x.b != y.b then x.b < y.b
    else if x.c != y.c then x.c < y.c
    else if x.headers != y.headers then x.headers < y.headers
    else x.d < y.d
  }

  /** An accepting match: its rule, its place in the rule, its precedence. */
  datatype Entry = Entry(rule: nat, at: nat, key: Key)

  predicate Before(x: Entry, y: Entry) {
    Less(y.key, x.key) || (x.key == y.key && (x.rule < y.rule || (x.rule == y.rule && x.at <= y.at)))
  }

  ghost predicate Best(s: iset<Entry>, e: Entry) {
    e in s && forall x :: x in s ==> Before(e, x)
  }

  /** The best entry of a set, if the set has entries. */
  ghost predicate Leads(s: iset<Entry>, leader: Option<Entry>) {
    if leader.Some? then Best(s, leader.value) else s == iset{}
  }

  lemma {:induction false} LeaderOfTwo(s: iset<Entry>, leader: Option<Entry>, next: Entry)
    requires Leads(s, leader)
    ensures Leads(s + iset{next}, Some(if leader.Some? && Before(leader.value, next) then leader.value else next))
  {
  }

  lemma {:induction false} LeaderIsUnique(s: iset<Entry>, e: Option<Entry>, f: Option<Entry>)
    requires Leads(s, e) && Leads(s, f)
    ensures e == f
  {
    if e.Some? && f.Some? {
      BestIsUnique(s, e.value, f.value);
    }
  }

  lemma {:induction false} BestIsUnique(s: iset<Entry>, e: Entry, f: Entry)
    requires Best(s, e) && Best(s, f)
    ensures e == f
  {
    assert Before(e, f) && Before(f, e);
  }

  // ----- copies of a set of entries

  function Shift(e: Entry, n: nat): Entry {
    e.(rule := e.rule + n)
  }

  function Raise(e: Entry, n: nat): Entry {
    e.(key := e.key.(headers := e.key.headers + n))
  }

  /** The entry that `Raise` and `Shift` turn into `e`. */
  function Original(e: Entry, headers: nat, shift: nat): (o: Entry)
    requires shift <= e.rule
    ensures Shift(Raise(o, headers), shift) == e
  {
    e.(rule := e.rule - shift, key := e.key.(headers := e.key.headers - headers))
  }

  /** The entries of `s` with more headers, in rules further back. */
  ghost function Copy(s: iset<Entry>, headers: nat, shift: nat): iset<Entry> {
    iset e: Entry | shift <= e.rule && Original(e, headers, shift) in s
  }

  function Copied(f: Option<Entry>, headers: nat, shift: nat): Option<Entry> {
    if f.None? then None else Some(Shift(Raise(f.value, headers), shift))
  }

  lemma {:induction false} CopyLeads(s: iset<Entry>, headers: nat, shift: nat, f: Option<Entry>)
    requires Leads(s, f)
    ensures Leads(Copy(s, headers, shift), Copied(f, headers, shift))
  {
    if f.Some? {
      var g := Shift(Raise(f.value, headers), shift);
      assert Original(g, headers, shift) == f.value;
      forall x | x in Copy(s, headers, shift)
        ensures Before(g, x)
      {
        assert Before(f.value, Original(x, headers, shift));
      }
    }
  }

  ghost predicate Below(s: iset<Entry>, n: nat) {
    forall e {:trigger e in s} :: e in s ==> e.rule < n
  }

  lemma {:induction false} CopyBelow(s: iset<Entry>, headers: nat, shift: nat, n: nat)
    requires Below(s, n)
    ensures Below(Copy(s, headers, shift), shift + n)
  {
    forall e | e in Copy(s, headers, shift)
      ensures e.rule < shift + n
    {
      assert Original(e, headers, shift) in s;
    }
  }

  /** Of two leaders, the one further back prevails exactly if its key is strictly greater. */
  function Prevailing(e: Option<Entry>, g: Option<Entry>): Option<Entry> {
    if g.Some? && (e.None? || Less(e.value.key, g.value.key)) then g else e
  }

  lemma {:induction false} UnionLeads(a: iset<Entry>, b: iset<Entry>, n: nat, e: Option<Entry>, g: Option<Entry>)
    requires Below(a, n) && Leads(a, e) && Leads(b, g) && (g.Some? ==> g.value.rule >= n)
    ensures Leads(a + b, Prevailing(e, g))
  {
    var best := Prevailing(e, g);
    forall x | x in a + b
      ensures best.Some? && Before(best.value, x)
    {
      assert x in a ==> e.Some? && Before(e.value, x);
      assert x in b ==> g.Some? && Before(g.value, x);
    }
  }

  // ----- live managed routes, as a request sees them

  /** Whether the request carries the headers of a route, and how many these are. */
  datatype Mark = Mark(holds: bool, headers: nat)

  /** Of the routes whose headers the request carries, the one with the most headers, the first on ties. */
  function Chosen(marks: seq<Mark>): (c: Option<nat>)
    ensures c.Some? ==> c.value < |marks| && marks[c.value].holds
  {
    if marks == [] then None
    else
      var n := |marks| - 1;
      var c := Chosen(marks[..n]);
      if Takes(c, CountOf(marks, c), marks[n]) then Some(n) else c
  }

  function CountOf(marks: seq<Mark>, c: Option<nat>): nat {
    if c.Some? && c.value < |marks| then marks[c.value].headers else 0
  }

  /** Whether a later route is chosen in place of `c`, which has `headers` headers. */
  predicate Takes(c: Option<nat>, headers: nat, later: Mark) {
    later.holds && !(c.Some? && headers >= later.headers)
  }

  /** Route `k` is not among those whose headers the request carries, or is set aside for route `c`. */
  predicate Outranked(marks: seq<Mark>, k: nat, c: Option<nat>)
    requires k < |marks|
  {
    marks[k].holds ==>
      (c.Some? && c.value < |marks|
       && if k < c.value then marks[k].headers < marks[c.value].headers
          else marks[k].headers <= marks[c.value].headers)
  }

  lemma {:induction false} ChosenIsBest(marks: seq<Mark>, k: nat)
    requires k < |marks|
    ensures Outranked(marks, k, Chosen(marks))
  {
    var n := |marks| - 1;
    if k < n {
      ChosenIsBest(marks[..n], k);
      assert marks[..n][k] == marks[k];
    }
  }

  /** The number of rules in `c` blocks of `size` rules. */
  function Offset(c: nat, size: nat): nat {
    if c == 0 then 0 else Offset(c - 1, size) + size
  }

  /** The entries `a` of `front` rules with those of the blocks behind them, each made from the entries `s` of
      `size` source rules and silent unless the request carries its headers. */
  ghost function Appended(a: iset<Entry>, s: iset<Entry>, front: nat, size: nat, marks: seq<Mark>): iset<Entry> {
    if marks == [] then a
    else
      var n := |marks| - 1;
      var before := Appended(a, s, front, size, marks[..n]);
      if marks[n].holds then before + Copy(s, marks[n].headers, front + Offset(n, size)) else before
  }

  lemma {:induction false} AppendedBelow(a: iset<Entry>, s: iset<Entry>, front: nat, size: nat, marks: seq<Mark>)
    requires Below(a, front) && Below(s, size)
    ensures Below(Appended(a, s, front, size, marks), front + Offset(|marks|, size))
  {
    if marks != [] {
      var n := |marks| - 1;
      AppendedBelow(a, s, front, size, marks[..n]);
      CopyBelow(s, marks[n].headers, front + Offset(n, size), size);
    }
  }

  /** The counterpart, in the block of the chosen route, of the best entry `f` of the source rules. */
  function Offered(c: Option<nat>, headers: nat, f: Option<Entry>, front: nat, size: nat): Option<Entry> {
    if c.None? then None else Copied(f, headers, front + Offset(c.value, size))
  }

  /** One more block whose headers the request carries: its copy prevails exactly as if only the blocks of the
      chosen routes had been compared. */
  lemma {:induction false} PrevailingNext(c: Option<nat>, headers: nat, n: nat, later: Mark, e: Option<Entry>,
                                          f: Option<Entry>, front: nat, size: nat)
    requires later.holds
    ensures var before := Prevailing(e, Offered(c, headers, f, front, size));
            var takes := Takes(c, headers, later);
            Prevailing(before, Copied(f, later.headers, front + Offset(n, size)))
            == Prevailing(e, Offered(if takes then Some(n) else c, if takes then later.headers else headers,
                                     f, front, size))
  {
  }

  lemma {:induction false} ChosenNext(marks: seq<Mark>)
    requires marks != []
    ensures var n := |marks| - 1;
            var c, d := Chosen(marks[..n]), Chosen(marks);
            var takes := Takes(c, CountOf(marks[..n], c), marks[n]);
            d == (if takes then Some(n) else c)
            && CountOf(marks, d) == if takes then marks[n].headers else CountOf(marks[..n], c)
  {
  }

  /** The step of the next lemma: `before` holds what has been appended so far. */
  lemma {:induction false} AppendedStep(before: iset<Entry>, s: iset<Entry>, c: Option<nat>, headers: nat, n: nat,
                                        later: Mark, e: Option<Entry>, f: Option<Entry>, front: nat, size: nat)
    requires Below(before, front + Offset(n, size)) && Leads(s, f)
    requires Leads(before, Prevailing(e, Offered(c, headers, f, front, size)))
    ensures var takes := Takes(c, headers, later);
            Leads(if later.holds then before + Copy(s, later.headers, front + Offset(n, size)) else before,
                  Prevailing(e, Offered(if takes then Some(n) else c, if takes then later.headers else headers,
                                        f, front, size)))
  {
    hide Prevailing, Offered, Leads, Copy;
    if later.holds {
      var shift := front + Offset(n, size);
      PrevailingNext(c, headers, n, later, e, f, front, size);
      CopyLeads(s, later.headers, shift, f);
      UnionLeads(before, Copy(s, later.headers, shift), shift,
                 Prevailing(e, Offered(c, headers, f, front, size)), Copied(f, later.headers, shift));
    }
  }

  lemma {:induction false} NothingOffered(e: Option<Entry>, f: Option<Entry>, front: nat, size: nat)
    ensures Prevailing(e, Offered(Chosen([]), CountOf([], Chosen([])), f, front, size)) == e
  {
  }

  /** With the blocks of any routes behind the rules, the best entry is the old one, unless the best entry of the
      source rules, raised by the headers of the chosen route, has a strictly greater key. */
  lemma {:induction false} AppendedLeads(a: iset<Entry>, s: iset<Entry>, front: nat, size: nat, marks: seq<Mark>,
                                         e: Option<Entry>, f: Option<Entry>)
    requires Below(a, front) && Below(s, size) && Leads(a, e) && Leads(s, f)
    ensures var c := Chosen(marks);
            Leads(Appended(a, s, front, size, marks), Prevailing(e, Offered(c, CountOf(marks, c), f, front, size)))
  {
    hide Prevailing, Offered, Takes, Leads, Copy, Below, Chosen, CountOf;
    if marks == [] {
      NothingOffered(e, f, front, size);
    } else {
      var n := |marks| - 1;
      var rest := marks[..n];
      var c := Chosen(rest);
      AppendedLeads(a, s, front, size, rest, e, f);
      AppendedBelow(a, s, front, size, rest);
      ChosenNext(marks);
      AppendedStep(Appended(a, s, front, size, rest), s, c, CountOf(rest, c), n, marks[n], e, f, front, size);
    }
  }

  lemma {:induction false} AppendedSilent(a: iset<Entry>, s: iset<Entry>, front: nat, size: nat, marks: seq<Mark>)
    requires forall k :: 0 <= k < |marks| ==> !marks[k].holds
    ensures Appended(a, s, front, size, marks) == a
  {
    if marks != [] {
      AppendedSilent(a, s, front, size, marks[..|marks| - 1]);
    }
  }
}
