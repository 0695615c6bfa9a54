/** One call over all routes a rollout controls: HTTP, gRPC, TCP and TLS routes in this order, stopping at the
    first failure. */
module Dispatch {
  import opened Gateway
  import opened Labels
  import opened Rules
  import opened Operations
  import opened Routes
  import Store

  datatype Target = Target(kind: Kind, name: string)

  const NO_ROUTES := "No routes configured. At least one of 'httpRoutes', 'grpcRoutes', 'tcpRoutes', "
    + "'tlsRoutes', 'httpRoute', 'grpcRoute', 'tcpRoute' or 'tlsRoute' must be set"
  const UNREADABLE := "the API server did not return the route"
  const UNWRITABLE := "the API server did not store the route"

  type RouteMap = map<Target, RouteState>

  /** One call: what is asked of every route, and the routes that cannot be read or written during it. */
  datatype Order = Order(cfg: Config, op: Op, unread: set<Target>, unwritten: set<Target>)

  /** The configured and discovered routes; the same route may be listed more than once. */
  datatype Listed = Listed(name: string, useHeaderRoutes: bool)

  datatype Lists = Lists(http: seq<Listed>, grpc: seq<Listed>, tcp: seq<Listed>, tls: seq<Listed>)

  ghost function Asked(o: Order, t: Target, route: RouteState): Outcome {
    Apply(o.cfg.(kind := t.kind), o.op, route)
  }

  ghost function After(o: Order, t: Target, route: RouteState): RouteState {
    match Asked(o, t, route)
    case Commit(after) => after
    case Unchanged => route
    case Fail(_) => route
  }

  /** A match list without a value is rejected before any route is read. */
  predicate Malformed(op: Op) {
    op.SetHeader? && op.wanted.Some? && !ValidHeaderRules(op.wanted.value)
  }

  /** The error of one route, if any. Only a changed route is written. */
  ghost function ErrorOf(o: Order, routes: RouteMap, t: Target): Option<string> {
    if Malformed(o.op) then Some(INVALID_HEADER_MATCH_TYPE)
    else if t !in routes || t in o.unread then Some(UNREADABLE)
    else match Asked(o, t, routes[t])
      case Commit(_) => if t in o.unwritten then Some(UNWRITABLE) else None
      case Unchanged => None
      case Fail(error) => Some(error)
  }

  ghost function AfterOne(o: Order, routes: RouteMap, t: Target): RouteMap {
    if ErrorOf(o, routes, t).Some? then routes else routes[t := After(o, t, routes[t])]
  }

  datatype Reply = Reply(routes: RouteMap, error: Option<string>)

  ghost function Sweep(o: Order, routes: RouteMap, targets: seq<Target>): Reply {
    if targets == [] then Reply(routes, None)
    else if ErrorOf(o, routes, targets[0]).Some? then Reply(routes, ErrorOf(o, routes, targets[0]))
    else Sweep(o, AfterOne(o, routes, targets[0]), targets[1..])
  }

  lemma {:induction false} SweepConcat(o: Order, routes: RouteMap, a: seq<Target>, b: seq<Target>)
    ensures Sweep(o, routes, a + b) ==
            var first := Sweep(o, routes, a);
            if first.error.Some? then first else Sweep(o, first.routes, b)
  {
    if a == [] {
      assert a + b == b;
    } else {
      assert (a + b)[1..] == a[1..] + b;
      if ErrorOf(o, routes, a[0]).None? {
        SweepConcat(o, AfterOne(o, routes, a[0]), a[1..], b);
      }
    }
  }

  /** The routes of one list that take part: header routes only concern those that are marked for them. */
  function Targets(op: Op, kind: Kind, list: seq<Listed>): seq<Target> {
    if list == [] then []
    else
      (if op.SetWeight? || list[0].useHeaderRoutes then [Target(kind, list[0].name)] else [])
      + Targets(op, kind, list[1..])
  }

  function AllTargets(op: Op, lists: Lists): seq<Target> {
    Targets(op, Http, lists.http) + Targets(op, Grpc, lists.grpc)
    + if op.SetWeight? then Targets(op, Tcp, lists.tcp) + Targets(op, Tls, lists.tls) else []
  }

  /** Only setting a weight reports that there is no route. */
  ghost function Called(o: Order, routes: RouteMap, lists: Lists): Reply {
    if o.op.SetWeight? && lists == Lists([], [], [], []) then Reply(routes, Some(NO_ROUTES))
    else Sweep(o, routes, AllTargets(o.op, lists))
  }

  // ----- which routes a call reaches, and what it does to one

  function ListOf(lists: Lists, kind: Kind): seq<Listed> {
    match kind
    case Http => lists.http
    case Grpc => lists.grpc
    case Tcp => lists.tcp
    case Tls => lists.tls
  }

  function Rank(kind: Kind): nat {
    match kind
    case Http => 0
    case Grpc => 1
    case Tcp => 2
    case Tls => 3
  }

  /** The place of an entry in the four lists. */
  datatype Place = Place(kind: Kind, index: nat)

  predicate Precedes(a: Place, b: Place) {
    Rank(a.kind) < Rank(b.kind) || (a.kind == b.kind && a.index < b.index)
  }

  /** Setting a weight concerns every entry; header routes only the marked ones of HTTP and gRPC routes. */
  predicate TakesPart(op: Op, kind: Kind, entry: Listed) {
    op.SetWeight? || ((kind == Http || kind == Grpc) && entry.useHeaderRoutes)
  }

  /** The targets are the entries at these places, in the order HTTP, gRPC, TCP, TLS and then of the lists. */
  ghost predicate InListOrder(lists: Lists, targets: seq<Target>, places: seq<Place>) {
    |places| == |targets|
    && (forall k :: 0 <= k < |places| ==>
          var list := ListOf(lists, places[k].kind);
          places[k].index < |list| && targets[k] == Target(places[k].kind, list[places[k].index].name))
    && forall k, l :: 0 <= k < l < |places| ==> Precedes(places[k], places[l])
  }

  /** The places among those of the kinds `kinds` are those of the entries that take part. */
  ghost predicate Complete(op: Op, lists: Lists, kinds: set<Kind>, places: seq<Place>) {
    (forall k :: 0 <= k < |places| ==> places[k].kind in kinds)
    && forall p: Place :: p.kind in kinds && p.index < |ListOf(lists, p.kind)| ==>
         (p in places <==> TakesPart(op, p.kind, ListOf(lists, p.kind)[p.index]))
  }

  lemma {:induction false} TargetsNext(op: Op, kind: Kind, list: seq<Listed>)
    requires list != []
    ensures var n := |list| - 1;
            Targets(op, kind, list) == Targets(op, kind, list[..n])
              + if op.SetWeight? || list[n].useHeaderRoutes then [Target(kind, list[n].name)] else []
  {
    var n := |list| - 1;
    if n > 0 {
      TargetsNext(op, kind, list[1..]);
      assert list[1..][..n - 1] == list[..n][1..];
    } else {
      assert list[1..] == [];
    }
  }

  /** The entries of one list that take part, each once and in order. */
  lemma {:induction false} ListTargets(op: Op, kind: Kind, list: seq<Listed>)
    returns (entries: seq<Listed>, at: seq<nat>)
    requires kind == Http || kind == Grpc || op.SetWeight?
    ensures Picks(list, entries, at)
    ensures forall i :: 0 <= i < |list| ==> (i in at <==> TakesPart(op, kind, list[i]))
    ensures var targets := Targets(op, kind, list);
            |targets| == |entries| && forall k :: 0 <= k < |entries| ==> targets[k] == Target(kind, entries[k].name)
  {
    entries, at := [], [];
    if list != [] {
      var n := |list| - 1;
      entries, at := ListTargets(op, kind, list[..n]);
      PickNext(list, entries, at);
      TargetsNext(op, kind, list);
      if TakesPart(op, kind, list[n]) {
        entries, at := entries + [list[n]], at + [n];
      }
    }
  }

  function PlacesOf(kind: Kind, at: seq<nat>): (places: seq<Place>)
    ensures |places| == |at| && forall k :: 0 <= k < |at| ==> places[k] == Place(kind, at[k])
  {
    seq(|at|, k requires 0 <= k < |at| => Place(kind, at[k]))
  }

  lemma {:induction false} PlaceIn(kind: Kind, at: seq<nat>, i: nat)
    ensures Place(kind, i) in PlacesOf(kind, at) <==> i in at
  {
    if k :| 0 <= k < |at| && at[k] == i {
      assert PlacesOf(kind, at)[k] == Place(kind, i);
    }
  }

  lemma {:induction false} KindInOrder(lists: Lists, kind: Kind, targets: seq<Target>, entries: seq<Listed>,
                                       at: seq<nat>)
    requires Picks(ListOf(lists, kind), entries, at) && |targets| == |entries|
    requires forall k :: 0 <= k < |entries| ==> targets[k] == Target(kind, entries[k].name)
    ensures InListOrder(lists, targets, PlacesOf(kind, at))
  {
    hide ListOf, Rank;
  }

  lemma {:induction false} KindComplete(op: Op, lists: Lists, kind: Kind, at: seq<nat>)
    requires forall i :: 0 <= i < |ListOf(lists, kind)| ==> (i in at <==> TakesPart(op, kind, ListOf(lists, kind)[i]))
    ensures Complete(op, lists, {kind}, PlacesOf(kind, at))
  {
    hide ListOf, TakesPart;
    forall p: Place | p.kind in {kind} && p.index < |ListOf(lists, p.kind)|
      ensures p in PlacesOf(kind, at) <==> TakesPart(op, p.kind, ListOf(lists, p.kind)[p.index])
    {
      assert p == Place(kind, p.index);
      PlaceIn(kind, at, p.index);
    }
  }

  lemma {:induction false} KindTargets(op: Op, lists: Lists, kind: Kind) returns (places: seq<Place>)
    requires kind == Http || kind == Grpc || op.SetWeight?
    ensures InListOrder(lists, Targets(op, kind, ListOf(lists, kind)), places) && Complete(op, lists, {kind}, places)
  {
    hide InListOrder, Complete, Targets, TakesPart, ListOf;
    var entries, at := ListTargets(op, kind, ListOf(lists, kind));
    places := PlacesOf(kind, at);
    KindInOrder(lists, kind, Targets(op, kind, ListOf(lists, kind)), entries, at);
    KindComplete(op, lists, kind, at);
  }

  lemma {:induction false} JoinPlaces(op: Op, lists: Lists, a: seq<Target>, b: seq<Target>, p: seq<Place>,
                                      q: seq<Place>, kinds: set<Kind>, more: set<Kind>)
    requires InListOrder(lists, a, p) && Complete(op, lists, kinds, p)
    requires InListOrder(lists, b, q) && Complete(op, lists, more, q)
    requires forall k, l :: k in kinds && l in more ==> Rank(k) < Rank(l)
    ensures InListOrder(lists, a + b, p + q) && Complete(op, lists, kinds + more, p + q)
  {
  }

  /** A call concerns exactly the entries that take part, each once and in the order of the lists. */
  lemma {:induction false} CallTargets(op: Op, lists: Lists) returns (places: seq<Place>)
    ensures InListOrder(lists, AllTargets(op, lists), places)
    ensures forall kind, i: nat :: i < |ListOf(lists, kind)| ==>
              (Place(kind, i) in places <==> TakesPart(op, kind, ListOf(lists, kind)[i]))
  {
    hide InListOrder;
    var h := KindTargets(op, lists, Http);
    var g := KindTargets(op, lists, Grpc);
    JoinPlaces(op, lists, Targets(op, Http, lists.http), Targets(op, Grpc, lists.grpc), h, g, {Http}, {Grpc});
    places := h + g;
    if op.SetWeight? {
      var t := KindTargets(op, lists, Tcp);
      var s := KindTargets(op, lists, Tls);
      JoinPlaces(op, lists, Targets(op, Tcp, lists.tcp), Targets(op, Tls, lists.tls), t, s, {Tcp}, {Tls});
      JoinPlaces(op, lists, Targets(op, Http, lists.http) + Targets(op, Grpc, lists.grpc),
                 Targets(op, Tcp, lists.tcp) + Targets(op, Tls, lists.tls), h + g, t + s, {Http, Grpc}, {Tcp, Tls});
      places := h + g + (t + s);
    } else {
      assert AllTargets(op, lists) == Targets(op, Http, lists.http) + Targets(op, Grpc, lists.grpc);
    }
  }

  /** Every listed route of any kind is a target of setting a weight. */
  lemma {:induction false} ListedIsTarget(op: Op, lists: Lists, kind: Kind, i: nat)
    requires i < |ListOf(lists, kind)| && TakesPart(op, kind, ListOf(lists, kind)[i])
    ensures Target(kind, ListOf(lists, kind)[i].name) in AllTargets(op, lists)
  {
    var places := CallTargets(op, lists);
    var k :| 0 <= k < |places| && places[k] == Place(kind, i);
    assert AllTargets(op, lists)[k] == Target(kind, ListOf(lists, kind)[i].name);
  }

  /** When one route fails, and what happens to it otherwise: it becomes what the operation makes of it, and no other
      route changes. Only a route that changes has to be written. */
  lemma {:induction false} OneRoute(o: Order, routes: RouteMap, t: Target)
    ensures var malformed := o.op.SetHeader? && o.op.wanted.Some?
                             && exists i :: 0 <= i < |o.op.wanted.value| && HeaderOf(o.op.wanted.value[i]).None?;
            var error := ErrorOf(o, routes, t);
            if malformed then error == Some("invalid header match type")
            else if t !in routes || t in o.unread then error.Some?
            else match Apply(o.cfg.(kind := t.kind), o.op, routes[t])
              case Fail(e) => error == Some(e)
              case Unchanged => error.None? && AfterOne(o, routes, t) == routes
              case Commit(after) =>
                if t in o.unwritten then error.Some? else error.None? && AfterOne(o, routes, t) == routes[t := after]
    ensures ErrorOf(o, routes, t).Some? ==> AfterOne(o, routes, t) == routes
  {
    assert t in routes ==> routes[t := routes[t]] == routes;
  }

  class Cluster {
    var routes: RouteMap

    /** One route: read, change, write back. Store.dfy shows that concurrent writers do not interfere. */
    method CallOne(o: Order, t: Target) returns (error: Option<string>)
      modifies this
      ensures error == ErrorOf(o, old(routes), t) && routes == AfterOne(o, old(routes), t)
    {
      if o.op.SetHeader? && o.op.wanted.Some? {
        var headers := GetHeaderList(o.op.wanted.value);
        if headers.None? {
          return Some(INVALID_HEADER_MATCH_TYPE);
        }
      }
      if t !in routes || t in o.unread {
        return Some(UNREADABLE);
      }
      ghost var was := routes[t];
      var copy := new Route(routes[t]);
      var changed;
      changed, error := Store.Perform(copy, o.cfg.(kind := t.kind), o.op);
      if error.None? && changed {
        if t in o.unwritten {
          return Some(UNWRITABLE);
        }
        routes := routes[t := copy.State()];
      }
      assert error.None? && !changed ==> routes[t := was] == routes;
    }

    method ForEachRoute(o: Order, kind: Kind, list: seq<Listed>) returns (error: Option<string>)
      modifies this
      ensures Reply(routes, error) == Sweep(o, old(routes), Targets(o.op, kind, list))
    {
      for i := 0 to |list|
        invariant Sweep(o, routes, Targets(o.op, kind, list[i..])) == Sweep(o, old(routes), Targets(o.op, kind, list))
      {
        assert list[i..][1..] == list[i + 1..];
        if !o.op.SetWeight? && !list[i].useHeaderRoutes {
          assert Targets(o.op, kind, list[i..]) == Targets(o.op, kind, list[i + 1..]);
          continue;
        }
        assert Targets(o.op, kind, list[i..])[1..] == Targets(o.op, kind, list[i + 1..]);
        error := CallOne(o, Target(kind, list[i].name));
        if error.Some? {
          return;
        }
      }
      return None;
    }

    method SetWeight(o: Order, lists: Lists) returns (error: Option<string>)
      requires o.op.SetWeight?
      modifies this
      ensures Reply(routes, error) == Called(o, old(routes), lists)
    {
      if |lists.http| == 0 && |lists.tcp| == 0 && |lists.grpc| == 0 && |lists.tls| == 0 {
        return Some(NO_ROUTES);
      }
      ghost var h, g := Targets(o.op, Http, lists.http), Targets(o.op, Grpc, lists.grpc);
      ghost var t, s := Targets(o.op, Tcp, lists.tcp), Targets(o.op, Tls, lists.tls);
      SweepConcat(o, routes, h + g, t + s);
      SweepConcat(o, routes, h, g);
      error := ForEachRoute(o, Http, lists.http);
      if error.Some? {
        return;
      }
      error := ForEachRoute(o, Grpc, lists.grpc);
      if error.Some? {
        return;
      }
      SweepConcat(o, routes, t, s);
      error := ForEachRoute(o, Tcp, lists.tcp);
      if error.Some? {
        return;
      }
      error := ForEachRoute(o, Tls, lists.tls);
    }

    /** `SetHeaderRoute` and `RemoveManagedRoutes`. */
    method CallMarked(o: Order, lists: Lists) returns (error: Option<string>)
      requires !o.op.SetWeight?
      modifies this
      ensures Reply(routes, error) == Called(o, old(routes), lists)
    {
      SweepConcat(o, routes, Targets(o.op, Http, lists.http), Targets(o.op, Grpc, lists.grpc));
      assert AllTargets(o.op, lists) == Targets(o.op, Http, lists.http) + Targets(o.op, Grpc, lists.grpc);
      error := ForEachRoute(o, Http, lists.http);
      if error.Some? {
        return;
      }
      error := ForEachRoute(o, Grpc, lists.grpc);
    }
  }

  // ----- what a sweep does

  /** The number of targets before the first one that fails. */
  ghost function Reached(o: Order, routes: RouteMap, targets: seq<Target>): (k: nat)
    ensures k <= |targets|
  {
    if targets == [] || ErrorOf(o, routes, targets[0]).Some? then 0
    else 1 + Reached(o, AfterOne(o, routes, targets[0]), targets[1..])
  }

  ghost function Repeated(o: Order, t: Target, route: RouteState, times: nat): RouteState
    decreases times
  {
    if times == 0 then route else Repeated(o, t, After(o, t, route), times - 1)
  }

  /** The error of the target at `i`, whose route has been changed once for each earlier occurrence. */
  ghost function ErrorAt(o: Order, routes: RouteMap, targets: seq<Target>, i: nat): Option<string>
    requires i < |targets|
  {
    ErrorAfter(o, routes, targets[i], multiset(targets[..i])[targets[i]])
  }

  /** The error of a target whose route has been changed a number of times. */
  ghost function ErrorAfter(o: Order, routes: RouteMap, t: Target, times: nat): Option<string> {
    ErrorOf(o, if t in routes then routes[t := Repeated(o, t, routes[t], times)] else routes, t)
  }

  lemma {:induction false} CountFirst(targets: seq<Target>, i: nat, t: Target)
    requires 0 < i <= |targets|
    ensures multiset(targets[..i])[t] == multiset(targets[1..][..i - 1])[t] + if targets[0] == t then 1 else 0
  {
    assert targets[..i] == [targets[0]] + targets[1..][..i - 1];
  }

  lemma {:induction false} RepeatedNext(o: Order, routes: RouteMap, first: Target, t: Target, times: nat)
    requires t in routes && ErrorOf(o, routes, first).None?
    ensures Repeated(o, t, routes[t], times + if first == t then 1 else 0)
         == Repeated(o, t, AfterOne(o, routes, first)[t], times)
  {
  }

  lemma {:induction false} SweptRoute(o: Order, routes: RouteMap, targets: seq<Target>, t: Target)
    requires t in routes
    ensures var k, after := Reached(o, routes, targets), Sweep(o, routes, targets).routes;
            t in after && after[t] == Repeated(o, t, routes[t], multiset(targets[..k])[t])
  {
    if targets != [] && ErrorOf(o, routes, targets[0]).None? {
      var k := Reached(o, routes, targets);
      SweptRoute(o, AfterOne(o, routes, targets[0]), targets[1..], t);
      CountFirst(targets, k, t);
      RepeatedNext(o, routes, targets[0], t, multiset(targets[1..][..k - 1])[t]);
    } else {
      assert multiset(targets[..0])[t] == 0;
    }
  }

  lemma {:induction false} SameError(o: Order, a: RouteMap, b: RouteMap, t: Target)
    requires (t in a <==> t in b) && (t in a ==> a[t] == b[t])
    ensures ErrorOf(o, a, t) == ErrorOf(o, b, t)
  {
  }

  lemma {:induction false} ErrorAfterNext(o: Order, routes: RouteMap, first: Target, t: Target, times: nat)
    requires ErrorOf(o, routes, first).None?
    ensures ErrorAfter(o, routes, t, times + if first == t then 1 else 0)
         == ErrorAfter(o, AfterOne(o, routes, first), t, times)
  {
    hide Repeated;
    var next := AfterOne(o, routes, first);
    if t in routes {
      var changed := Repeated(o, t, next[t], times);
      RepeatedNext(o, routes, first, t, times);
      SameError(o, routes[t := changed], next[t := changed], t);
    } else {
      SameError(o, routes, next, t);
    }
  }

  /** The first step of a sweep moves the errors of the later targets to the front by one. */
  lemma {:induction false} ErrorAtNext(o: Order, routes: RouteMap, targets: seq<Target>, i: nat)
    requires 0 < i < |targets| && ErrorOf(o, routes, targets[0]).None?
    ensures ErrorAt(o, routes, targets, i)
         == ErrorAt(o, AfterOne(o, routes, targets[0]), targets[1..], i - 1)
  {
    hide ErrorOf, ErrorAfter, AfterOne;
    CountFirst(targets, i, targets[i]);
    ErrorAfterNext(o, routes, targets[0], targets[i], multiset(targets[1..][..i - 1])[targets[i]]);
  }

  lemma {:induction false} ErrorAtFirst(o: Order, routes: RouteMap, targets: seq<Target>)
    requires targets != []
    ensures ErrorAt(o, routes, targets, 0) == ErrorOf(o, routes, targets[0])
  {
    assert multiset(targets[..0])[targets[0]] == 0;
  }

  lemma {:induction false} SweptErrors(o: Order, routes: RouteMap, targets: seq<Target>)
    ensures var k, error := Reached(o, routes, targets), Sweep(o, routes, targets).error;
            && (forall i :: 0 <= i < k ==> ErrorAt(o, routes, targets, i).None?)
            && (if k == |targets| then error.None? else error.Some? && error == ErrorAt(o, routes, targets, k))
  {
    if targets != [] {
      ErrorAtFirst(o, routes, targets);
      if ErrorOf(o, routes, targets[0]).None? {
        SweptErrors(o, AfterOne(o, routes, targets[0]), targets[1..]);
        forall i | 0 < i < |targets|
          ensures ErrorAt(o, routes, targets, i) == ErrorAt(o, AfterOne(o, routes, targets[0]), targets[1..], i - 1)
        {
          ErrorAtNext(o, routes, targets, i);
        }
      }
    }
  }

  /** Fail fast. The first target that fails is the first whose route, changed once for each earlier occurrence of
      it, fails, and its error is that of the call. Every route is changed exactly once for each of its occurrences
      before that target, each time as if it were alone; so the routes that do not occur there stay as they were. */
  lemma {:induction false} FailFast(o: Order, routes: RouteMap, targets: seq<Target>)
    ensures var k, reply := Reached(o, routes, targets), Sweep(o, routes, targets);
            && (forall i :: 0 <= i < k ==> ErrorAt(o, routes, targets, i).None?)
            && (if k == |targets| then reply.error.None?
                else reply.error.Some? && reply.error == ErrorAt(o, routes, targets, k))
            && forall t :: t in routes ==>
                 t in reply.routes
                 && reply.routes[t] == Repeated(o, t, routes[t], multiset(targets[..k])[t])
  {
    SweptErrors(o, routes, targets);
    forall t | t in routes
      ensures var k, after := Reached(o, routes, targets), Sweep(o, routes, targets).routes;
              t in after && after[t] == Repeated(o, t, routes[t], multiset(targets[..k])[t])
    {
      SweptRoute(o, routes, targets, t);
    }
  }

  // ----- the label over sequences of calls

  /** The value a label should have: that of the in-progress label depends on the last stored weight. */
  function Expected(c: LabelConfig, stored: Option<Int32>, was: Option<string>, key: string): Option<string> {
    if c.disabled || key != c.Key() || stored.None? then was
    else if stored.value == 0 then None else Some(c.Value())
  }

  /** The weight that a call stores on a route. */
  ghost function StoredBy(o: Order, routes: RouteMap, targets: seq<Target>, t: Target): Option<Int32> {
    if o.op.SetWeight? && t in targets[..Reached(o, routes, targets)] then Some(o.op.weight) else None
  }

  lemma {:induction false} LabelAfter(o: Order, routes: RouteMap, first: Target, t: Target, key: string)
    requires t in routes && ErrorOf(o, routes, first).None?
    ensures var after := AfterOne(o, routes, first);
            var stored := if o.op.SetWeight? && t == first then Some(o.op.weight) else None;
            t in after
            && Lookup(after[t].labels, key) == Expected(o.cfg.marker, stored, Lookup(routes[t].labels, key), key)
  {
    if o.op.SetWeight? {
      MarkedMeaning(o.cfg.marker, o.op.weight, routes[t].labels, key);
    }
  }

  lemma {:induction false} FirstOrRest(targets: seq<Target>, k: nat, t: Target)
    requires k < |targets|
    ensures t in targets[..k + 1] <==> t == targets[0] || t in targets[1..][..k]
  {
    assert targets[..k + 1] == [targets[0]] + targets[1..][..k];
  }

  lemma {:induction false} SweptLabel(o: Order, routes: RouteMap, targets: seq<Target>, t: Target, key: string)
    requires t in routes
    ensures var after := Sweep(o, routes, targets).routes;
            t in after
            && Lookup(after[t].labels, key)
               == Expected(o.cfg.marker, StoredBy(o, routes, targets, t), Lookup(routes[t].labels, key), key)
  {
    if targets != [] && ErrorOf(o, routes, targets[0]).None? {
      var next, rest := AfterOne(o, routes, targets[0]), targets[1..];
      var k := Reached(o, next, rest);
      LabelAfter(o, routes, targets[0], t, key);
      SweptLabel(o, next, rest, t, key);
      FirstOrRest(targets, k, t);
    }
  }

  datatype Turn = Turn(order: Order, lists: Lists)

  ghost function Serve(turns: seq<Turn>, routes: RouteMap): RouteMap {
    if turns == [] then routes
    else
      var n := |turns| - 1;
      Called(turns[n].order, Serve(turns[..n], routes), turns[n].lists).routes
  }

  /** The weight last stored on a route. */
  ghost function LastOn(turns: seq<Turn>, routes: RouteMap, t: Target): Option<Int32> {
    if turns == [] then None
    else
      var n := |turns| - 1;
      var o, before := turns[n].order, Serve(turns[..n], routes);
      var stored := StoredBy(o, before, AllTargets(o.op, turns[n].lists), t);
      if stored.Some? then stored else LastOn(turns[..n], routes, t)
  }

  /** Over any sequence of calls, failing ones included, every route of any kind carries the in-progress label
      exactly while the weight last stored on it is not zero, and none of its other labels ever changes. */
  lemma {:induction false} LabelOverCalls(c: LabelConfig, turns: seq<Turn>, routes: RouteMap, t: Target, key: string)
    requires t in routes && forall k :: 0 <= k < |turns| ==> turns[k].order.cfg.marker == c
    ensures var after := Serve(turns, routes);
            t in after
            && Lookup(after[t].labels, key)
               == Expected(c, LastOn(turns, routes, t), Lookup(routes[t].labels, key), key)
  {
    if turns != [] {
      var n := |turns| - 1;
      LabelOverCalls(c, turns[..n], routes, t, key);
      SweptLabel(turns[n].order, Serve(turns[..n], routes), AllTargets(turns[n].order.op, turns[n].lists), t, key);
    }
  }

  lemma {:induction false} ReachedExists(o: Order, routes: RouteMap, targets: seq<Target>, t: Target)
    requires Sweep(o, routes, targets).error.None? && t in targets
    ensures Reached(o, routes, targets) == |targets| && t in routes
  {
    if t == targets[0] {
      assert t in routes;
    }
    if targets[1..] != [] {
      var next := AfterOne(o, routes, targets[0]);
      if t in targets[1..] {
        ReachedExists(o, next, targets[1..], t);
      } else {
        ReachedExists(o, next, targets[1..], targets[1]);
      }
    }
  }

  /** After a `SetWeight` call without an error, every route in the four lists carries the in-progress label exactly
      if the weight is not zero. */
  lemma {:induction false} AllLabelled(o: Order, routes: RouteMap, lists: Lists, kind: Kind, i: nat)
    requires o.op.SetWeight? && i < |ListOf(lists, kind)| && !o.cfg.marker.disabled
    requires Called(o, routes, lists).error.None?
    ensures var t, after := Target(kind, ListOf(lists, kind)[i].name), Called(o, routes, lists).routes;
            t in after
            && Lookup(after[t].labels, o.cfg.marker.Key())
               == if o.op.weight == 0 then None else Some(o.cfg.marker.Value())
  {
    var targets, t := AllTargets(o.op, lists), Target(kind, ListOf(lists, kind)[i].name);
    ListedIsTarget(o.op, lists, kind, i);
    ReachedExists(o, routes, targets, t);
    SweptLabel(o, routes, targets, t, o.cfg.marker.Key());
    assert targets[..|targets|] == targets;
  }

  /** What a whole call does, over the entries of the lists. Setting a weight without any entry is an error of its
      own. Otherwise the entries that take part are visited in the order of the lists up to the first that fails. */
  lemma {:induction false} CallMeans(o: Order, routes: RouteMap, lists: Lists)
    returns (targets: seq<Target>, places: seq<Place>)
    ensures InListOrder(lists, targets, places)
    ensures forall kind, i: nat :: i < |ListOf(lists, kind)| ==>
              (Place(kind, i) in places <==> TakesPart(o.op, kind, ListOf(lists, kind)[i]))
    ensures var k, reply := Reached(o, routes, targets), Called(o, routes, lists);
            if o.op.SetWeight? && targets == [] then reply == Reply(routes, Some(NO_ROUTES))
            else
              && (forall i :: 0 <= i < k ==> ErrorAt(o, routes, targets, i).None?)
              && (if k == |targets| then reply.error.None?
                  else reply.error.Some? && reply.error == ErrorAt(o, routes, targets, k))
              && forall t :: t in routes ==>
                   t in reply.routes && reply.routes[t] == Repeated(o, t, routes[t], multiset(targets[..k])[t])
  {
    targets := AllTargets(o.op, lists);
    places := CallTargets(o.op, lists);
    FailFast(o, routes, targets);
    if o.op.SetWeight? {
      NoTargets(o.op, lists);
    }
  }

  lemma {:induction false} NoTargets(op: Op, lists: Lists)
    requires op.SetWeight?
    ensures AllTargets(op, lists) == [] <==> lists == Lists([], [], [], [])
  {
    if lists.http != [] {
      ListedIsTarget(op, lists, Http, 0);
    } else if lists.grpc != [] {
      ListedIsTarget(op, lists, Grpc, 0);
    } else if lists.tcp != [] {
      ListedIsTarget(op, lists, Tcp, 0);
    } else if lists.tls != [] {
      ListedIsTarget(op, lists, Tls, 0);
    }
  }
}
