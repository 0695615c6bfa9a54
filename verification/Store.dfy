/** The read, change and write-back loop against an API server that many writers share.

    `retry.RetryOnConflict` reads the newest version, computes a new one from it and stores that under the
    condition that the version read is still the newest; on a conflict it starts over. */
module Store {
  import opened Gateway
  import opened Rules
  import opened Operations
  import opened Routes
  import opened Runs
  import opened TcpRoutes

  // ----- any number of concurrent calls and foreign writers

  datatype Pc = Ready | Holding(version: nat, copy: RouteState) | Succeeded | Failed

  datatype Call = Call(op: Op, pc: Pc)

  /** A stored version of the route; `author` is the call that stored it, `None` for anyone else. */
  datatype Version = Version(route: RouteState, author: Option<nat>)

  datatype World = World(history: seq<Version>, calls: seq<Call>)

  /** `GiveUp` stands for a failing API call and for running out of retries. */
  datatype Event = Fetch(call: nat) | Finish(call: nat) | GiveUp(call: nat) | OtherWrite(route: RouteState)

  function WithPc(w: World, c: nat, pc: Pc): World
    requires c < |w.calls|
  {
    w.(calls := w.calls[c := w.calls[c].(pc := pc)])
  }

  ghost function Step(cfg: Config, w: World, ev: Event): World
    requires w.history != []
  {
    var last := |w.history| - 1;
    match ev
    case Fetch(c) =>
      if c < |w.calls| && w.calls[c].pc.Ready? then WithPc(w, c, Holding(last, w.history[last].route)) else w
    case Finish(c) =>
      if c < |w.calls| && w.calls[c].pc.Holding? then
        match Apply(cfg, w.calls[c].op, w.calls[c].pc.copy)
        case Fail(_) => WithPc(w, c, Failed)
        case Unchanged => WithPc(w, c, Succeeded)
        case Commit(after) =>
          if w.calls[c].pc.version == last
          then WithPc(w, c, Succeeded).(history := w.history + [Version(after, Some(c))])
          else WithPc(w, c, Ready)
      else w
    case GiveUp(c) =>
      if c < |w.calls| && (w.calls[c].pc.Ready? || w.calls[c].pc.Holding?) then WithPc(w, c, Failed) else w
    case OtherWrite(route) => w.(history := w.history + [Version(route, None)])
  }

  ghost predicate Initial(w: World) {
    |w.history| == 1 && w.history[0].author.None? && forall c :: 0 <= c < |w.calls| ==> w.calls[c].pc.Ready?
  }

  /** The version at `v` was stored by call `c`. */
  predicate Stored(w: World, v: int, c: int) {
    0 <= v < |w.history| && w.history[v].author.Some? && w.history[v].author.value == c
  }

  /** Every stored version is the operation applied to the version immediately before it. */
  ghost predicate ExactlyApplied(cfg: Config, w: World) {
    forall v, c :: Stored(w, v, c) ==>
      v > 0 && c < |w.calls| && w.calls[c].pc.Succeeded?
      && Apply(cfg, w.calls[c].op, w.history[v - 1].route) == Commit(w.history[v].route)
  }

  ghost predicate OncePerCall(w: World) {
    forall u, v, c :: Stored(w, u, c) && Stored(w, v, c) ==> u == v
  }

  ghost predicate CopiesAreVersions(w: World) {
    forall c :: 0 <= c < |w.calls| && w.calls[c].pc.Holding? ==>
      w.calls[c].pc.version < |w.history| && w.calls[c].pc.copy == w.history[w.calls[c].pc.version].route
  }

  /** The call read a version that its operation leaves as it is. */
  ghost predicate SawNothingToDo(cfg: Config, w: World, c: nat) {
    c < |w.calls| && exists v :: 0 <= v < |w.history| && Apply(cfg, w.calls[c].op, w.history[v].route) == Unchanged
  }

  ghost predicate SuccessHasCause(cfg: Config, w: World) {
    forall c :: 0 <= c < |w.calls| && w.calls[c].pc.Succeeded? ==>
      (exists v :: Stored(w, v, c)) || SawNothingToDo(cfg, w, c)
  }

  ghost predicate Inv(cfg: Config, w: World) {
    w.history != [] && w.history[0].author.None?
    && ExactlyApplied(cfg, w) && OncePerCall(w) && CopiesAreVersions(w) && SuccessHasCause(cfg, w)
  }

  /** Nothing already stored changes, and no call changes its operation. */
  ghost predicate Extends(w: World, w': World) {
    w.history <= w'.history && |w.calls| == |w'.calls|
    && forall c :: 0 <= c < |w.calls| ==> w'.calls[c].op == w.calls[c].op
  }

  lemma {:induction false} StepExtends(cfg: Config, w: World, ev: Event)
    requires w.history != []
    ensures Extends(w, Step(cfg, w, ev))
  {
  }

  /** No event but the storing of a version changes the history. */
  lemma {:induction false} PcStep(cfg: Config, w: World, c: nat, pc: Pc)
    requires Inv(cfg, w) && c < |w.calls| && !w.calls[c].pc.Succeeded?
    requires pc.Holding? ==> pc.version < |w.history| && pc.copy == w.history[pc.version].route
    requires pc.Succeeded? ==> SawNothingToDo(cfg, w, c)
    ensures Inv(cfg, WithPc(w, c, pc))
  {
    var w' := WithPc(w, c, pc);
    assert forall v, d :: Stored(w', v, d) <==> Stored(w, v, d);
    forall d | 0 <= d < |w'.calls| && w'.calls[d].pc.Succeeded?
      ensures (exists v :: Stored(w', v, d)) || SawNothingToDo(cfg, w', d)
    {
      if SawNothingToDo(cfg, w, d) {
        var v :| 0 <= v < |w.history| && Apply(cfg, w.calls[d].op, w.history[v].route) == Unchanged;
        assert Apply(cfg, w'.calls[d].op, w'.history[v].route) == Unchanged;
      } else {
        var v :| Stored(w, v, d);
        assert Stored(w', v, d);
      }
    }
  }

  lemma {:induction false} OtherWriteStep(cfg: Config, w: World, route: RouteState)
    requires Inv(cfg, w)
    ensures Inv(cfg, w.(history := w.history + [Version(route, None)]))
  {
    var w' := w.(history := w.history + [Version(route, None)]);
    assert forall v, d :: Stored(w', v, d) <==> Stored(w, v, d);
    KeepsCauses(cfg, w, w');
  }

  lemma {:induction false} KeepsCauses(cfg: Config, w: World, w': World)
    requires SuccessHasCause(cfg, w) && Extends(w, w')
    ensures forall c :: 0 <= c < |w.calls| && w.calls[c].pc.Succeeded? ==>
              (exists v :: Stored(w', v, c)) || SawNothingToDo(cfg, w', c)
  {
    forall c | 0 <= c < |w.calls| && w.calls[c].pc.Succeeded?
      ensures (exists v :: Stored(w', v, c)) || SawNothingToDo(cfg, w', c)
    {
      if SawNothingToDo(cfg, w, c) {
        var v :| 0 <= v < |w.history| && Apply(cfg, w.calls[c].op, w.history[v].route) == Unchanged;
        assert w'.history[v] == w.history[v];
      } else {
        var v :| Stored(w, v, c);
        assert w'.history[v] == w.history[v];
        assert Stored(w', v, c);
      }
    }
  }

  lemma {:induction false} CommitApplies(cfg: Config, w: World, c: nat, after: RouteState)
    requires ExactlyApplied(cfg, w) && w.history != [] && c < |w.calls|
    requires Apply(cfg, w.calls[c].op, w.history[|w.history| - 1].route) == Commit(after)
    ensures ExactlyApplied(cfg, WithPc(w, c, Succeeded).(history := w.history + [Version(after, Some(c))]))
  {
    hide Apply;
    var w' := WithPc(w, c, Succeeded).(history := w.history + [Version(after, Some(c))]);
    forall v, d | Stored(w', v, d)
      ensures v > 0 && d < |w'.calls| && w'.calls[d].pc.Succeeded?
              && Apply(cfg, w'.calls[d].op, w'.history[v - 1].route) == Commit(w'.history[v].route)
    {
      assert v < |w.history| ==> Stored(w, v, d);
    }
  }

  lemma {:induction false} NotYetStored(cfg: Config, w: World, c: nat)
    requires ExactlyApplied(cfg, w) && c < |w.calls| && !w.calls[c].pc.Succeeded?
    ensures forall v :: !Stored(w, v, c)
  {
  }

  lemma {:induction false} CommitStep(cfg: Config, w: World, c: nat, after: RouteState)
    requires Inv(cfg, w) && c < |w.calls| && !w.calls[c].pc.Succeeded?
    requires Apply(cfg, w.calls[c].op, w.history[|w.history| - 1].route) == Commit(after)
    ensures Inv(cfg, WithPc(w, c, Succeeded).(history := w.history + [Version(after, Some(c))]))
  {
    hide Apply, ExactlyApplied;
    var w' := WithPc(w, c, Succeeded).(history := w.history + [Version(after, Some(c))]);
    forall v, d
      ensures Stored(w', v, d) <==> Stored(w, v, d) || (v == |w.history| && d == c)
    {
    }
    KeepsCauses(cfg, w, w');
    assert Stored(w', |w.history|, c);
    CommitApplies(cfg, w, c, after);
    NotYetStored(cfg, w, c);
  }

  lemma {:induction false} StepKeepsInv(cfg: Config, w: World, ev: Event)
    requires Inv(cfg, w)
    ensures Inv(cfg, Step(cfg, w, ev))
  {
    var last := |w.history| - 1;
    match ev
    case Fetch(c) =>
      if c < |w.calls| && w.calls[c].pc.Ready? {
        PcStep(cfg, w, c, Holding(last, w.history[last].route));
      }
    case Finish(c) =>
      if c < |w.calls| && w.calls[c].pc.Holding? {
        var v := w.calls[c].pc.version;
        match Apply(cfg, w.calls[c].op, w.calls[c].pc.copy)
        case Fail(_) => PcStep(cfg, w, c, Failed);
        case Unchanged =>
          assert Apply(cfg, w.calls[c].op, w.history[v].route) == Unchanged;
          PcStep(cfg, w, c, Succeeded);
        case Commit(after) =>
          if v == last {
            CommitStep(cfg, w, c, after);
          } else {
            PcStep(cfg, w, c, Ready);
          }
      }
    case GiveUp(c) =>
      if c < |w.calls| && (w.calls[c].pc.Ready? || w.calls[c].pc.Holding?) {
        PcStep(cfg, w, c, Failed);
      }
    case OtherWrite(route) => OtherWriteStep(cfg, w, route);
  }

  ghost function Play(cfg: Config, w: World, events: seq<Event>): (w': World)
    requires w.history != []
    ensures w'.history != []
  {
    if events == [] then w else Step(cfg, Play(cfg, w, events[..|events| - 1]), events[|events| - 1])
  }

  /** No lost update. However calls and foreign writers interleave, every version a call stores is its
      operation applied to exactly the version before it; a call stores at most one version; a call that has
      not succeeded has stored none; a call that succeeded without storing one read a version on which it had
      nothing to do; and no version is ever changed or dropped. */
  lemma {:induction false} NoLostUpdate(cfg: Config, w: World, events: seq<Event>)
    requires Initial(w)
    ensures Inv(cfg, Play(cfg, w, events)) && Extends(w, Play(cfg, w, events))
  {
    if events != [] {
      var before := Play(cfg, w, events[..|events| - 1]);
      NoLostUpdate(cfg, w, events[..|events| - 1]);
      StepKeepsInv(cfg, before, events[|events| - 1]);
      StepExtends(cfg, before, events[|events| - 1]);
    }
  }

  // ----- every call can get through

  /** A call that reads while nobody else stores before it writes back is not lost: the operation is stored exactly
      once, or it had nothing to do, or it reports its own error. */
  lemma {:induction false} UndisturbedCall(cfg: Config, w: World, c: nat)
    requires w.history != [] && c < |w.calls| && w.calls[c].pc.Ready?
    ensures var newest := w.history[|w.history| - 1].route;
            var after := Step(cfg, Step(cfg, w, Fetch(c)), Finish(c));
            match Apply(cfg, w.calls[c].op, newest)
            case Commit(route) =>
              after == WithPc(w, c, Succeeded).(history := w.history + [Version(route, Some(c))])
            case Unchanged => after == WithPc(w, c, Succeeded)
            case Fail(_) => after == WithPc(w, c, Failed)
  {
    hide Apply;
  }

  /** A call that meets a conflict can start over. */
  lemma {:induction false} ConflictRetries(cfg: Config, w: World, c: nat)
    requires w.history != [] && c < |w.calls| && w.calls[c].pc.Holding?
    requires Apply(cfg, w.calls[c].op, w.calls[c].pc.copy).Commit? && w.calls[c].pc.version != |w.history| - 1
    ensures Step(cfg, w, Finish(c)).calls[c].pc.Ready? && Step(cfg, w, Finish(c)).history == w.history
  {
  }

  /** A call gives up or read a version on which its operation fails; it does not fail for a conflict. */
  ghost predicate FailureHasCause(cfg: Config, w: World, events: seq<Event>) {
    forall c :: 0 <= c < |w.calls| && w.calls[c].pc.Failed? ==>
      GiveUp(c) in events
      || exists v :: 0 <= v < |w.history| && Apply(cfg, w.calls[c].op, w.history[v].route).Fail?
  }

  lemma {:induction false} FailuresExplained(cfg: Config, w: World, events: seq<Event>)
    requires Initial(w)
    ensures FailureHasCause(cfg, Play(cfg, w, events), events)
  {
    if events != [] {
      var n := |events| - 1;
      var before := Play(cfg, w, events[..n]);
      FailuresExplained(cfg, w, events[..n]);
      NoLostUpdate(cfg, w, events[..n]);
      StepExtends(cfg, before, events[n]);
      FailureStep(cfg, before, events[..n], events[n]);
      assert events == events[..n] + [events[n]];
    }
  }

  lemma {:induction false} FailureStep(cfg: Config, w: World, events: seq<Event>, ev: Event)
    requires w.history != [] && CopiesAreVersions(w) && FailureHasCause(cfg, w, events)
    ensures FailureHasCause(cfg, Step(cfg, w, ev), events + [ev])
  {
    hide Apply;
    var w' := Step(cfg, w, ev);
    StepExtends(cfg, w, ev);
    forall c | 0 <= c < |w'.calls| && w'.calls[c].pc.Failed?
      ensures GiveUp(c) in events + [ev]
              || exists v :: 0 <= v < |w'.history| && Apply(cfg, w'.calls[c].op, w'.history[v].route).Fail?
    {
      if w.calls[c].pc.Failed? {
        if GiveUp(c) !in events {
          var v :| 0 <= v < |w.history| && Apply(cfg, w.calls[c].op, w.history[v].route).Fail?;
          assert w'.history[v] == w.history[v];
        }
      } else if ev != GiveUp(c) {
        assert ev == Finish(c);
        var v := w.calls[c].pc.version;
        assert w'.history[v] == w.history[v];
        assert Apply(cfg, w'.calls[c].op, w'.history[v].route).Fail?;
      }
    }
  }

  // ----- calls alone: a sequential run in commit order

  predicate NoOtherWriter(events: seq<Event>) {
    forall k :: 0 <= k < |events| ==> !events[k].OtherWrite?
  }

  ghost predicate AllAuthored(w: World) {
    forall v :: 0 < v < |w.history| ==> w.history[v].author.Some? && w.history[v].author.value < |w.calls|
  }

  lemma {:induction false} AuthoredOnly(cfg: Config, w: World, events: seq<Event>)
    requires Initial(w) && NoOtherWriter(events)
    ensures AllAuthored(Play(cfg, w, events))
  {
    if events != [] {
      var n := |events| - 1;
      assert NoOtherWriter(events[..n]);
      AuthoredOnly(cfg, w, events[..n]);
      assert !events[n].OtherWrite?;
    }
  }

  /** The operations of the first `n` stored versions, in commit order. */
  function Committed(w: World, n: nat): (ops: seq<Op>)
    requires n < |w.history|
    requires forall v :: 0 < v <= n ==> w.history[v].author.Some? && w.history[v].author.value < |w.calls|
  {
    if n == 0 then [] else Committed(w, n - 1) + [w.calls[w.history[n].author.value].op]
  }

  lemma {:induction false} HistoryIsRun(cfg: Config, w: World, n: nat)
    requires Inv(cfg, w) && AllAuthored(w) && n < |w.history|
    ensures w.history[n].route == Run(cfg, Committed(w, n), w.history[0].route)
  {
    if n > 0 {
      HistoryIsRun(cfg, w, n - 1);
      assert Stored(w, n, w.history[n].author.value);
      assert Committed(w, n)[..|Committed(w, n)| - 1] == Committed(w, n - 1);
    }
  }

  /** Calls that interleave in any way, with no other writer, leave the route as a sequential run of those
      that stored something would, in the order in which they stored it. So what holds after every run of
      operations holds for concurrent calls. */
  lemma {:induction false} ConcurrentIsSequential(cfg: Config, w: World, events: seq<Event>)
    requires Initial(w) && NoOtherWriter(events)
    ensures var w' := Play(cfg, w, events);
            && AllAuthored(w')
            && w'.history[|w'.history| - 1].route
               == Run(cfg, Committed(w', |w'.history| - 1), w.history[0].route)
  {
    NoLostUpdate(cfg, w, events);
    AuthoredOnly(cfg, w, events);
    var w' := Play(cfg, w, events);
    HistoryIsRun(cfg, w', |w'.history| - 1);
    assert w'.history[0] == w.history[0];
  }

  lemma {:induction false} CommittedAllowed(e: set<string>, rules: seq<Rule>, w: World, n: nat)
    requires n < |w.history| && AllAuthored(w)
    requires forall c :: 0 <= c < |w.calls| ==> Allowed(e, rules, w.calls[c].op)
    ensures AllAllowed(e, rules, Committed(w, n))
  {
    if n > 0 {
      CommittedAllowed(e, rules, w, n - 1);
    }
  }

  /** Isolation under concurrency: whatever calls ran and however they interleaved, the user's rules come
      first, evolved only in weights and experiment backends, and the rest is injected. */
  lemma {:induction false} ConcurrentIsolation(cfg: Config, e: set<string>, w: World, events: seq<Event>)
    requires Initial(w) && NoOtherWriter(events)
    requires UserRules(cfg, e, w.history[0].route.rules)
    requires forall c :: 0 <= c < |w.calls| ==> Allowed(e, w.history[0].route.rules, w.calls[c].op)
    ensures var w' := Play(cfg, w, events);
            var start, now := w.history[0].route.rules, w'.history[|w'.history| - 1].route.rules;
            && |start| <= |now|
            && AllEvolved(cfg, e, start, now[..|start|])
            && Injected(cfg, now[|start|..])
  {
    var w' := Play(cfg, w, events);
    var n := |w'.history| - 1;
    ConcurrentIsSequential(cfg, w, events);
    NoLostUpdate(cfg, w, events);
    CommittedAllowed(e, w.history[0].route.rules, w', n);
    Isolation(cfg, e, Committed(w', n), w.history[0].route);
  }

  // ----- one call, as the loop the plugin runs

  class Server {
    var history: seq<RouteState>

    predicate Valid()
      reads this
    {
      history != []
    }

    method Get() returns (copy: Route, version: nat)
      requires Valid()
      ensures fresh(copy) && version == |history| - 1 && copy.State() == history[version]
    {
      version := |history| - 1;
      copy := new Route(history[version]);
    }

    /** Stores a version if nobody has stored one since the version that was read. */
    method Update(route: RouteState, version: nat) returns (conflict: bool)
      requires Valid()
      modifies this
      ensures Valid() && conflict == (version != |old(history)| - 1)
      ensures history == if conflict then old(history) else old(history) + [route]
    {
      conflict := version != |history| - 1;
      if !conflict {
        history := history + [route];
      }
    }

    /** What other writers store between the read and the write of an attempt. */
    method Interfere(writes: seq<RouteState>)
      requires Valid()
      modifies this
      ensures Valid() && history == old(history) + writes
    {
      history := history + writes;
    }
  }

  /** Everything other writers store during the first `n` attempts. */
  function Writes(others: seq<seq<RouteState>>, n: nat): seq<RouteState>
    requires n <= |others|
  {
    if n == 0 then [] else Writes(others, n - 1) + others[n - 1]
  }

  /** One operation on the copy of an attempt. What a failing one has written to the copy is never stored. */
  method Perform(copy: Route, cfg: Config, op: Op) returns (changed: bool, error: Option<string>)
    modifies copy
    ensures error.Some? ==> Apply(cfg, op, old(copy.State())) == Fail(error.value)
    ensures error.None? ==>
              Apply(cfg, op, old(copy.State())) == if changed then Commit(copy.State()) else Unchanged
  {
    if !MatchesHeaders(cfg.kind) {
      changed, error := PerformTcp(copy, cfg, op);
      return;
    }
    match op {
      case SetWeight(weight, exp) =>
        error := copy.SetWeight(cfg, weight, exp);
        changed := error.None?;
      case SetHeader(name, wanted) =>
        changed, error := copy.SetHeader(cfg, name, wanted);
      case RemoveManaged =>
        changed := copy.RemoveManagedRules(cfg);
        error := None;
    }
  }

  method PerformTcp(copy: Route, cfg: Config, op: Op) returns (changed: bool, error: Option<string>)
    requires !MatchesHeaders(cfg.kind)
    modifies copy
    ensures error.Some? ==> Apply(cfg, op, old(copy.State())) == Fail(error.value)
    ensures error.None? ==>
              Apply(cfg, op, old(copy.State())) == if changed then Commit(copy.State()) else Unchanged
  {
    match op {
      case SetWeight(weight, _) =>
        var outcome := SetRouteWeight(cfg, weight, copy.State());
        match outcome {
          case Commit(after) =>
            copy.rules, copy.labels := after.rules, after.labels;
            return true, None;
          case Fail(e) =>
            return false, Some(e);
          case Unchanged =>
            return false, None;
        }
      case SetHeader(_, _) =>
        return false, None;
      case RemoveManaged =>
        return false, None;
    }
  }

  /** What is stored when attempt `i` of a call reads. */
  function Read(history: seq<RouteState>, others: seq<seq<RouteState>>, i: nat): RouteState
    requires history != [] && i <= |others|
  {
    (history + Writes(others, i))[|history + Writes(others, i)| - 1]
  }

  /** What one attempt makes of a call that reads `read` while others store `others`. */
  ghost predicate Attempted(cfg: Config, op: Op, read: RouteState, others: seq<RouteState>, result: Result,
                            before: seq<RouteState>, after: seq<RouteState>)
  {
    match Apply(cfg, op, read)
    case Fail(e) => result == Failure(e) && after == before + others
    case Unchanged => result == NothingToDo && after == before + others
    case Commit(route) =>
      if others == [] then result == Done && after == before + [route]
      else result == Conflict && after == before + others
  }

  /** How one attempt ends; only a conflict leads to another one. */
  datatype Result = Done | NothingToDo | Conflict | Failure(error: string)

  /** One attempt: the function that is handed to `retry.RetryOnConflict`. */
  method TryOnce(server: Server, cfg: Config, op: Op, others: seq<RouteState>) returns (result: Result)
    requires server.Valid()
    modifies server
    ensures server.Valid()
    ensures Attempted(cfg, op, old(server.history[|server.history| - 1]), others, result,
                      old(server.history), server.history)
  {
    hide Apply;
    var copy, version := server.Get();
    server.Interfere(others);
    var changed, failure := Perform(copy, cfg, op);
    if failure.Some? {
      return Failure(failure.value);
    }
    if !changed {
      return NothingToDo;
    }
    var conflict := server.Update(copy.State(), version);
    assert conflict <==> others != [];
    if conflict {
      return Conflict;
    }
    return Done;
  }

  lemma {:induction false} NothingWritten(start: seq<RouteState>, others: seq<seq<RouteState>>)
    ensures start == start + Writes(others, 0)
  {
  }

  lemma {:induction false} ReadNewest(start: seq<RouteState>, others: seq<seq<RouteState>>, i: nat)
    requires start != [] && i <= |others|
    ensures var now := start + Writes(others, i);
            now != [] && now[|now| - 1] == Read(start, others, i)
  {
  }

  /** What is known after an attempt that met a conflict. */
  lemma {:induction false} AttemptFailed(cfg: Config, op: Op, start: seq<RouteState>, others: seq<seq<RouteState>>,
                                         i: nat, after: seq<RouteState>)
    requires start != [] && i < |others|
    requires Attempted(cfg, op, Read(start, others, i), others[i], Conflict, start + Writes(others, i), after)
    ensures after == start + Writes(others, i + 1)
    ensures Apply(cfg, op, Read(start, others, i)).Commit? && others[i] != []
  {
    WritesNext(start, others, i);
    hide Apply, Read, Writes;
  }

  lemma {:induction false} WritesNext(start: seq<RouteState>, others: seq<seq<RouteState>>, i: nat)
    requires i < |others|
    ensures start + Writes(others, i) + others[i] == start + Writes(others, i + 1)
  {
  }

  /** The retry loop with `|others|` attempts. It goes on exactly as long as an attempt has something to store and
      somebody else has stored something meanwhile. The last attempt decides: the error of the operation; nothing,
      if there was nothing to do; a new version behind what was there and what others stored; and only after all
      attempts have met one, the conflict. So no call is lost to a conflict while an attempt is left. On failure it
      has stored nothing. */
  method RetryOnConflict(server: Server, cfg: Config, op: Op, others: seq<seq<RouteState>>)
    returns (result: Result, attempts: nat)
    requires server.Valid()
    modifies server
    ensures server.Valid() && attempts <= |others| && (attempts == 0 <==> |others| == 0)
    ensures forall i :: 0 <= i < attempts - 1 ==>
              Apply(cfg, op, Read(old(server.history), others, i)).Commit? && others[i] != []
    ensures result == Conflict ==>
              attempts == |others| && server.history == old(server.history) + Writes(others, attempts)
    ensures attempts > 0 ==>
              Attempted(cfg, op, Read(old(server.history), others, attempts - 1), others[attempts - 1], result,
                        old(server.history) + Writes(others, attempts - 1), server.history)
    ensures attempts == 0 ==> result == Conflict
  {
    hide Apply, Attempted, Read, Writes;
    ghost var start := server.history;
    attempts, result := 0, Conflict;
    NothingWritten(start, others);
    while attempts < |others|
      invariant attempts <= |others| && server.Valid() && result == Conflict
      invariant server.history == start + Writes(others, attempts)
      invariant forall i :: 0 <= i < attempts ==>
                  Apply(cfg, op, Read(start, others, i)).Commit? && others[i] != []
      invariant attempts > 0 ==>
                  Attempted(cfg, op, Read(start, others, attempts - 1), others[attempts - 1], result,
                            start + Writes(others, attempts - 1), server.history)
    {
      result := TryOnce(server, cfg, op, others[attempts]);
      ReadNewest(start, others, attempts);
      attempts := attempts + 1;
      if result != Conflict {
        return;
      }
      AttemptFailed(cfg, op, start, others, attempts - 1, server.history);
    }
  }
}
