# A model of the Gateway API traffic router plugin

The plugin lets Argo Rollouts steer traffic through Gateway API routes. It keeps no state of its own: all
state is the ordered rule list of a route, the weights of its backends and its labels. It rewrites that state
in place, finds its own earlier edits only by recognising them (by rule name, by the shape of a rule, by the
recorded names of experiment services), and writes it back under optimistic concurrency.

This project models those rewrites and proves what they do over whole runs. The theorems that tie everything
together are:

- `Runs.Isolation` and `Runs.RemovalRestores`: whatever header routes a run sets, the user's rules are exactly
  what the run without them would have made of them, and removing the managed routes restores them.
- `Runs.WholeRun`, `Runs.WholeRunExact` and `WeightRuns.ClosedForm`: the route is at all times the user's rules followed by one block
  of injected rules for each live managed route, in the order in which these were last set.
- `Routing.RunRouting`, `Routing.ReceiverIsClone` and `Routing.PlainRequestsUnmoved`: under the precedence rules
  of the Gateway API, a request without the headers of a live route goes where it went before the rollout. One
  with them goes to the canary-only clone of the source rule that accepts it best, if that rule, with these
  headers counted, is more specific than the rule the request went to before, and otherwise where it went before.
  If it went to a source rule, it goes to the clone of that rule (`Routing.SourceRequestsDiverted`).
- `ExperimentRuns.LastCall` and `ExperimentRuns.ExperimentsLeaveNothing`: exactly when the user's rules are those of
  the start with the asked weights, once experiments are over.
- `Store.NoLostUpdate` and `Store.ConcurrentIsSequential`: every stored version is an operation applied to the
  version immediately before it, and concurrent calls leave what a sequential run would.

## Files

| file | content |
|---|---|
| Gateway.dfy | Gateway API objects as values, `int32` |
| Names.dfy | names of managed rules: printing, recognising, families |
| Labels.dfy | the in-progress label |
| Rules.dfy | recognising, selecting, cloning and weighing rules, with the loops of the code |
| Experiments.dfy | what experiments do to the backends of one rule |
| Operations.dfy | the operations on a route, as a specification |
| Search.dfy | the generic search through stateful iterators |
| Routes.dfy | the in-place rewriting of an HTTP or gRPC route, proved against Operations.dfy |
| Runs.dfy | whole runs: isolation and refinement |
| WeightRuns.dfy | runs seen through weights, foreign backends and the label; convergence |
| ExperimentRuns.dfy | runs with experiments, and what is left of them |
| HeaderMatching.dfy | header lists, duplicates and merging |
| Precedence.dfy | which accepting match wins, and how appended blocks change it |
| Routing.dfy | what runs mean for requests |
| Store.dfy | the read, change and write-back protocol |
| TcpRoutes.dfy | TCP and TLS routes: two passes through collected pointers |
| SharedWeights.dfy | weights of HTTP routes as shared pointers |
| Dispatch.dfy | calls over all routes of a rollout |
| Scenarios.dfy | the documented rollouts, and runs that show where the hypotheses end |

The code is generic over HTTP and gRPC routes up to the part of a match that is not headers; so is the model
(`Gateway.Criteria`, `Rules.Config.kind`). Automatic induction is off in every lemma: a proof by induction
calls its hypothesis.

## Where code and documentation differ

The model follows the code.

- The documentation removes one header route with a `setHeaderRoute` step without a match list
  (docs/features/header-based-routing.md:182-183). The code then removes every managed rule
  (pkg/plugin/httproute.go:76-78). `Runs.RemovalByStep`: it removes the rules of the named route only, if and only
  if no other route is live or there are no source rules. `Scenarios.DocumentedRemoval`: in the example of the
  documentation both routes are removed.
- The experiment example says that services are added from the status of the rollout
  (examples/google-cloud-experiment/Readme.md:77). The code adds the destinations it is called with and uses
  the status only to know what to remove (pkg/plugin/experiment.go:86, 40-47).
- The cap on the total experiment weight is meant to prevent an overflow (pkg/plugin/experiment.go:70-74), but
  the sum itself wraps; `Experiments.ShareIsPercentage` and `Experiments.ShareAsIntended` say exactly when the
  cap works, and `Experiments.ShareOverflow` gives weights with which it does not.
- Managed routes are meant to be told apart by their names and header sets (pkg/plugin/httproute.go:199-200), but
  the shape test also hits named rules, and a base name owns the numbered names behind it. `Runs.BlockSurvives`
  says exactly when a block survives the upsert of another route; `Scenarios.WiderRouteRemoves` shows one that
  does not because of its headers, `Scenarios.NumberedRouteRemoved` one that does not because of its name.
- A header route is described as acting on requests with its headers (docs/features/header-based-routing.md:104).
  It does not reach such a request if a rule that is more specific than every clone accepts it, and it takes
  requests from less specific rules that have nothing to do with the rollout: `Routing.ReceiverIsClone` says
  exactly when, `Scenarios.TenantDiverted` is an example.
- Headers are merged without looking at names. By the field documentation of `HTTPRouteMatch.headers` a later
  entry with an equivalent name is ignored, so a canary header that the source rule also uses is lost:
  `HeaderMatching.CanaryRequestsOnly` says exactly when the managed rule accepts only canary requests.

## Hypotheses of the theorems about runs

- `Runs.Separate`: the canary and the stable service have different names and are not experiment services.
- `Runs.UserRules`: the route is an HTTP or gRPC route, no rule of the user consists of a single canary backend
  (not counting experiment backends), and none bears a name in the family of a declared managed route. A part of
  this is necessary: if removing the managed routes gives back the start, no rule of the start is one that the
  code takes for injected (`Runs.RestoredOnlyIfUnmanaged`).
- `Runs.Allowed`: a header route does not use a name whose family contains a name of the user's rules.
- `Runs.Compatible`, for `WholeRun` and the theorems that use it: setting a header route does not take a rule
  injected for a differently named route that is live then, neither by name nor by shape. `WholeRunExact` shows that
  the refinement holds at every step of a run if and only if this is so, `BlockSurvives` what it means for one
  upsert; `Runs.UntangledApart` and `Names.FamiliesMeet` say when names cannot collide.
- `Routing.AllLiveDisjoint`, for the routing theorems only: header lists share no name with the source rules.
- A rule list is no longer than the largest Go `int`.

`Scenarios.DocumentedRollout` proves that the first example of the documentation meets all that `ClosedForm` asks
for. The label, the store and the dispatch theorems hold for TCP and TLS routes too and need none of these.

## Model

| member | source | states |
|---|---|---|
| Runs.Isolation | pkg/plugin/httproute.go:32-51 | After any run with any header routes and experiments, the user's rules come first and are what the run without header operations makes of them, everything behind them is canary-only, labels are the same; each user rule keeps name, matches, filters, policy and all lasting backends in order. |
| Runs.RemovalRestores | pkg/plugin/httproute.go:263-301 | Any run followed by removal of managed routes equals the run without its header operations; with no weight operation it equals the start. |
| Runs.WholeRun | pkg/plugin/httproute.go:97-182 | Refinement to a map with move-to-end upsert: the rule list is the user's rules followed by one block per live managed route in last-set order. |
| Runs.WholeRunExact | pkg/plugin/httproute.go:173-182 | The refinement holds after every operation of a run if and only if no upsert takes a rule of another live route. |
| Runs.BlockSurvives | pkg/plugin/httproute.go:175-181 | An upsert leaves the whole block of another route if and only if none of its names is in the new family and none of its matches has all the new header names. |
| Runs.UntangledApart | pkg/plugin/plugin.go:377-394 | For untangled names only the second half matters. |
| Runs.RestoredOnlyIfUnmanaged | pkg/plugin/httproute.go:274-289 | If a run with removal at its end gives back the start, the start had no rule the code takes for injected. |
| Runs.RemovalByStep | pkg/plugin/httproute.go:76-78 | A header route step without a match list removes all injected rules; it removes only those of its route if and only if no other route is live or there is no source rule. |
| Runs.BlockReplaced | pkg/plugin/httproute.go:173-181 | An upsert removes the whole old block of its own name, whatever the old and new header lists are. |
| Runs.WeightIgnoresInjected | pkg/plugin/httproute.go:32-58 | Setting a weight succeeds or fails, and changes the user's rules, as if the injected rules were not there, and leaves these alone, experiments included. |
| Runs.UpsertBehind | pkg/plugin/httproute.go:95-182 | An upsert keeps the user's rules in place and order; source rules are found among them only. |
| Runs.AnchoredWithoutExperiments | pkg/plugin/httproute.go:201-207 | Without experiments the hypothesis on a user rule is exactly that it does not consist of one canary backend. |
| Runs.SameBlock | pkg/plugin/httproute.go:110-171 | The rules injected for a route are the same whenever it is set: weights and experiments do not show in them. |
| WeightRuns.ForeignConserved | pkg/plugin/experiment.go:38-47 | Over any run, backends that are neither canary, stable nor experiment services stay as they were in every user rule, in all fields and in order. |
| WeightRuns.ClosedForm | pkg/plugin/httproute.go:32-51 | Without experiments the rule list after any run is the user's rules with the last weight, then the blocks of the live routes. |
| WeightRuns.LabelOverRun | pkg/plugin/labels.go:9-42 | Over any run on a route of any kind the label is present, with its value, exactly if the last stored weight is not zero, and no other label changes. |
| WeightRuns.TwoCallsSettle | pkg/plugin/experiment.go:136-161 | Whatever header routes are live, with no active experiment two equal calls reach a fixed point with the asked weights in every rule that is not injected and no recorded service in the selected rule; the injected rules stay; one call suffices if and only if no recorded service was there or the weight is 0. |
| ExperimentRuns.LastCall | pkg/plugin/experiment.go:136-161 | After any run one call without an active experiment removes exactly the recorded services from the selected rule. If that rule had no service at the start, or none stays, then the call leaves the rules of the start with the asked weight if and only if the first is so, no service stays and, if one was there before the call, the weight is 0. |
| ExperimentRuns.ExperimentsLeaveNothing | pkg/plugin/experiment.go:36-47 | The same for two calls with different records: the two records must cover what is left, and the first must do so alone or the last weight be 0. |
| ExperimentRuns.NothingFoundNothingLeft | pkg/plugin/httproute.go:34-56 | After a run in which no service of an experiment was found, one call gives the rules of the start with the asked weight. |
| ExperimentRuns.RunKeepsOthers | pkg/plugin/experiment.go:20-34 | Over any run, experiments touch only the one rule that was selected at the start. |
| Scenarios.DocumentedRollout | docs/features/header-based-routing.md:61-104 | The documented steps meet the hypotheses and leave, field by field, the split rule with 50 and 50 and the rules of both header routes. |
| Scenarios.DocumentedRemoval | docs/features/header-based-routing.md:158-183 | The documented removal of one header route removes both. |
| Scenarios.SecondRollout | pkg/plugin/httproute.go:177 | A rollout may set a header route whose headers are among those of a route of an earlier rollout that has been removed; while that route is live it may not. |
| Scenarios.WiderRouteRemoves | pkg/plugin/httproute.go:177 | Upserting a route with fewer header names removes the rules of another route whose names include them. |
| Scenarios.NumberedRouteRemoved | pkg/plugin/plugin.go:385-391 | Upserting the route `a` removes the rule of the route `a-1`. |
| Scenarios.DashedRouteStays | pkg/plugin/plugin.go:385-391 | With one source rule the rule of the route `a-` stays, although both own the name `a--1`. |
| Scenarios.TenantDiverted | pkg/plugin/httproute.go:149-168 | A request moves from a rule without the two services to the canary clone of a less specific source rule. |
| Names.FamiliesMeet | pkg/plugin/plugin.go:381-394 | Two base names own a common rule name if and only if they are equal or one is the other plus a dash and nothing or a number. |
| Names.AtoiPrint | pkg/plugin/plugin.go:388 | `Atoi` reads back every number that is printed, with and without a sign, exactly if it fits a Go `int`. |
| Names.PrintedNames | pkg/plugin/httproute.go:120-123 | The first name is the base name, the others the base name, a dash and the position in plain decimal digits. |
| Names.PrintedInFamily | pkg/plugin/httproute.go:120-123 | Every printed rule name is recognised as belonging to its base name. |
| Names.RuleNameInjective | pkg/plugin/httproute.go:115-123 | Different positions get different rule names. |
| Names.ForeignName | pkg/plugin/plugin.go:377-394 | Untangled base names never own each other's printed names. |
| Names.SurprisingFamilies | pkg/plugin/plugin.go:385-391 | The base name `a` owns `a-1`, `a-+1`, `a--1` and `a-01`; `a-` owns `a--1` too. |
| Names.OtherFamilies | pkg/plugin/plugin.go:385-391 | It does not own `a-x`, `a-1-1`, `a-`, `a-+`, `a1` or `b-1`. |
| Names.IsManagedRuleName | pkg/plugin/plugin.go:381-394 | The loop over the map answers whether some base name owns the rule name, for every order of iteration. |
| Rules.ContainsAllHeaders | pkg/plugin/httproute.go:218-232 | True exactly if every wanted name occurs in the header list. |
| Rules.CoversMeans | pkg/plugin/httproute.go:218-232 | A header list has all wanted names exactly if the set of its names, compared exactly, includes theirs. |
| Rules.IsManagedRule | pkg/plugin/httproute.go:201-214 | True exactly if the rule has one canary backend and, for a given header list, a match with all its names. |
| Rules.Recognise | pkg/plugin/httproute.go:38 | By name first, by shape as a fallback. |
| Rules.AnyManagedMeans | pkg/plugin/httproute.go:33-40 | Taken for injected are the rules with the name of a declared route, numbered or not, and the rules with a single canary backend. |
| Rules.ManagedAsMeans | pkg/plugin/httproute.go:173-180 | An upsert takes the rules in the family of its name, and those with a single canary backend and a match with all its header names. |
| Rules.GetHeaderList | pkg/plugin/httproute.go:234-261 | One header match per entry in order, exact before prefix before regex, or the error if an entry has no value. |
| Rules.HeaderListMeans | pkg/plugin/httproute.go:244-259 | Entry by entry: the name, an exact value as it is, a prefix or else a regular expression as a regular expression; an error exactly if all three are empty. |
| Rules.CloneRule | pkg/plugin/httproute.go:112-168 | The loops build the clone that `CloneMeans` describes. |
| Rules.CloneMeans | pkg/plugin/httproute.go:112-168 | Field by field: the source's filters and no policy; its matches with the headers behind its own (or one match with only the headers); one backend, the canary in group "" of kind Service, on the port of the first canary reference, without a weight. |
| Rules.StripShorter | pkg/plugin/httproute.go:274-285 | The change flag is set exactly if a rule was recognised. |
| Operations.ExactReplacement | pkg/plugin/httproute.go:173-182 | After an upsert on any rules, those in the family of the name are exactly the new block at the end, one per source rule in source order. |
| Operations.UpsertMeans | pkg/plugin/httproute.go:95-182 | An upsert keeps what it does not take, in order, and puts behind it one rule for each rule that names both services, in order, under the printed names and as `CloneMeans` says. |
| Operations.HeaderSucceeds | pkg/plugin/httproute.go:75-104 | Setting a header route is an upsert and changes no label; it fails on an entry without a value, and if no rule names both services. |
| Operations.RemovalMeans | pkg/plugin/httproute.go:274-289 | Removal keeps exactly the rules not taken for injected, in order, with the same labels; it stores nothing if that is all of them; a step without a match list does the same. |
| Operations.WeightMeans | pkg/plugin/httproute.go:22-58 | Canary backends get the weight, stable ones what is missing to 100, nothing else changes, rules taken for injected stay; then, for HTTP only, the first rule that names one of the services goes through the experiment handler, which does nothing without an experiment or for an active one without destinations. |
| Operations.WeightSucceeds | pkg/plugin/httproute.go:31-54 | It succeeds exactly if the services differ and each is named by a rule that is not taken for injected; otherwise it reports the error of the kind of route. |
| Operations.TcpWeightMeans | pkg/plugin/tcproute.go:19-41 | The same for TCP and TLS routes, for every rule; if the services are the same, the second pass wins. |
| Operations.UniqueNames | pkg/plugin/httproute.go:105-123 | An upsert keeps the names of named rules pairwise distinct. |
| Operations.UpsertTwice | pkg/plugin/httproute.go:175-182 | Repeating an upsert changes nothing if and only if no source rule bears a name of the family. |
| Operations.ExperimentRuleExists | pkg/plugin/experiment.go:20-34 | After both services were found the experiment handler finds a rule, so its error cannot occur. |
| Routes.Route.SetWeight | pkg/plugin/httproute.go:31-61 | The in-place code stores what `WeightMeans` describes or reports its error; on error the copy has been weighed. |
| Routes.Route.SetHeader | pkg/plugin/httproute.go:75-182 | The upsert that `UpsertMeans` describes, removal when there is no match list, or one of the two errors, with nothing changed on error. |
| Routes.Route.RemoveManagedRules | pkg/plugin/httproute.go:274-289 | Removes exactly the recognised rules, and reports whether there were any. |
| Routes.Route.HandleExperiment | pkg/plugin/experiment.go:15-165 | Rewrites the backends of the first rule with one of the two services, as `ActiveMeans` and `InactiveMeans` say, and nothing else; fails exactly if there is no such rule. |
| Routes.Route.EnsureInProgressLabel | pkg/plugin/labels.go:9-42 | Leaves the specified labels and reports whether they changed. |
| Labels.MarkedMeaning | pkg/plugin/labels.go:19-41 | One call sets or deletes the one label by whether the weight is zero, and no other. |
| Labels.ConfiguredLabel | pkg/plugin/labels.go:44-56 | A configured key and value are used; without them the defaults are. |
| Experiments.HandleKeepsCore | pkg/plugin/experiment.go:79-161 | Whatever an experiment does, all other backends and the canary and stable ones up to weight stay, in order. |
| Experiments.ActiveMeans | pkg/plugin/experiment.go:57-133 | An active experiment gives the first stable backend what the destinations leave of 100 and appends, in order, a backend with its weight and found port for each destination that is found, absent and not repeated; without destinations it does nothing. |
| Experiments.InactiveMeans | pkg/plugin/experiment.go:136-161 | Otherwise the recorded services are dropped, if one is there, and the others stay in order, with 100 on stable and 0 on canary; without one nothing changes. |
| Experiments.SelectedMeans | pkg/plugin/experiment.go:20-30 | The selected rule names the canary or the stable service, and no earlier one does. |
| Experiments.ExperimentRoundTrip | pkg/plugin/experiment.go:57-161 | For the handler alone, starting and stopping restores the backends, with weights 100 and 0 if a service had been added, and otherwise with the stable share left in place. |
| Experiments.ActivationConserves | pkg/plugin/experiment.go:65-131 | Distinct new services that are all found and the first stable backend together weigh 100; the other backends weigh what they did. |
| Experiments.DocumentedSplit | examples/google-cloud-experiment/Readme.md:28-30 | Stable and canary at 0 with new services: the weights sum to 100. |
| Experiments.ActivateTwice | pkg/plugin/experiment.go:79-131 | Handling the same experiment again changes nothing if and only if the rule has its own stable backend or the experiment adds none with a weight other than the share. |
| Experiments.ActivateDistinct | pkg/plugin/experiment.go:86-131 | Backend names stay pairwise distinct. |
| Experiments.ShareIsPercentage | pkg/plugin/experiment.go:65-77 | The stable share is in 0..100 if and only if the wrapped sum is not negative. |
| Experiments.ShareAsIntended | pkg/plugin/experiment.go:65-77 | The share is 100 minus the capped sum if and only if the sum fits an `int32` or wraps to at least 100. |
| Experiments.ShareOverflow | pkg/plugin/experiment.go:65-77 | Two weights whose sum wraps get past the cap. |
| Search.GetAllRouteRules | pkg/plugin/plugin.go:429-461 | The iterator loops return all rules with backends that name everything in the list, in order, or the error if there is none. |
| Search.GetRouteRule | pkg/plugin/plugin.go:396-424 | Returns the first such rule; with an empty list it never finds one. |
| Search.AcceptedPicks | pkg/plugin/plugin.go:429-461 | Both searches look for the rules that have backends and one for every name, each once and in order. |
| Search.SearchesAgree | pkg/plugin/plugin.go:396-461 | Both searches agree if and only if the list is not empty or no rule has backends. |
| Search.ListIterator.Next | pkg/plugin/httproute.go:317-329 | Visits every element exactly once and reports whether another follows. |
| HeaderMatching.MergedHold | pkg/plugin/httproute.go:156-161 | A merged list asks for the source's headers and for those canary headers whose names the source does not use. |
| HeaderMatching.CanaryRequestsOnly | pkg/plugin/httproute.go:156-161 | A managed match accepts only requests with the canary headers, for every way of comparing values, if and only if no source header hides a different canary header. |
| HeaderMatching.CountedEntries | go.mod:15 | The number of header names that precedence counts is the number of entries that a match needs. |
| HeaderMatching.Equivalent | go.mod:15 | Header names are equivalent exactly if they are equal letter by letter up to ASCII case. |
| Precedence.AppendedLeads | test/e2e/chainsaw/httproute-two-headers/chainsaw-test.yaml:9-14 | With blocks behind any rules, the best match is the old one or that of the chosen route, by strictly greater precedence; the chosen route has the most headers, and is the earliest on ties. |
| Routing.CloneSemantics | pkg/plugin/httproute.go:149-168 | Match by match, a managed rule accepts what its source accepts and what carries the canary headers, with precedence raised by their number. |
| Routing.Injection | test/e2e/chainsaw/httproute-two-headers/chainsaw-test.yaml:9-14 | Where any request goes, refused ones included, once a block is appended to any rules, as an exact case distinction. |
| Routing.RunRouting | docs/features/header-based-routing.md:98-108 | Where every request goes after any run: where it went at the start, or, with strictly greater precedence, to the counterpart of its best source match in the block of the chosen live route. |
| Routing.ReceiverIsClone | docs/features/header-based-routing.md:287-324 | The receiver is the old one unless the request is diverted, and otherwise the same match in the clone of the best source rule for the chosen route, which has only a canary backend. |
| Routing.SourceRequestsDiverted | docs/features/header-based-routing.md:98-104 | A request that a source rule received is diverted, to a clone of this rule, exactly if it carries the headers of a live route and the chosen one has a non-empty header list; one that no source rule accepts never is. |
| Routing.SourceLeader | go.mod:15 | Every request has a receiver or is refused, and has a best source match or none: the hypotheses of RunRouting on a request can always be met. |
| Routing.PlainRequestsUnmoved | docs/features/header-based-routing.md:98-108 | After any run, a request without the headers of a live route meets exactly the accepting matches it met at the start. |
| Routing.ChosenRouteIsBest | docs/features/header-based-routing.md:104 | Among the live routes whose headers the request carries, the chosen one has the most header names, and is the earliest such. |
| Routing.RoutedOnce | go.mod:15 | Every request has exactly one receiver, and is refused exactly if no match accepts it. |
| Routing.RoutedBest | go.mod:15 | The receiver has the highest precedence of all accepting matches and comes first among equals. |
| Routing.HttpPrecedence | go.mod:15 | Exact path, longer prefix, method, more headers, more query parameters, in this order. |
| Routing.GrpcPrecedence | go.mod:15 | Longer service, longer method, more headers, in this order. |
| Store.NoLostUpdate | pkg/plugin/tcproute.go:21-47 | On a route of any kind and for every interleaving: stored versions are exact transformations of their predecessors, a call stores at most one, only a successful call has stored one, and history only grows. |
| Store.ConcurrentIsSequential | pkg/plugin/httproute.go:90-186 | Without foreign writers the newest version is a sequential run of the storing calls in commit order. |
| Store.ConcurrentIsolation | pkg/plugin/httproute.go:90-186 | Isolation holds for every interleaving of calls. |
| Store.TryOnce | pkg/plugin/httproute.go:25-65 | One attempt stores the transformation of what it read exactly if there is something to store and nobody stored meanwhile, and otherwise stores nothing and says why. |
| Store.RetryOnConflict | pkg/plugin/httproute.go:25-65 | The loop goes on exactly as long as attempts meet conflicts and ends in a conflict only after all of them; the last attempt decides, on what it read. |
| Store.UndisturbedCall | pkg/plugin/httproute.go:25-65 | A call that reads and writes back without another writer in between stores its operation, or finds nothing to do, or reports its own error. |
| Store.ConflictRetries | pkg/plugin/httproute.go:25 | After a conflict a call is ready to start over, and has stored nothing. |
| Store.FailuresExplained | pkg/plugin/httproute.go:25-65 | A call fails only by giving up or because its operation fails on a stored version. |
| SharedWeights.SharedRoute.SetWeight | pkg/plugin/httproute.go:41-58 | With one cell for the weight and one for the rest shared by many backends, and experiment cells stored over them, the rules see what the specification on values says; no cell is written. |
| SharedWeights.SharedRoute.HandleExperiment | pkg/plugin/experiment.go:79-160 | Every rule but the selected one keeps its very pointers. |
| TcpRoutes.GetBackendRefs | pkg/plugin/plugin.go:463-480 | Collects every reference with the name once, in document order, or fails if there is none. |
| TcpRoutes.SetWeight | pkg/plugin/tcproute.go:27-41 | Every backend object ends with the weight of the two passes (`Operations.TcpWeightMeans`) and is otherwise untouched; shared cells are not written. |
| TcpRoutes.SetRouteWeight | pkg/plugin/tcproute.go:21-47 | The pointer code on a decoded route computes the specification on values. |
| TcpRoutes.TwoPassIsOnePass | pkg/plugin/tcproute.go:27-41 | Two passes equal the single pass of HTTP routes if and only if the services differ or the weight equals the rest. |
| TcpRoutes.CollectedExactly | pkg/plugin/plugin.go:463-480 | The collected references are exactly the backends of the route with the name. |
| TcpRoutes.FlatAt | pkg/plugin/plugin.go:463-480 | References are visited rule by rule in document order. |
| TcpRoutes.NamedPicks | pkg/plugin/plugin.go:463-480 | Those with the name are collected, each once and in this order. |
| Dispatch.Cluster.SetWeight | pkg/plugin/plugin.go:66-117 | The four loops do what `CallMeans` describes. |
| Dispatch.Cluster.CallMarked | pkg/plugin/plugin.go:119-153 | The calls for header routes sweep the HTTP and gRPC routes that are marked for them; a malformed match list fails before a route is read, and an unchanged route is not written. |
| Dispatch.FailFast | pkg/plugin/plugin.go:486-494 | Each route is transformed once for each of its occurrences before the first failure, and no other; the error is that of the failing one, on its route as it then is. |
| Dispatch.CallTargets | pkg/plugin/plugin.go:79-116 | Setting a weight concerns every entry of the four lists, header routes exactly the marked HTTP and gRPC entries; each once, in the order HTTP, gRPC, TCP, TLS and of the lists. |
| Dispatch.OneRoute | pkg/plugin/httproute.go:75-104 | When a single route fails, with which error, and that otherwise it becomes what the operation makes of it; only a changed route has to be written. |
| Dispatch.CallMeans | pkg/plugin/plugin.go:66-117 | A whole call over the entries of the lists: the error for no routes, or the visit of the entries that take part up to the first that fails. |
| Dispatch.LabelOverCalls | pkg/plugin/labels.go:9-42 | Over any sequence of calls, failing ones included, the label is on a route exactly if the weight last stored on it is not zero, and no other label changes. |
| Dispatch.AllLabelled | docs/quick-start.md:274-277 | After a call without error every entry of the four lists is a route that carries the label exactly if the weight is not zero. |

## Left out

- Kubernetes clients, RPC serving, logging, configuration decoding and validation, and route discovery by label
  selector: route names are inputs.
- The retry limit and the delays between retries: `Store.Event.GiveUp` may happen at any time.
- An update that takes effect although its answer is lost: a failing API call stores nothing in the model.
- The port of an experiment service: the result of looking a service up is an input, `None` if it fails.
- Weights as pointers in gRPC routes: the code stores them as for HTTP routes, and there is no experiment.
- `nil` and empty slices are told apart only where the code does, in the header list of the shape test.
- The meaning of paths, queries, methods and header values to a gateway: `HeaderMatching.Provider` is arbitrary.
- Precedence among several routes, and host names: one route is considered at a time.
- TLS routes are the TCP code with another error text; gRPC routes are the generic model.
- `UpdateHash`, `SetMirrorRoute`, `VerifyWeight`: constant answers.
