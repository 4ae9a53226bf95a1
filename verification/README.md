# The access index of kcp-access-vw

The Access Virtual Workspace answers one question: which logical clusters may this caller see? It keeps an in-memory
index for that. A translator receives binding events (apply, remove, forget a cluster), counts for each subject and
cluster the bindings that name the subject, and calls a graph only when such a count leaves or reaches zero. Readers
query the graph. Nothing in the code computes the answer from the bindings; these Dafny files prove that the answer is
nevertheless always the declared one:

> a caller sees cluster c exactly when some binding applied now in c names the caller or one of its groups.

How the files fit together, bottom up:

- `Wrappers.dfy` – options and results.
- `Rbac.dfy` – subjects of bindings and the identities they are indexed under. `Denotes` says it in texts.
- `Ordering.dfy` – lexicographic order, sorting, and why a sorted list of distinct names is unique.
- `GraphSpec.dfy` – the graph as a value, its four mutations, and replays of call sequences.
- `Query.dfy`, `Graph.dfy` – the graph object with its in-place maps, the query, and the snapshot. A ghost field records
  the calls; the states readers can see are the replays of its prefixes.
- `Endpoint.dfy` – the URL of a cluster.
- `Index.dfy` – bindings, the claims they make (one claim: one binding names one subject), events, and the graph calls an
  event makes. A *schedule* is the order in which the loops of one event meet the subjects, which map iteration leaves open.
- `Publish.dfy` – one event against the graph: no edge flickers on the way, minimal calls, one outcome for all schedules.
  `Settle` declares that outcome: access is recomputed from the claims.
- `History.dfy` – whole histories: declarative access, history independence, rebuilds, commutation, removal, forgetting,
  endpoints that move. `Run(events)` settles the events one by one from an empty index.
- `Translator.dfy` – the translator object. Each public method is proved to record exactly the calls of its event under
  some legal schedule, and to end in `Settle`. `Valid` says that the reference sets and the graph both stand for the claims
  of the stored bindings and that the index is `Run` of the ghost history of events; a translator on an empty graph starts
  valid and every method keeps it.
- `Conservation.dfy` – the count of references.
- `Provider.dfy` – reconcilers, informer handlers and lifecycle hooks as events. A provider is `Valid` if its translator is
  and every event so far came with the provider's own URLs; starting it on an empty graph makes it so, every method keeps it.
- `Informers.dfy` – the single-shard mode: what the index shows after any notifications, against the informers' store.
- `Protocol.dfy` – the running system as a transition system: objects change, workers dequeue, read, take the
  translator's lock and publish one graph call at a time; readers look at any moment. Clusters join and depart at any time;
  a cluster departs in two steps, in either order: the manager drops it (lookups fail from then on, its objects are gone)
  and the lifecycle hook forgets it. `Inv` is what every step keeps.
- `Convergence.dfy` – quiet systems against the world, and why the workers come to be done.
- `Departure.dfy` – what the workers leave in the end, exactly, from every reachable state; dropped and forgotten clusters.
- `Scenarios.dfy` – small runs, step by step, for the failing inputs.
- `Review.dfy` – the SelfClusterAccessReview storage and the MCP scope, and the end-to-end statements.
- `WorkspacePath.dfy` – workspace paths: parser, printer, and the loop that creates a path.

Some properties one might expect are false of the code. Each has a failing input and is proved exactly as far as it holds:

- The latest applied endpoint is not always the one served: a new binding whose subjects are all counted already does not
  announce its endpoint (`LatestEndpointCanLose`; exactly when it is served: `ServedAtLatestIff`).
- Removing a fresh binding does not always restore the endpoint: one that brought a new subject and another endpoint to a
  cluster served already takes the subject back and leaves the endpoint (`RemovalCanLeaveEndpoint`; exactly when everything
  is restored: `RemovalUndoesApply`). When every apply passes the cluster's own URL, as the provider does, neither shows.
- A caller can lose sight of a cluster it is entitled to before and after an event. When a binding moves from one of its
  groups to another, the old edge is revoked before the new one is granted, and a query in between misses the cluster
  (`AnswerCanMiss`, a run from the start). A cluster is seen at every moment of an event, for every order of its loops,
  exactly when one and the same identity of the caller is named for it before and after (`SeenThroughoutIff`).
- A departed cluster can come back: a read that found its object can be published after the cluster was forgotten, and
  nobody undoes that while the cluster is away (`LeakHappens`). `WorkLeavesWhatRemains` says what the workers leave, from any
  reachable state; for a departure, `HookLeavesFoundReads` and `DropLeavesIndexed` say what that comes to. The graph has
  no edge to the cluster exactly when no binding that remains names anybody (`DepartedClusterKeeps`).
- A present cluster can be hidden: if the hook runs while the cluster is still, or again, looked up, what was indexed is
  forgotten and nothing queues it anew (`HidingHappens`). The graph recovers exactly when everybody entitled to the cluster
  is so by an object that was queued or waiting then (`EarlyHookHides`).
- In single-shard mode the informers know an object by kind and name, the index by cluster, too. An object whose cluster
  annotation changes stays indexed in its old cluster, even once deleted (`MovedObjectStays`); the index is the store
  exactly when no object moved without being deleted where it was (`IndexIsTheStoreIff`).
- `HasAccess` does not mean that `ClientFor` succeeds: not for a caller without a user name, nor for the nameless workspace
  under an empty base URL (`NoClientWithoutName`, `NoClientWithoutUrl`). `AccessAgainstClient` says exactly when they agree.
- The "Kind:Name" texts of a snapshot can hide a difference if kinds other than users and groups were granted
  (`SnapshotNeedsKnownKinds`; exactly when snapshots decide: `SnapshotDecidesIff`).
- Service accounts can share an identity if a namespace has a colon (`AccountsCanCollide`; exactly when they do:
  `ServiceAccountIdentity`).

## Model

| member | source | states |
|---|---|---|
| Rbac.TranslateSubjects | pkg/rbacprovider/translator.go:182-197 | the list is free of repetitions and holds exactly the identities that the subjects denote, by the texts of kind, name and namespace |
| Rbac.ResolutionByKind | pkg/rbacprovider/translator.go:199-220 | users and groups keep their name; a service account is "system:serviceaccount:namespace:name" with its own namespace if it has one, and otherwise the binding's; without either, and for every other kind, nobody |
| Rbac.ResolvedAreDenoted | pkg/rbacprovider/translator.go:182-220 | a subject list resolves to exactly the identities one of its subjects denotes |
| Rbac.TranslationExtends | pkg/rbacprovider/translator.go:182-197 | identities come in the order of first mention: more subjects only add at the end |
| Rbac.TranslationIsResolved | pkg/rbacprovider/translator.go:182-220 | translation drops exactly the unresolvable subjects and the repetitions |
| Rbac.TranslationKinds | pkg/rbacprovider/translator.go:199-220 | only users and groups are ever indexed |
| Rbac.ServiceAccountIdentity | pkg/rbacprovider/translator.go:205-216 | a service account resolves iff its effective namespace is not empty; two share an identity iff "namespace:name" reads the same, for colon-free namespaces iff they are the same account; only a namespace beginning with a colon takes an identity with an empty namespace |
| Rbac.AccountsCanCollide | pkg/rbacprovider/translator.go:216 | two accounts, one with a colon in its namespace, that share an identity |
| GraphSpec.PerformEdges | pkg/graph/graph.go:86-154 | what each graph call does to the edge relation, on every graph |
| GraphSpec.PerformEndpoints | pkg/graph/graph.go:86-127 | only a call that names the cluster and carries a URL moves a recorded endpoint |
| GraphSpec.PerformKeepsWellFormed | pkg/graph/graph.go:86-154 | each call keeps the invariant: no subject with nothing to reach, endpoints for exactly the reachable clusters |
| GraphSpec.ReplayKeepsWellFormed | pkg/graph/graph.go:86-154 | the invariant holds after every sequence of calls |
| GraphSpec.EdgesDetermineAccess | pkg/graph/graph.go:71-72 | the access map holds nothing beyond the edge relation |
| GraphSpec.ForgetUnreachedIsIdle | pkg/graph/graph.go:142-154 | forgetting a cluster nobody reaches changes nothing |
| AccessGraph.Graph.Grant | pkg/graph/graph.go:86-94 | the new state is the grant of the old one, recorded once in the history the state is a replay of |
| AccessGraph.Graph.SetEndpoint | pkg/graph/graph.go:101-108 | a known cluster moves, an unknown one stays unknown, access is untouched |
| AccessGraph.Graph.Revoke | pkg/graph/graph.go:113-127 | the edge goes, and with the last edge of the cluster its endpoint |
| AccessGraph.Graph.AnyAccess | pkg/graph/graph.go:129-136 | true iff some subject reaches the cluster |
| AccessGraph.Graph.Forget | pkg/graph/graph.go:142-154 | deleting while ranging removes exactly the cluster's edges and endpoint, in every iteration order |
| AccessGraph.Graph.ClustersFor | pkg/graph/query.go:22-48 | the result lists exactly the clusters that the user by that name or a listed group by its name reaches, joined with the endpoint or an empty one, strictly increasing by name |
| AccessGraph.Graph.TakeSnapshot | pkg/graph/graph.go:175-200 | the snapshot lists, under each key, the sorted clusters of a subject with that key, and a copy of the endpoints |
| AccessGraph.SnapshotKeyInjective | pkg/graph/graph.go:181 | kinds without a colon make the "Kind:Name" key injective |
| AccessGraph.SnapshotSays | pkg/graph/graph.go:175-200 | under "User:name" and "Group:name" exactly the clusters that user or group reaches, in order, and nothing under other texts |
| AccessGraph.SnapshotLosesNothing | pkg/graph/graph.go:175-200 | for users and groups two snapshots agree iff the access relations do |
| AccessGraph.SnapshotDecidesIff | pkg/graph/graph.go:175-200 | snapshots tell well-formed graphs over a set of subjects apart iff no two of the subjects share a key |
| AccessGraph.SnapshotNeedsKnownKinds | pkg/graph/graph.go:37-47 | with other kinds, one grant to each of two subjects gives different access behind one snapshot |
| Query.AnswerSays | pkg/graph/query.go:22-48 | on every graph: listed iff the user by name or a listed group by name reaches the cluster, with the recorded endpoint or an empty one, in the order of the names |
| Query.AnswerIsUnique | pkg/graph/query.go:39-47 | exactly one list answers a query, so map order and sorting algorithm cannot show |
| Query.GroupOrderIsIrrelevant | pkg/graph/query.go:33-37 | permuting or repeating groups does not change the answer |
| Query.MoreGroupsSeeMore | pkg/graph/query.go:33-37 | more groups never lose a slice |
| Query.EndpointNeverMisses | pkg/graph/query.go:40-45 | on a well-formed graph every listed endpoint is a recorded one |
| Ordering.IncreasingUnique | pkg/graph/query.go:46 | a set of elements has at most one strictly increasing enumeration |
| Ordering.LessIff | pkg/graph/query.go:46 | the order is Go's: smaller at the first difference, or a proper prefix |
| Ordering.SortByIncreasing | pkg/graph/query.go:46 | sorting distinct keys keeps the elements and makes them strictly increasing |
| Endpoint.EndpointText | pkg/rbacprovider/provider.go:144-151 | base, one slash, cluster, whether or not the base is written with its slash; the cluster alone without a base |
| Endpoint.EndpointsAreDistinct | pkg/rbacprovider/provider.go:144-151 | distinct clusters have distinct endpoints |
| Endpoint.EmptyEndpoint | pkg/rbacprovider/provider.go:144-151 | only the nameless cluster under an empty base has an empty endpoint |
| Index.RefsAreDetermined | pkg/rbacprovider/translator.go:154-180 | the reference sets are a function of the claims: no empty inner map or set is left behind |
| Index.EdgeIffReferenced | pkg/rbacprovider/translator.go:161-173 | an edge is wanted iff its reference set is not empty |
| Publish.NoFlicker | pkg/rbacprovider/translator.go:91-152 | at every point between two graph calls of an event: well-formed graph, every edge wanted before and after is there, none wanted at neither is, other clusters untouched |
| Publish.NoForeignEndpoint | pkg/rbacprovider/translator.go:103-135 | part-way the event's cluster is served at its old endpoint or at the event's |
| Publish.MinimalDelta | pkg/rbacprovider/translator.go:113-130 | Grant iff absent before and present after, Revoke iff present before and absent after, each call at most once |
| Publish.CallsOrder | pkg/rbacprovider/translator.go:91-135 | revokes come before grants, and last the new endpoint iff a known binding's changed, or the forgetting iff a cluster is forgotten |
| Publish.CallsSettle | pkg/rbacprovider/translator.go:91-152 | every iteration order ends in the same declared outcome, graph and bindings in step |
| Translator.Translator.constructor | pkg/rbacprovider/translator.go:55-61 | on an empty graph the translator starts consistent and empty |
| Translator.Translator.Apply | pkg/rbacprovider/translator.go:103-135 | the state settles the apply, the calls made are its minimal ones in a legal order, references and graph stay in step |
| Translator.Translator.MoveReferences | pkg/rbacprovider/translator.go:110-130 | the two loops revoke exactly the lost edges and grant exactly the gained ones, once each |
| Translator.Translator.Remove | pkg/rbacprovider/translator.go:137-141 | the same for a removal, including of an unknown binding |
| Translator.Translator.RemoveLocked | pkg/rbacprovider/translator.go:143-152 | the binding goes and exactly the edges it alone held are revoked, even when its subject list has repetitions |
| Translator.Translator.Forget | pkg/rbacprovider/translator.go:91-101 | the same for forgetting a cluster, deleting while ranging, in every order |
| Translator.Translator.IncrementRef | pkg/rbacprovider/translator.go:154-166 | one claim more; a grant iff it is the first for its subject and cluster |
| Translator.Translator.DecrementRef | pkg/rbacprovider/translator.go:168-180 | one claim less; a revoke iff it was the last; nothing for a claim that is not there |
| Translator.ValidMeansDeclared | pkg/rbacprovider/translator.go:44-180 | for every translator and every history: refs[s][c] is exactly the set of standing bindings in c naming s, nothing empty is kept, and the graph shows (s, c) iff that set is not empty |
| History.StoredIffStands | pkg/rbacprovider/translator.go:103-152 | a binding is stored, with its latest subjects and endpoint, iff an apply of it stands: nothing touched its key since |
| History.EdgeIffEntitled | pkg/rbacprovider/translator.go:91-180 | after every history the graph shows an edge iff a standing apply in the cluster names the subject |
| History.RunServes | pkg/rbacprovider/provider.go:144-151 | with provider endpoints every history serves exactly the reachable clusters, each at its own URL |
| History.HistoryIndependent | pkg/rbacprovider/translator.go:103-180 | equal bindings give equal access whatever the histories, and equal indexes with provider endpoints |
| History.AnyRebuildAgrees | pkg/rbacprovider/translator.go:103-135 | a fresh start that applies the surviving bindings in any order agrees in bindings and access with every history, and in everything with provider endpoints |
| History.IndependentEventsCommute | pkg/rbacprovider/translator.go:91-152 | events touching no common binding commute: access always, the whole index with provider endpoints |
| History.RemovingAllEmpties | pkg/rbacprovider/translator.go:143-180 | removing every binding in any order leaves no access and no endpoint |
| History.ForgetRemovesOneCluster | pkg/rbacprovider/translator.go:91-101 | forgetting removes that cluster's bindings, edges and endpoint and nothing else; the final call on the graph is idle |
| History.ForgottenUntilApplied | pkg/rbacprovider/translator.go:91-101 | right after a forget nobody reaches the cluster, and an apply in it that follows directly brings it back for everybody it names |
| History.ForgottenStays | pkg/rbacprovider/translator.go:91-101 | after any history: whoever reaches a cluster that was forgotten is named by an apply in that cluster after the forget |
| History.ResyncIsIdle | pkg/rbacprovider/translator.go:103-135 | re-applying an unchanged binding changes nothing and calls nothing |
| History.ServedAtLatestIff | pkg/rbacprovider/translator.go:132-134 | exactly when the endpoint of an apply is the one served afterwards |
| History.LatestEndpointCanLose | pkg/rbacprovider/translator.go:161-165 | two applies to one cluster after which the earlier endpoint is still served |
| History.ReappliedEndpointWins | pkg/rbacprovider/translator.go:107-134 | a known binding re-applied at another endpoint moves a still reachable cluster there |
| History.RemovalUndoesApply | pkg/rbacprovider/translator.go:103-152 | removing a fresh binding restores bindings and access; the endpoint exactly under the stated condition |
| History.RemovalCanLeaveEndpoint | pkg/rbacprovider/translator.go:103-152 | two applies and a removal of the second after which the second's endpoint is still served |
| Conservation.ReferencesConserved | pkg/rbacprovider/translator.go:154-180 | as many reference entries as the bindings have distinct subjects, none once no binding is left |
| Provider.KeysCorrespond | pkg/rbacprovider/translator.go:65-86 | objects and keys correspond one to one; only a RoleBinding without namespace would share a key with a ClusterRoleBinding |
| Provider.Provider.constructor | pkg/rbacprovider/provider.go:85-124 | a provider started on an empty graph is valid: sound translator, and only endpoints of its own in the history |
| Provider.Provider.ApplyObject | pkg/rbacprovider/translator.go:63-74 | an object is applied under its own key, with its translated subjects and its cluster's URL; the provider stays valid |
| Provider.Provider.Reconcile | pkg/rbacprovider/multicluster.go:166-216 | it fails iff the cluster is unknown or the read fails, and then no binding, edge, endpoint or graph call changes; an object found missing is removed; an object found is applied with its translated subjects at its cluster's URL |
| Provider.Provider.OnCRB | pkg/rbacprovider/informers.go:75-86 | an object is applied under its name in its cluster, root if it has no annotation; a deleted one or a tombstone is removed; anything else changes nothing |
| Provider.Provider.OnRB | pkg/rbacprovider/informers.go:88-121 | the same for RoleBindings, under their namespace, which is also the one their accounts default to |
| Provider.Provider.OnAdd | pkg/rbacprovider/multicluster.go:118-125 | a named cluster is engaged, the index is untouched |
| Provider.Provider.OnDelete | pkg/rbacprovider/multicluster.go:129-138 | a named cluster is disengaged and forgotten |
| Provider.Provider.MarkReady | pkg/rbacprovider/informers.go:69 | the gate opens and the index stays as it is |
| Informers.EventsOfAreFromBase | pkg/rbacprovider/informers.go:75-100 | the handlers pass every cluster's own URL, whatever they are told |
| Informers.NoteTells | pkg/rbacprovider/informers.go:75-129 | one more notification changes exactly the binding of the object's cluster (root by default), namespace and name: as delivered, or gone |
| Informers.IndexFollowsNotes | pkg/rbacprovider/informers.go:75-129 | after any notifications each object is indexed in a cluster exactly as the last one that had it there said: with its subjects if it delivered the object, not at all if it deleted it |
| Informers.IndexIsTheStoreIff | pkg/rbacprovider/informers.go:38-129 | what the store holds is always indexed as it is; nothing else is iff no object moved to another cluster without being deleted in the first |
| Informers.GraphFollowsStore | pkg/rbacprovider/informers.go:38-129 | the graph of a provider shows exactly what stored objects grant and what moved ones granted where they were, each cluster at its own URL |
| Informers.MovedObjectStays | pkg/rbacprovider/informers.go:75-86 | three notifications, a move and a deletion, after which the store is empty and the user still reaches the old cluster |
| Protocol.StepKeepsKeysInv | pkg/rbacprovider/multicluster.go:129-216 | every step, drops and forgets at any time included, keeps each object tracked: queued, or read as it is now and waiting, or indexed as it is now, without a trace if its cluster is away; or late, with a trace that outlived its cluster's drop, and queued if it is back; only clusters forgotten while still looked up are excepted |
| Protocol.StepKeepsGraphInv | pkg/rbacprovider/translator.go:91-135 | every step, each single graph call included, keeps the graph on its way from the old bindings to the new |
| Protocol.EveryRunKeepsInv | pkg/rbacprovider/multicluster.go:166-216 | both hold in every state of every run |
| Protocol.ReconcileSettles | pkg/rbacprovider/multicluster.go:166-216 | in any run, whatever is interleaved between read, lock and release: the index moves to that with the object as the world had it at the read, applied if there and removed if not |
| Protocol.FailPublishesNothing | pkg/rbacprovider/multicluster.go:175-188 | a failed lookup or read leaves bindings and graph alone and queues the key again |
| Protocol.ReadersSeeNoFlicker | pkg/graph/query.go:22-48 | at every moment of every run: edges that the bindings before and after agree on are there, edges foreign to both are not, endpoints are the clusters' own |
| Protocol.SettledAccessStaysVisible | pkg/rbacprovider/translator.go:103-152 | the subjects of an object that is indexed as it is keep their edges whatever else is being published, in any cluster not forgotten while still looked up |
| Convergence.QuietGraphIsTheWorld | pkg/rbacprovider/multicluster.go:166-216 | with nothing queued or under way the graph is the world and what late objects left behind, in every cluster not forgotten while still looked up; the world alone if nothing is late and no departure is half-way; each reachable cluster at its own URL |
| Convergence.WorldEntitlesIff | pkg/rbacprovider/translator.go:63-74 | the world entitles whom a subject of a ClusterRoleBinding or of a RoleBinding in the cluster denotes, accounts defaulting to the RoleBinding's namespace |
| Convergence.CalmRunsConverge | pkg/rbacprovider/multicluster.go:129-216 | in runs whose completed departures left no trace of their cluster waiting or indexed, the graph of every quiet state with no departure half-way is the world |
| Protocol.IndexedSubjectsAreKnown | pkg/rbacprovider/translator.go:199-220 | at every moment of every run the graph holds users and groups only, so its snapshot loses nothing |
| Convergence.WorkMakesProgress | pkg/rbacprovider/multicluster.go:166-216 | a system that is not quiet always has a worker step to take |
| Convergence.WorkShrinks | pkg/rbacprovider/multicluster.go:166-216 | every worker step leaves the world alone and shrinks what is owed |
| Convergence.WorkEnds | pkg/rbacprovider/multicluster.go:166-216 | there is no infinite sequence of worker steps from a reachable state |
| Convergence.StuckWorkIsDone | pkg/rbacprovider/multicluster.go:166-216 | every run of worker steps, in any order, that cannot be extended ends quiet with the world unchanged and the graph showing it, with the exceptions of QuietGraphIsTheWorld |
| Convergence.WorkConverges | pkg/rbacprovider/multicluster.go:166-216 | from every reachable state there is a run of worker steps, given step by step, to a quiet state |
| Departure.LateReadReturns | pkg/rbacprovider/multicluster.go:175-188 | a read that found its object, published after its cluster was forgotten, brings the cluster back for its subjects |
| Departure.WorkLeavesWhatRemains | pkg/rbacprovider/multicluster.go:166-216 | from every reachable state, however the workers finish: an object that is queued and can be read ends as the world has it, otherwise as its waiting read found it, otherwise as stored; the graph shows exactly these |
| Departure.WorkIsConfluent | pkg/rbacprovider/multicluster.go:166-216 | any two ways to finish the work from one state end with the same bindings and the same graph |
| Departure.DepartedClusterKeeps | pkg/rbacprovider/multicluster.go:129-138 | however the workers finish, a cluster that is away is gone from the graph, as from the world, iff no binding that remains in it names anybody |
| Departure.HookLeavesFoundReads | pkg/rbacprovider/multicluster.go:129-138 | if the hook runs after the drop, exactly the found reads that were waiting when it ran remain |
| Departure.DropLeavesIndexed | pkg/rbacprovider/multicluster.go:129-138 | if the drop comes last, the found reads that were waiting remain, and what is indexed then and not being re-read |
| Departure.EarlyHookHides | pkg/rbacprovider/multicluster.go:129-138 | the hook in a cluster still looked up: only what was queued or waiting comes back, and the graph has the cluster right again iff that names everybody entitled |
| Departure.HidingHappens | pkg/rbacprovider/multicluster.go:129-138 | a run from the start to a quiet state that lacks an edge of the world |
| Departure.OvertakenDepartureLeaks | pkg/rbacprovider/multicluster.go:129-190 | a cluster joins, an object is put, read and queued again, the cluster is dropped and forgotten: however the workers finish, the user keeps access |
| Departure.LeakHappens | pkg/rbacprovider/multicluster.go:129-190 | such a run, from the start to a quiet state with an edge the world does not have |
| Review.REST.Create | pkg/virtual/scar/storage.go:72-101 | the gates in order, each error for exactly its cause, otherwise the caller's answer as the status |
| Review.ReviewsReportEntitlements | pkg/virtual/scar/storage.go:72-101 | on a valid provider's graph a granted review reports exactly the clusters where a binding the provider has applied and not undone names the caller or a group of theirs, each at its URL |
| Review.ScopesHoldEntitlements | pkg/virtual/mcp/handler.go:51-74 | the same for the scope of an MCP request |
| Review.ToAccessEndpointSlices | pkg/virtual/scar/storage.go:103-117 | the same pairs in the same order |
| Review.WorkspaceScope.Names | pkg/virtual/mcp/scope.go:90-96 | the listed names, in order |
| Review.WorkspaceScope.Clusters | pkg/virtual/mcp/scope.go:129-138 | the listed pairs, in order |
| Review.WorkspaceScope.HasAccess | pkg/virtual/mcp/scope.go:99-106 | true iff the workspace is listed |
| Review.WorkspaceScope.ClientFor | pkg/virtual/mcp/scope.go:111-125 | the endpoint of the first entry under the name; not in scope iff none or an empty one; a nameless user gets no client |
| Review.ScopeForRequest | pkg/virtual/mcp/handler.go:51-74 | the gates in order, otherwise a scope holding the caller's answer |
| Review.AnswersAreTheEntitlements | pkg/graph/query.go:22-48 | after every history an answer lists exactly the clusters where a standing binding names the caller or a group of theirs, with provider endpoints each at its own URL |
| Review.AnswersByName | pkg/graph/query.go:22-48 | after every history a cluster is listed iff a standing binding in it names the user by name or a listed group by name |
| Review.AnswersStayBetween | pkg/graph/query.go:22-48 | at any moment of any run an answer lists every cluster that one and the same identity of the caller is named for before and after the publication in progress, none that no identity is named for at either time, each at its URL |
| Review.SeenThroughoutIff | pkg/rbacprovider/translator.go:113-130 | a caller sees a cluster at every moment of an event, in every order of its loops, iff one and the same identity is named for it before and after |
| Review.AnswerCanMiss | pkg/rbacprovider/translator.go:113-130 | a run from the start to a moment at which a caller entitled to the cluster before and after is answered with nothing |
| Review.AccessAgainstClient | pkg/virtual/mcp/scope.go:43-125 | HasAccess is entitlement; ClientFor succeeds, at the workspace's URL, iff besides the caller has a name and the workspace a URL; they agree iff the caller is not entitled or both hold |
| Review.NoClientWithoutName | pkg/virtual/mcp/scope.go:49-51 | a group member without a user name has access and gets no client |
| Review.NoClientWithoutUrl | pkg/virtual/mcp/scope.go:120-122 | the nameless workspace under an empty base URL is accessible and not resolvable |
| Review.QuietAnswersAreTheWorld | pkg/virtual/scar/storage.go:87-98 | in a quiet system callers are told exactly what the world's objects and late ones grant them, in every cluster not forgotten while still looked up; the world's alone if nothing is late and no departure is half-way |
| Review.QuietAnswersByName | pkg/graph/query.go:22-48 | from objects to answers: in a quiet system with no departure half-way and nothing late, a cluster is listed iff a subject of a binding object in it denotes the user or a listed group |
| WorkspacePath.ParsesIff | pkg/bootstrap/workspaces.go:52-66 | a path parses to segments iff it is their colon-join, perhaps with colons around, and they are non-empty, colon-free and start at root |
| WorkspacePath.RoundTrip | pkg/bootstrap/workspaces.go:52-66 | parsing the join of canonical segments returns them |
| WorkspacePath.FailsIff | pkg/bootstrap/workspaces.go:53-64 | the exact cause of each parse error |
| WorkspacePath.CreateWorkspacePath | pkg/bootstrap/workspaces.go:69-102 | each request asks for the next segment under the workspace the preceding segments name, with the type asked for or "universal"; creation stops at the first that fails, and success addresses the same workspace as ConfigForPath |
| WorkspacePath.RequestsWalkDown | pkg/bootstrap/workspaces.go:86-99 | the first request goes to root, each further one to the workspace the one before created, which is what ConfigForPath gives for that path; other settings are kept |
| WorkspacePath.WalkEnds | pkg/bootstrap/workspaces.go:87-102 | it succeeds iff every request does, at the workspace the last one created; an error names the failed request and the path of its parent |
| WorkspacePath.AddressText | pkg/bootstrap/workspaces.go:106-133 | the address is scheme and host, "/clusters/", and the path without the colons around it, all other settings kept |
| WorkspacePath.PathText | pkg/bootstrap/workspaces.go:52-66 | paths as texts: root and names with colons between |
| WorkspacePath.SameWorkspaceIff | pkg/bootstrap/workspaces.go:106-116 | two paths address the same workspace iff they parse alike |

## Left out

- Locks: a method of the graph or of the translator is one critical section; the interleaving of readers with the graph calls of one section is modelled in Protocol.dfy, the mutexes themselves are not.
- In-place mutation of inner maps: the nested maps are values held in fields that the methods reassign, so sharing of an inner map between two holders is not expressible; the source never shares one.
- The work queue, informers, caches and the multicluster manager: kept as the stated assumptions only (a changed key is queued, one read per key at a time, looking the cluster up and reading are one step, dropping a cluster and its hook are one step each with nothing assumed about their order). A failed cluster lookup leaves the key queued. Informers.dfy assumes that notifications are handled one at a time and about one object in order.
- Readiness: only the gate is modelled. The documentation of AccessProvider asks for readiness after the initial sync, but in multi-shard mode the code sets it when the discovery cache has synced, which does not mean that all bindings are indexed.
- Review.REST.Create: the readiness flag and the graph are read in one state, where the source reads them one after the other; the flag only ever rises.
- Review.WorkspaceScope.ClientFor: stops at the resolved endpoint; the client library is not part of this model.
- WorkspacePath.CreateWorkspacePath: the API server's answers and the URL library are parameters; polling, logging and the wait limit are left out.
- Strings are sequences of characters, compared character by character; for valid UTF-8 this is Go's byte order.
- The engaged set is modelled by its contents; its length is only logged. Logging is left out.
- MCP tool handlers, server wiring, authentication, the rest of the bootstrap, generated code and commands: thin layers over libraries, with easy members only.
