/** What callers are answered: the SelfClusterAccessReview storage and the per-request MCP scope.
    Source: pkg/virtual/scar/storage.go, pkg/virtual/mcp/scope.go, pkg/virtual/mcp/handler.go. */
module Review {
  import opened Wrappers
  import Rbac
  import opened GraphSpec
  import opened Endpoint
  import opened Query
  import opened AccessGraph
  import opened Index
  import opened Publish
  import opened History
  import opened Provider
  import opened Protocol
  import opened Convergence
  import opened Scenarios

  datatype UserInfo = UserInfo(name: string, groups: seq<string>)

  // ---- SelfClusterAccessReview ----

  datatype StatusSlice = StatusSlice(clusterName: string, endpoint: string)
  datatype AccessReview = AccessReview(metadata: string, clusters: seq<StatusSlice>)
  datatype RequestObject = AReview(review: AccessReview) | SomethingElse
  datatype StatusError = BadRequest | ServiceUnavailable | Unauthorized

  /** The status lists the same pairs in the same order. */
  ghost predicate Projects(status: seq<StatusSlice>, answer: seq<AccessEndpointSlice>) {
    && |status| == |answer|
    && forall i :: 0 <= i < |answer| ==> status[i] == StatusSlice(answer[i].clusterName, answer[i].endpoint)
  }

  /** What a review is answered. The gates come in this order: the object's type, the graph's readiness, the caller's
      identity. A review that passes them gets the answer for the caller and nothing of the status it was sent with. */
  ghost predicate CreateOutcome(ready: bool, g: GraphState, obj: RequestObject, caller: Option<UserInfo>,
                                r: Result<AccessReview, StatusError>)
  {
    && (r == Failure(BadRequest) <==> obj.SomethingElse?)
    && (r == Failure(ServiceUnavailable) <==> obj.AReview? && !ready)
    && (r == Failure(Unauthorized) <==> obj.AReview? && ready && caller.None?)
    && (r.Success? ==>
          && obj.AReview? && caller.Some? && r.value.metadata == obj.review.metadata
          && exists answer ::
               IsAnswer(g, caller.value.name, caller.value.groups, answer) && Projects(r.value.clusters, answer))
  }

  class REST {
    const graph: Graph

    constructor (graph: Graph)
      ensures this.graph == graph
    {
      this.graph := graph;
    }

    method Create(obj: RequestObject, caller: Option<UserInfo>) returns (r: Result<AccessReview, StatusError>)
      ensures CreateOutcome(graph.ready, graph.State(), obj, caller, r)
      ensures obj.SomethingElse? ==> r == Failure(BadRequest)
      ensures obj.AReview? && !graph.ready ==> r == Failure(ServiceUnavailable)
      ensures obj.AReview? && graph.ready && caller.None? ==> r == Failure(Unauthorized)
      ensures obj.AReview? && graph.ready && caller.Some? ==> r.Success? && r.value.metadata == obj.review.metadata
    {
      if obj.SomethingElse? {
        return Failure(BadRequest);
      }
      if !graph.ready {
        return Failure(ServiceUnavailable);
      }
      if caller.None? {
        return Failure(Unauthorized);
      }
      var clusters := graph.ClustersFor(caller.value.name, caller.value.groups);
      var status := ToAccessEndpointSlices(clusters);
      r := Success(obj.review.(clusters := status));
    }
  }

  method ToAccessEndpointSlices(input: seq<AccessEndpointSlice>) returns (out: seq<StatusSlice>)
    ensures Projects(out, input)
  {
    out := [];
    for i := 0 to |input|
      invariant Projects(out, input[..i])
    {
      out := out + [StatusSlice(input[i].clusterName, input[i].endpoint)];
    }
  }

  // ---- MCP scope ----

  datatype ScopeError = NotInScope(available: seq<string>) | NoUser
  datatype HandlerError = NotReady | NoIdentity
  datatype ClusterInfo = ClusterInfo(clusterName: string, endpoint: string)

  ghost predicate Listed(list: seq<AccessEndpointSlice>, workspace: string) {
    exists x :: x in list && x.clusterName == workspace
  }

  datatype WorkspaceScope = WorkspaceScope(user: UserInfo, clusterList: seq<AccessEndpointSlice>) {

    method Names() returns (names: seq<string>)
      ensures |names| == |clusterList|
      ensures forall i :: 0 <= i < |names| ==> names[i] == clusterList[i].clusterName
    {
      names := [];
      for i := 0 to |clusterList|
        invariant |names| == i
        invariant forall j :: 0 <= j < i ==> names[j] == clusterList[j].clusterName
      {
        names := names + [clusterList[i].clusterName];
      }
    }

    method Clusters() returns (infos: seq<ClusterInfo>)
      ensures |infos| == |clusterList|
      ensures forall i :: 0 <= i < |infos| ==>
              infos[i] == ClusterInfo(clusterList[i].clusterName, clusterList[i].endpoint)
    {
      infos := [];
      for i := 0 to |clusterList|
        invariant |infos| == i
        invariant forall j :: 0 <= j < i ==>
                  infos[j] == ClusterInfo(clusterList[j].clusterName, clusterList[j].endpoint)
      {
        infos := infos + [ClusterInfo(clusterList[i].clusterName, clusterList[i].endpoint)];
      }
    }

    method HasAccess(workspace: string) returns (found: bool)
      ensures found <==> Listed(clusterList, workspace)
    {
      for i := 0 to |clusterList|
        invariant forall j :: 0 <= j < i ==> clusterList[j].clusterName != workspace
      {
        if clusterList[i].clusterName == workspace {
          return true;
        }
      }
      return false;
    }

    method ClientFor(workspace: string) returns (r: Result<string, ScopeError>)
      ensures ClientOutcome(this, workspace, r)
    {
      var endpoint := "";
      var i := 0;
      while i < |clusterList|
        invariant 0 <= i <= |clusterList|
        invariant forall j :: 0 <= j < i ==> clusterList[j].clusterName != workspace
        invariant endpoint == ""
      {
        if clusterList[i].clusterName == workspace {
          endpoint := clusterList[i].endpoint;
          assert FirstListed(clusterList, workspace, i);
          assert forall j :: FirstListed(clusterList, workspace, j) ==> j == i;
          break;
        }
        i := i + 1;
      }
      if endpoint == "" {
        var names := Names();
        return Failure(NotInScope(names));
      }
      if user.name == "" {
        return Failure(NoUser);
      }
      r := Success(endpoint);
    }
  }

  ghost predicate FirstListed(list: seq<AccessEndpointSlice>, workspace: string, i: int) {
    && 0 <= i < |list| && list[i].clusterName == workspace
    && forall j :: 0 <= j < i ==> list[j].clusterName != workspace
  }

  /** What a request for a client is answered: the endpoint to build it for is the first one listed under the name;
      none, or an empty one, is out of scope, with the names that are in it; a nameless user gets no client. */
  ghost predicate ClientOutcome(scope: WorkspaceScope, workspace: string, r: Result<string, ScopeError>) {
    && (r.Success? ==>
          && r.value != "" && scope.user.name != ""
          && exists i :: FirstListed(scope.clusterList, workspace, i) && r.value == scope.clusterList[i].endpoint)
    && (r.Failure? && r.error.NotInScope? <==>
          !Listed(scope.clusterList, workspace)
          || exists i :: FirstListed(scope.clusterList, workspace, i) && scope.clusterList[i].endpoint == "")
    && (r.Failure? && r.error.NoUser? ==> scope.user.name == "")
    && (r.Failure? && r.error.NotInScope? ==>
          && |r.error.available| == |scope.clusterList|
          && forall i :: 0 <= i < |scope.clusterList| ==> r.error.available[i] == scope.clusterList[i].clusterName)
  }

  ghost predicate ScopeOutcome(ready: bool, g: GraphState, caller: Option<UserInfo>,
                               r: Result<WorkspaceScope, HandlerError>) {
    && (r == Failure(NotReady) <==> !ready)
    && (r == Failure(NoIdentity) <==> ready && caller.None?)
    && (r.Success? ==> caller.Some? && r.value.user == caller.value
                       && IsAnswer(g, caller.value.name, caller.value.groups, r.value.clusterList))
  }

  /** Each MCP request gets a fresh scope, behind the same gates as a review. */
  method ScopeForRequest(graph: Graph, caller: Option<UserInfo>) returns (r: Result<WorkspaceScope, HandlerError>)
    ensures ScopeOutcome(graph.ready, graph.State(), caller, r)
    ensures !graph.ready ==> r == Failure(NotReady)
    ensures graph.ready && caller.None? ==> r == Failure(NoIdentity)
    ensures graph.ready && caller.Some? ==> r.Success? && r.value.user == caller.value
  {
    if !graph.ready {
      return Failure(NotReady);
    }
    if caller.None? {
      return Failure(NoIdentity);
    }
    var clusters := graph.ClustersFor(caller.value.name, caller.value.groups);
    r := Success(WorkspaceScope(caller.value, clusters));
  }

  // ---- End to end ----

  /** Some identity of the caller is named by a binding in the cluster that is applied now. */
  ghost predicate CallerEntitled(events: seq<Event>, caller: UserInfo, c: Cluster) {
    exists s :: s in CallerSubjects(caller.name, caller.groups) && Entitled(events, s, c)
  }

  lemma VisibleIff(g: GraphState, caller: UserInfo, c: Cluster)
    ensures c in Visible(g, caller.name, caller.groups) <==>
            exists s :: s in CallerSubjects(caller.name, caller.groups) && Edge(g, s, c)
  {
    forall s ensures c in ClustersOf(g, s) <==> Edge(g, s, c) {
    }
  }

  lemma ListedIffVisible(g: GraphState, caller: UserInfo, answer: seq<AccessEndpointSlice>, c: Cluster)
    requires IsAnswer(g, caller.name, caller.groups, answer)
    ensures Listed(answer, c) <==> c in Visible(g, caller.name, caller.groups)
  {
    if c in Visible(g, caller.name, caller.groups) {
      assert SliceFor(g, c) in answer;
    }
  }

  /** After any history an answer lists exactly the clusters where an applied binding names the caller or one of its
      groups; when endpoints follow the cluster, each at its own URL. */
  lemma AnswersAreTheEntitlements(base: string, events: seq<Event>, caller: UserInfo, answer: seq<AccessEndpointSlice>)
    requires IsAnswer(Run(events).graph, caller.name, caller.groups, answer)
    ensures forall c :: Listed(answer, c) <==> CallerEntitled(events, caller, c)
    ensures AllFromBase(base, events) ==> forall x :: x in answer ==> x.endpoint == EndpointFor(base, x.clusterName)
  {
    var g := Run(events).graph;
    RunInStep(events);
    EndpointNeverMisses(g, caller.name, caller.groups, answer);
    if AllFromBase(base, events) {
      RunServes(base, events);
    }
    forall c ensures Listed(answer, c) <==> CallerEntitled(events, caller, c) {
      ListedIffVisible(g, caller, answer, c);
      VisibleIff(g, caller, c);
      forall s { EdgeIffEntitled(events, s, c); }
    }
  }

  /** The same in words: a cluster is listed exactly if a binding applied in it now names the user by name, or one of
      the listed groups by name. */
  lemma AnswersByName(events: seq<Event>, caller: UserInfo, answer: seq<AccessEndpointSlice>, c: Cluster)
    requires IsAnswer(Run(events).graph, caller.name, caller.groups, answer)
    ensures Listed(answer, c) <==>
            || Entitled(events, Rbac.Subject("User", caller.name), c)
            || exists name :: name in caller.groups && Entitled(events, Rbac.Subject("Group", name), c)
  {
    AnswerSays(Run(events).graph, caller.name, caller.groups, answer);
    EdgeIffEntitled(events, Rbac.Subject("User", caller.name), c);
    forall name ensures Edge(Run(events).graph, Rbac.Subject("Group", name), c) <==>
                        Entitled(events, Rbac.Subject("Group", name), c) {
      EdgeIffEntitled(events, Rbac.Subject("Group", name), c);
    }
    ListedIffPresent(Run(events).graph, caller, answer, c);
  }

  lemma ListedIffPresent(g: GraphState, caller: UserInfo, answer: seq<AccessEndpointSlice>, c: Cluster)
    requires IsAnswer(g, caller.name, caller.groups, answer)
    ensures Listed(answer, c) <==> AccessEndpointSlice(c, EndpointOrEmpty(g, c)) in answer
  {
    if Listed(answer, c) {
      var x :| x in answer && x.clusterName == c;
      assert x == SliceFor(g, c);
    }
  }

  /** A status entry for the cluster. */
  ghost predicate Reported(status: seq<StatusSlice>, c: Cluster) {
    exists x :: x in status && x.clusterName == c
  }

  /** A granted review on a provider's graph reports exactly the clusters where a binding applied now, by everything the
      provider's translator has seen, names the caller or one of its groups, each at its URL. */
  lemma ReviewsReportEntitlements(p: Provider, obj: RequestObject, caller: Option<UserInfo>,
                                  r: Result<AccessReview, StatusError>)
    requires p.Valid()
    requires CreateOutcome(p.translator.g.ready, p.translator.g.State(), obj, caller, r) && r.Success?
    ensures forall c :: Reported(r.value.clusters, c) <==> CallerEntitled(p.translator.history, caller.value, c)
    ensures forall x :: x in r.value.clusters ==> x.endpoint == EndpointFor(p.endpointBaseURL, x.clusterName)
  {
    var g, status := p.translator.g.State(), r.value.clusters;
    var answer :| IsAnswer(g, caller.value.name, caller.value.groups, answer) && Projects(status, answer);
    AnswersAreTheEntitlements(p.endpointBaseURL, p.translator.history, caller.value, answer);
    ProjectionReports(status, answer);
    forall x | x in status ensures x.endpoint == EndpointFor(p.endpointBaseURL, x.clusterName) {
      var i :| 0 <= i < |status| && status[i] == x;
      assert answer[i] in answer;
    }
  }

  lemma ProjectionReports(status: seq<StatusSlice>, answer: seq<AccessEndpointSlice>)
    requires Projects(status, answer)
    ensures forall c :: Reported(status, c) <==> Listed(answer, c)
  {
    forall c ensures Reported(status, c) <==> Listed(answer, c) {
      if Reported(status, c) {
        var x :| x in status && x.clusterName == c;
        var i :| 0 <= i < |status| && status[i] == x;
        assert answer[i] in answer;
      }
      if Listed(answer, c) {
        var x :| x in answer && x.clusterName == c;
        var i :| 0 <= i < |answer| && answer[i] == x;
        assert status[i] in status;
      }
    }
  }

  /** The same for the scope of an MCP request: in scope are exactly the clusters the caller is entitled to. */
  lemma ScopesHoldEntitlements(p: Provider, caller: Option<UserInfo>, r: Result<WorkspaceScope, HandlerError>)
    requires p.Valid()
    requires ScopeOutcome(p.translator.g.ready, p.translator.g.State(), caller, r) && r.Success?
    ensures forall c :: Listed(r.value.clusterList, c) <==> CallerEntitled(p.translator.history, caller.value, c)
    ensures forall x :: x in r.value.clusterList ==> x.endpoint == EndpointFor(p.endpointBaseURL, x.clusterName)
  {
    AnswersAreTheEntitlements(p.endpointBaseURL, p.translator.history, caller.value, r.value.clusterList);
  }

  /** A request for a client can be answered with one: the user has a name, and the workspace has a URL. */
  predicate ClientPossible(base: string, user: UserInfo, workspace: string) {
    user.name != "" && !(base == "" && workspace == "")
  }

  /** ClientFor against HasAccess, on the scope of any request to a provider's graph. HasAccess says whether the
      caller is entitled to the workspace; ClientFor succeeds, at the workspace's URL, if besides a client is
      possible. So the two agree exactly when the caller is not entitled or a client is possible. */
  lemma AccessAgainstClient(p: Provider, caller: Option<UserInfo>, scope: Result<WorkspaceScope, HandlerError>,
                            workspace: string, hasAccess: bool, client: Result<string, ScopeError>)
    requires p.Valid()
    requires ScopeOutcome(p.translator.g.ready, p.translator.g.State(), caller, scope) && scope.Success?
    requires hasAccess <==> Listed(scope.value.clusterList, workspace)
    requires ClientOutcome(scope.value, workspace, client)
    ensures hasAccess <==> CallerEntitled(p.translator.history, caller.value, workspace)
    ensures client.Success? <==> hasAccess && ClientPossible(p.endpointBaseURL, caller.value, workspace)
    ensures client.Success? ==> client.value == EndpointFor(p.endpointBaseURL, workspace)
    ensures (hasAccess <==> client.Success?) <==>
            !CallerEntitled(p.translator.history, caller.value, workspace)
            || ClientPossible(p.endpointBaseURL, caller.value, workspace)
  {
    ScopesHoldEntitlements(p, caller, scope);
    ClientsResolve(p.endpointBaseURL, scope.value, workspace, client);
  }

  /** On a scope whose entries have their own URLs. */
  lemma ClientsResolve(base: string, scope: WorkspaceScope, workspace: string, client: Result<string, ScopeError>)
    requires forall x :: x in scope.clusterList ==> x.endpoint == EndpointFor(base, x.clusterName)
    requires ClientOutcome(scope, workspace, client)
    ensures client.Success? <==> Listed(scope.clusterList, workspace) && ClientPossible(base, scope.user, workspace)
    ensures client.Success? ==> client.value == EndpointFor(base, workspace)
  {
    EmptyEndpoint(base, workspace);
    forall i | FirstListed(scope.clusterList, workspace, i)
      ensures scope.clusterList[i].endpoint == EndpointFor(base, workspace)
    {
      assert scope.clusterList[i] in scope.clusterList;
    }
    if Listed(scope.clusterList, workspace) {
      var i := IndexOf(scope.clusterList, workspace);
      assert FirstListed(scope.clusterList, workspace, i);
    }
  }

  /** One way to have access and no client: a member of a group who has no user name. */
  lemma NoClientWithoutName(client: Result<string, ScopeError>)
    ensures var events := [ApplyBinding(BindingKey("c", "", "b"), [Rbac.Group("g")], EndpointFor("https://h", "c"))];
            var scope := WorkspaceScope(UserInfo("", ["g"]), [AccessEndpointSlice("c", EndpointFor("https://h", "c"))]);
            && AllFromBase("https://h", events) && IsAnswer(Run(events).graph, "", ["g"], scope.clusterList)
            && Listed(scope.clusterList, "c")
            && (ClientOutcome(scope, "c", client) ==> client == Failure(NoUser))
  {
    var user := UserInfo("", ["g"]);
    assert ["g"][0] == "g";
    OneApplyAnswer(BindingKey("c", "", "b"), Rbac.Group("g"), EndpointFor("https://h", "c"), user);
    var scope := WorkspaceScope(user, [AccessEndpointSlice("c", EndpointFor("https://h", "c"))]);
    assert scope.clusterList[0] in scope.clusterList;
    EmptyEndpoint("https://h", "c");
    assert FirstListed(scope.clusterList, "c", 0);
  }

  /** The other: the nameless workspace under an empty base URL. */
  lemma NoClientWithoutUrl(client: Result<string, ScopeError>)
    ensures var events := [ApplyBinding(BindingKey("", "", "b"), [Rbac.User("u")], EndpointFor("", ""))];
            var scope := WorkspaceScope(UserInfo("u", []), [AccessEndpointSlice("", EndpointFor("", ""))]);
            && AllFromBase("", events) && IsAnswer(Run(events).graph, "u", [], scope.clusterList)
            && Listed(scope.clusterList, "")
            && (ClientOutcome(scope, "", client) ==> client.Failure? && client.error.NotInScope?)
  {
    var user := UserInfo("u", []);
    OneApplyAnswer(BindingKey("", "", "b"), Rbac.User("u"), EndpointFor("", ""), user);
    var scope := WorkspaceScope(user, [AccessEndpointSlice("", EndpointFor("", ""))]);
    assert scope.clusterList[0] in scope.clusterList;
    EmptyEndpoint("", "");
    assert FirstListed(scope.clusterList, "", 0);
  }

  lemma OneApplyAnswer(k: BindingKey, s: Rbac.Subject, endpoint: string, caller: UserInfo)
    requires s in CallerSubjects(caller.name, caller.groups)
    ensures IsAnswer(Run([ApplyBinding(k, [s], endpoint)]).graph, caller.name, caller.groups,
                     [AccessEndpointSlice(k.cluster, endpoint)])
  {
    var one := Run([ApplyBinding(k, [s], endpoint)]);
    OneApply(k, s, endpoint);
    OneEdgeAnswer(one.graph, s, k.cluster, endpoint, caller);
  }

  lemma OneEdgeAnswer(g: GraphState, s: Rbac.Subject, c: Cluster, endpoint: string, caller: UserInfo)
    requires s in CallerSubjects(caller.name, caller.groups)
    requires forall t, d :: Edge(g, t, d) <==> t == s && d == c
    requires g.endpoints == map[c := endpoint]
    ensures IsAnswer(g, caller.name, caller.groups, [AccessEndpointSlice(c, endpoint)])
  {
    forall d ensures d in Visible(g, caller.name, caller.groups) <==> d == c {
      VisibleIff(g, caller, d);
      assert Edge(g, s, c);
    }
  }

  lemma IndexOf(list: seq<AccessEndpointSlice>, workspace: string) returns (i: nat)
    requires Listed(list, workspace)
    ensures FirstListed(list, workspace, i)
  {
    i := 0;
    while list[i].clusterName != workspace
      invariant i < |list|
      invariant forall j :: 0 <= j < i ==> list[j].clusterName != workspace
      decreases |list| - i
    {
      i := i + 1;
    }
  }

  /** What a caller can be told at any moment of any run of the system, also part-way through a publication: every
      cluster that one and the same identity of the caller is entitled to before and after it, none that no identity
      is entitled to before or after, each at its URL. */
  lemma AnswersStayBetween(base: string, states: seq<System>, steps: seq<Step>, n: nat, caller: UserInfo,
                           answer: seq<AccessEndpointSlice>)
    requires IsRun(base, states, steps) && states[0] == START && n < |states|
    requires IsAnswer(states[n].graph, caller.name, caller.groups, answer)
    ensures forall c :: HeldBy(caller, OldClaims(states[n]), Claims(states[n].bindings), c) ==> Listed(answer, c)
    ensures forall c :: Listed(answer, c) ==>
                        ClaimedFor(caller, OldClaims(states[n]), c) || ClaimedFor(caller, Claims(states[n].bindings), c)
    ensures forall x :: x in answer ==> x.endpoint == EndpointFor(base, x.clusterName)
  {
    var g := states[n].graph;
    ReadersSeeNoFlicker(base, states, steps, n);
    EndpointNeverMisses(g, caller.name, caller.groups, answer);
    forall c
      ensures Listed(answer, c) <==> exists s :: s in CallerSubjects(caller.name, caller.groups) && Edge(g, s, c)
    {
      ListedIffVisible(g, caller, answer, c);
      VisibleIff(g, caller, c);
    }
  }

  /** Some identity of the caller is entitled to the cluster. */
  ghost predicate ClaimedFor(caller: UserInfo, claims: set<Claim>, c: Cluster) {
    exists s :: s in CallerSubjects(caller.name, caller.groups) && s in SubjectsAt(claims, c)
  }

  /** One identity of the caller is entitled to the cluster both before and after. */
  ghost predicate HeldBy(caller: UserInfo, before: set<Claim>, after: set<Claim>, c: Cluster) {
    exists s :: s in CallerSubjects(caller.name, caller.groups) && s in SubjectsAt(before, c)
        && s in SubjectsAt(after, c)
  }

  /** Exactly which clusters a caller sees at every moment of a publication, in every order of its loops: those that
      one of the caller's identities is entitled to before and after. Being entitled before as one identity and after
      as another is not enough, since the edges lost are revoked before the edges gained are granted. */
  lemma SeenThroughoutIff(i: IndexState, e: Event, sched: Schedule, caller: UserInfo, c: Cluster)
    requires InStep(i) && LegalSchedule(i.bindings, e, sched)
    ensures (forall n :: 0 <= n <= |Calls(i.bindings, e, sched)| ==> SeenAt(i, e, sched, caller, c, n)) <==>
            HeldBy(caller, Claims(i.bindings), Claims(Next(i.bindings, e)), c)
  {
    var calls := Calls(i.bindings, e, sched);
    if HeldBy(caller, Claims(i.bindings), Claims(Next(i.bindings, e)), c) {
      forall n | 0 <= n <= |calls| ensures SeenAt(i, e, sched, caller, c, n) {
        NoFlicker(i, e, sched, n);
        VisibleIff(Replay(i.graph, calls[..n]), caller, c);
      }
    }
    if forall n :: 0 <= n <= |calls| ==> SeenAt(i, e, sched, caller, c, n) {
      assert SeenAt(i, e, sched, caller, c, |sched.revokes|);
      SeenBetweenLoops(i, e, sched, caller, c);
    }
  }

  ghost predicate SeenAt(i: IndexState, e: Event, sched: Schedule, caller: UserInfo, c: Cluster, n: int)
    requires 0 <= n <= |Calls(i.bindings, e, sched)|
  {
    c in Visible(Replay(i.graph, Calls(i.bindings, e, sched)[..n]), caller.name, caller.groups)
  }

  /** When all lost edges are revoked and none is granted yet, only the edges wanted before and after are there. */
  lemma SeenBetweenLoops(i: IndexState, e: Event, sched: Schedule, caller: UserInfo, c: Cluster)
    requires InStep(i) && LegalSchedule(i.bindings, e, sched)
    requires SeenAt(i, e, sched, caller, c, |sched.revokes|)
    ensures HeldBy(caller, Claims(i.bindings), Claims(Next(i.bindings, e)), c)
  {
    var calls, n := Calls(i.bindings, e, sched), |sched.revokes|;
    var mid := Replay(i.graph, calls[..n]);
    assert calls[..n] == RevokeCalls(sched.revokes, EventCluster(e));
    ReplayRevokes(i.graph, sched.revokes, EventCluster(e));
    VisibleIff(mid, caller, c);
    var s :| s in CallerSubjects(caller.name, caller.groups) && Edge(mid, s, c);
    assert Edge(i.graph, s, c);
    if c != EventCluster(e) {
      NextTouchesOneCluster(i.bindings, e, c);
    }
    assert s in SubjectsAt(Claims(i.bindings), c) && s in SubjectsAt(Claims(Next(i.bindings, e)), c);
  }

  /** So a caller can lose sight of a cluster it is entitled to before and after: a binding moves from one of its
      groups to another, and the answer to a query between the two graph calls is empty. */
  lemma AnswerCanMiss(base: string, c: Cluster, name: string, user: string, g: string, h: string)
    returns (states: seq<System>, steps: seq<Step>)
    requires g != h
    ensures IsRun(base, states, steps) && states[0] == START
    ensures var s, caller := states[|steps|], UserInfo(user, [g, h]);
            && ClaimedFor(caller, OldClaims(s), c) && ClaimedFor(caller, Claims(s.bindings), c)
            && IsAnswer(s.graph, user, [g, h], [])
  {
    var from, to := Rbac.RbacSubject(Rbac.GROUP_KIND, g, ""), Rbac.RbacSubject(Rbac.GROUP_KIND, h, "");
    states := ReplacingRun(base, c, name, from, to, Rbac.Group(g), Rbac.Group(h));
    steps := ReplacingSteps(c, name, from, to, Rbac.Group(g), Rbac.Group(h));
    var s, caller, k := states[10], UserInfo(user, [g, h]), BindingKey(c, "", name);
    assert [g, h][0] == g && [g, h][1] == h;
    assert Claim(k, Rbac.Group(g)) in OldClaims(s) && Claim(k, Rbac.Group(h)) in Claims(s.bindings);
    assert Rbac.Group(g) in SubjectsAt(OldClaims(s), c) && Rbac.Group(h) in SubjectsAt(Claims(s.bindings), c);
    assert Visible(EMPTY_GRAPH, user, [g, h]) == {};
  }

  /** Some object of the world grants one of the caller's identities access. */
  ghost predicate CallerGranted(s: System, caller: UserInfo, c: Cluster) {
    exists subject :: subject in CallerSubjects(caller.name, caller.groups) && WorldEntitles(s, subject, c)
  }

  /** In a quiet system with every departure complete and nothing late, callers are told the truth about the world:
      exactly the clusters where some object grants one of their identities access. With late objects they may be told
      of the bindings these left behind, too. */
  lemma QuietAnswersAreTheWorld(base: string, s: System, caller: UserInfo, answer: seq<AccessEndpointSlice>)
    requires Inv(base, s) && Quiet(s)
    requires IsAnswer(s.graph, caller.name, caller.groups, answer)
    ensures forall c :: !Undermined(s, c) ==>
              (Listed(answer, c) <==> CallerGranted(s, caller, c) || CallerLeftIn(s, caller, c))
    ensures s.late == {} && s.halfway == {} ==> forall c :: Listed(answer, c) <==> CallerGranted(s, caller, c)
    ensures forall x :: x in answer ==> x.endpoint == EndpointFor(base, x.clusterName)
  {
    QuietGraphIsTheWorld(base, s);
    EndpointNeverMisses(s.graph, caller.name, caller.groups, answer);
    forall c | !Undermined(s, c)
      ensures Listed(answer, c) <==> CallerGranted(s, caller, c) || CallerLeftIn(s, caller, c)
    {
      ListedIffVisible(s.graph, caller, answer, c);
      VisibleIff(s.graph, caller, c);
    }
  }

  /** The same in words, from the objects to the answer: in a quiet system with every departure complete and nothing
      late, a cluster is listed exactly if a subject of some binding object in it denotes the user or a listed group. */
  lemma QuietAnswersByName(base: string, s: System, caller: UserInfo, answer: seq<AccessEndpointSlice>, c: Cluster)
    requires Inv(base, s) && Quiet(s) && s.late == {} && s.halfway == {}
    requires IsAnswer(s.graph, caller.name, caller.groups, answer)
    ensures Listed(answer, c) <==>
            || WorldNames(s, Rbac.Subject("User", caller.name), c)
            || exists name :: name in caller.groups && WorldNames(s, Rbac.Subject("Group", name), c)
  {
    QuietGraphIsTheWorld(base, s);
    AnswerSays(s.graph, caller.name, caller.groups, answer);
    ListedIffPresent(s.graph, caller, answer, c);
    WorldEntitlesIff(s, Rbac.Subject("User", caller.name), c);
    forall name ensures Edge(s.graph, Rbac.Subject("Group", name), c) <==>
                        WorldNames(s, Rbac.Subject("Group", name), c) {
      WorldEntitlesIff(s, Rbac.Subject("Group", name), c);
    }
  }

  /** A late object left one of the caller's identities with access. */
  ghost predicate CallerLeftIn(s: System, caller: UserInfo, c: Cluster) {
    exists subject :: subject in CallerSubjects(caller.name, caller.groups) && LeftBehind(s, subject, c)
  }
}
