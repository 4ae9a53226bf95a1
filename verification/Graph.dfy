/** The graph object: its maps are updated in place under a lock, one call at a time.
    Source: pkg/graph/graph.go, pkg/graph/query.go.
    Each method is one critical section of the source's lock. The ghost field `calls` is the history of
    mutations; the states readers can see are the replays of its prefixes. */
module AccessGraph {
  import opened Rbac
  import opened GraphSpec
  import opened Ordering
  import opened Query

  datatype Snapshot = Snapshot(ready: bool, subjects: map<string, seq<Cluster>>, clusters: map<Cluster, string>)

  /** The text a subject is listed under in a snapshot. */
  function SnapshotKey(s: Subject): string {
    s.kind + ":" + s.name
  }

  function Identity(s: string): string {
    s
  }

  class Graph {
    var access: map<Subject, set<Cluster>>
    var endpoints: map<Cluster, string>
    var ready: bool
    ghost var calls: seq<GraphCall>

    ghost function State(): GraphState
      reads this
    {
      GraphState(access, endpoints)
    }

    /** The maps hold exactly what the recorded calls add up to, starting from nothing. */
    ghost predicate Valid()
      reads this
    {
      State() == Replay(EMPTY_GRAPH, calls)
    }

    constructor ()
      ensures Valid() && calls == [] && State() == EMPTY_GRAPH && !ready
    {
      access, endpoints, ready := map[], map[], false;
      calls := [];
    }

    /** Records a mutation in the history. */
    ghost method Record(before: GraphState, call: GraphCall)
      requires before == Replay(EMPTY_GRAPH, calls)
      requires State() == Perform(before, call)
      modifies this`calls
      ensures Valid() && calls == old(calls) + [call]
    {
      assert (calls + [call])[..|calls|] == calls;
      calls := calls + [call];
    }

    method Grant(subject: Subject, cluster: Cluster, endpoint: string)
      requires Valid()
      modifies this`access, this`endpoints, this`calls
      ensures Valid() && calls == old(calls) + [GraphCall.Grant(subject, cluster, endpoint)]
      ensures State() == Perform(old(State()), GraphCall.Grant(subject, cluster, endpoint))
    {
      ghost var before := State();
      if subject !in access {
        access := access[subject := {}];
      }
      access := access[subject := access[subject] + {cluster}];
      endpoints := endpoints[cluster := endpoint];
      assert access == before.access[subject := ClustersOf(before, subject) + {cluster}];
      Record(before, GraphCall.Grant(subject, cluster, endpoint));
    }

    method SetEndpoint(cluster: Cluster, endpoint: string)
      requires Valid()
      modifies this`endpoints, this`calls
      ensures Valid() && calls == old(calls) + [GraphCall.SetEndpoint(cluster, endpoint)]
      ensures State() == Perform(old(State()), GraphCall.SetEndpoint(cluster, endpoint))
    {
      ghost var before := State();
      if cluster in endpoints {
        endpoints := endpoints[cluster := endpoint];
      }
      Record(before, GraphCall.SetEndpoint(cluster, endpoint));
    }

    method Revoke(subject: Subject, cluster: Cluster)
      requires Valid()
      modifies this`access, this`endpoints, this`calls
      ensures Valid() && calls == old(calls) + [GraphCall.Revoke(subject, cluster)]
      ensures State() == Perform(old(State()), GraphCall.Revoke(subject, cluster))
    {
      ghost var before := State();
      if subject in access {
        access := access[subject := access[subject] - {cluster}];
        if |access[subject]| == 0 {
          access := access - {subject};
        }
        assert access == DropEdge(before.access, subject, cluster);
        var stillReached := AnyAccess(cluster);
        if !stillReached {
          endpoints := endpoints - {cluster};
        }
      }
      Record(before, GraphCall.Revoke(subject, cluster));
    }

    method AnyAccess(cluster: Cluster) returns (found: bool)
      ensures found <==> Reachers(State(), cluster) != {}
    {
      var todo := access.Keys;
      while todo != {}
        invariant todo <= access.Keys
        invariant forall s :: s in access && s !in todo ==> cluster !in access[s]
        decreases |todo|
      {
        var subject :| subject in todo;
        if cluster in access[subject] {
          assert subject in Reachers(State(), cluster);
          return true;
        }
        todo := todo - {subject};
      }
      return false;
    }

    method Forget(cluster: Cluster)
      requires Valid()
      modifies this`access, this`endpoints, this`calls
      ensures Valid() && calls == old(calls) + [GraphCall.Forget(cluster)]
      ensures State() == Perform(old(State()), GraphCall.Forget(cluster))
    {
      ghost var before := State();
      ForgetEdges(cluster);
      assert access == Perform(before, GraphCall.Forget(cluster)).access;
      endpoints := endpoints - {cluster};
      Record(before, GraphCall.Forget(cluster));
    }

    /** Deletes while ranging: the subjects left to visit do not change, whatever order they come in. */
    method ForgetEdges(cluster: Cluster)
      modifies this`access
      ensures access == ForgottenUpTo(old(access), {}, cluster)
    {
      ghost var before := access;
      var todo := access.Keys;
      while todo != {}
        invariant todo <= before.Keys
        invariant access == ForgottenUpTo(before, todo, cluster)
        decreases |todo|
      {
        var subject :| subject in todo;
        ForgottenStep(before, todo, subject, cluster);
        todo := todo - {subject};
        if cluster in access[subject] {
          access := access[subject := access[subject] - {cluster}];
          if |access[subject]| == 0 {
            access := access - {subject};
          }
        }
      }
    }

    method SetReady()
      modifies this`ready
      ensures ready
    {
      ready := true;
    }

    method ClustersFor(user: string, groups: seq<string>) returns (out: seq<AccessEndpointSlice>)
      ensures IsAnswer(State(), user, groups, out)
      ensures forall c, endpoint :: AccessEndpointSlice(c, endpoint) in out <==>
                && (Edge(State(), Subject("User", user), c)
                    || exists name :: name in groups && Edge(State(), Subject("Group", name), c))
                && endpoint == (if c in endpoints then endpoints[c] else "")
    {
      var seen := AddClustersOf(User(user), {});
      for i := 0 to |groups|
        invariant seen == Visible(State(), user, groups[..i])
      {
        VisibleThroughOneMore(State(), user, groups, i);
        seen := AddClustersOf(Group(groups[i]), seen);
      }
      assert groups[..|groups|] == groups;
      out := SlicesOf(seen);
      SortByIncreasing(NameOf, out);
      out := SortBy(NameOf, out);
      AnswerSays(State(), user, groups, out);
    }

    /** One `range` over a subject's clusters, which come in no fixed order. */
    method AddClustersOf(subject: Subject, before: set<Cluster>) returns (seen: set<Cluster>)
      ensures seen == before + ClustersOf(State(), subject)
    {
      seen := before;
      var todo := if subject in access then access[subject] else {};
      while todo != {}
        invariant seen + todo == before + ClustersOf(State(), subject)
        decreases |todo|
      {
        var c :| c in todo;
        seen, todo := seen + {c}, todo - {c};
      }
    }

    /** The endpoint join, before sorting. */
    method SlicesOf(seen: set<Cluster>) returns (out: seq<AccessEndpointSlice>)
      ensures DistinctKeys(NameOf, out)
      ensures forall x :: x in out <==> x.clusterName in seen && x == SliceFor(State(), x.clusterName)
    {
      out := [];
      var todo := seen;
      while todo != {}
        invariant todo <= seen
        invariant DistinctKeys(NameOf, out)
        invariant forall x :: x in out <==> x.clusterName in seen - todo && x == SliceFor(State(), x.clusterName)
        decreases |todo|
      {
        var c :| c in todo;
        todo := todo - {c};
        out := out + [AccessEndpointSlice(c, if c in endpoints then endpoints[c] else "")];
      }
    }

    /** A subject's list is its clusters in order. Subjects with the same key overwrite each other, in no fixed
        order. */
    method TakeSnapshot() returns (snap: Snapshot)
      ensures snap.ready == ready && snap.clusters == endpoints
      ensures SnapshotOf(State(), snap.subjects)
    {
      var subjects: map<string, seq<Cluster>> := map[];
      var todo := access.Keys;
      while todo != {}
        invariant todo <= access.Keys
        invariant forall key :: key in subjects ==> exists s :: Carries(State(), s, key, subjects[key])
        invariant forall s :: s in access && s !in todo ==> SnapshotKey(s) in subjects
        decreases |todo|
      {
        var subj :| subj in todo;
        todo := todo - {subj};
        var names := SortedNames(access[subj]);
        assert Carries(State(), subj, SnapshotKey(subj), names);
        subjects := subjects[SnapshotKey(subj) := names];
      }
      var copied := CopyEndpoints();
      snap := Snapshot(ready, subjects, copied);
    }

    method SortedNames(clusters: set<Cluster>) returns (names: seq<Cluster>)
      ensures Lists(clusters, names)
    {
      names := [];
      var todo := clusters;
      while todo != {}
        invariant todo <= clusters
        invariant DistinctKeys(Identity, names)
        invariant forall c :: c in names <==> c in clusters - todo
        decreases |todo|
      {
        var c :| c in todo;
        assert forall i :: 0 <= i < |names| ==> names[i] in names;
        todo := todo - {c};
        names := names + [c];
      }
      SortByIncreasing(Identity, names);
      names := SortBy(Identity, names);
    }

    method CopyEndpoints() returns (copied: map<Cluster, string>)
      ensures copied == endpoints
    {
      copied := map[];
      var todo := endpoints.Keys;
      while todo != {}
        invariant todo <= endpoints.Keys
        invariant copied.Keys == endpoints.Keys - todo
        invariant forall c :: c in copied ==> copied[c] == endpoints[c]
        decreases |todo|
      {
        var c :| c in todo;
        todo := todo - {c};
        copied := copied[c := endpoints[c]];
      }
    }
  }

  /** The access map half-way through forgetting a cluster: the subjects in `todo` are still to be visited. */
  ghost function ForgottenUpTo(access: map<Subject, set<Cluster>>, todo: set<Subject>, c: Cluster)
    : map<Subject, set<Cluster>>
  {
    map s | s in access && (s in todo || access[s] != {c}) :: if s in todo then access[s] else access[s] - {c}
  }

  lemma ForgottenStep(access: map<Subject, set<Cluster>>, todo: set<Subject>, s: Subject, c: Cluster)
    requires s in todo && todo <= access.Keys
    ensures ForgottenUpTo(access, todo, c)[s] == access[s]
    ensures ForgottenUpTo(access, todo - {s}, c) ==
            if c in access[s] then DropEdge(ForgottenUpTo(access, todo, c), s, c) else ForgottenUpTo(access, todo, c)
  {
    var now, next := ForgottenUpTo(access, todo, c), ForgottenUpTo(access, todo - {s}, c);
    if c in access[s] {
      assert access[s] - {c} == {} <==> access[s] == {c};
    } else {
      assert access[s] - {c} == access[s] && access[s] != {c};
    }
    var then' := if c in access[s] then DropEdge(now, s, c) else now;
    assert next.Keys == then'.Keys;
    forall t | t in next ensures next[t] == then'[t] {
    }
  }

  lemma VisibleThroughOneMore(g: GraphState, user: string, groups: seq<string>, i: nat)
    requires i < |groups|
    ensures Visible(g, user, groups[..i + 1]) == Visible(g, user, groups[..i]) + ClustersOf(g, Group(groups[i]))
  {
    assert groups[..i + 1] == groups[..i] + [groups[i]];
    assert CallerSubjects(user, groups[..i + 1]) == CallerSubjects(user, groups[..i]) + {Group(groups[i])};
  }

  /** The list names exactly these clusters, in order. */
  ghost predicate Lists(clusters: set<Cluster>, names: seq<Cluster>) {
    && Increasing(Identity, names)
    && forall c :: c in names <==> c in clusters
  }

  ghost predicate Carries(g: GraphState, s: Subject, key: string, names: seq<Cluster>) {
    s in g.access && key == SnapshotKey(s) && Lists(g.access[s], names)
  }

  ghost predicate SnapshotOf(g: GraphState, subjects: map<string, seq<Cluster>>) {
    && (forall key :: key in subjects ==> exists s :: Carries(g, s, key, subjects[key]))
    && (forall s :: s in g.access ==> SnapshotKey(s) in subjects)
  }

  /** The kinds the source defines and the translator produces. */
  ghost predicate KnownKinds(g: GraphState) {
    forall s :: s in g.access ==> KnownKind(s)
  }

  /** No two of these subjects are listed under the same text. */
  ghost predicate KeysInjectiveOn(subjects: set<Subject>) {
    forall s, t :: s in subjects && t in subjects && SnapshotKey(s) == SnapshotKey(t) ==> s == t
  }

  lemma SnapshotKeyInjective(s: Subject, t: Subject)
    requires ':' !in s.kind && ':' !in t.kind
    requires SnapshotKey(s) == SnapshotKey(t)
    ensures s == t
  {
    FirstSeparatorSplits(s.kind, s.name, t.kind, t.name);
  }

  lemma SnapshotSaysAll(g: GraphState, subjects: map<string, seq<Cluster>>, s: Subject)
    requires KeysInjectiveOn(g.access.Keys) && SnapshotOf(g, subjects)
    requires s in g.access
    ensures SnapshotKey(s) in subjects && Lists(g.access[s], subjects[SnapshotKey(s)])
  {
    var t :| Carries(g, t, SnapshotKey(s), subjects[SnapshotKey(s)]);
    assert s == t;
  }

  lemma SubjectSays(g: GraphState, subjects: map<string, seq<Cluster>>, s: Subject)
    requires KnownKinds(g) && KnownKind(s) && SnapshotOf(g, subjects)
    ensures forall c :: SnapshotKey(s) in subjects && c in subjects[SnapshotKey(s)] <==> Edge(g, s, c)
  {
    if SnapshotKey(s) in subjects {
      var t :| Carries(g, t, SnapshotKey(s), subjects[SnapshotKey(s)]);
      SnapshotKeyInjective(s, t);
    }
  }

  /** What a snapshot of users and groups says: under "User:" or "Group:" and a name, exactly the clusters the user or
      the group of that name reaches, in order; and nothing under any other text. */
  lemma SnapshotSays(g: GraphState, subjects: map<string, seq<Cluster>>, name: string, key: string)
    requires WellFormed(g) && KnownKinds(g) && SnapshotOf(g, subjects)
    ensures forall c ::
              ("User:" + name in subjects && c in subjects["User:" + name]) <==> Edge(g, Subject("User", name), c)
    ensures forall c ::
              ("Group:" + name in subjects && c in subjects["Group:" + name]) <==> Edge(g, Subject("Group", name), c)
    ensures key in subjects ==>
              && subjects[key] != [] && ("User:" <= key || "Group:" <= key)
              && forall i, j :: 0 <= i < j < |subjects[key]| ==> Less(subjects[key][i], subjects[key][j])
  {
    assert "User" + ":" == "User:" && "Group" + ":" == "Group:";
    SubjectSays(g, subjects, Subject("User", name));
    SubjectSays(g, subjects, Subject("Group", name));
    if key in subjects {
      var s :| Carries(g, s, key, subjects[key]);
      assert s.kind + ":" <= key;
      var c :| c in g.access[s];
      assert c in subjects[key];
      forall i, j | 0 <= i < j < |subjects[key]| ensures Less(subjects[key][i], subjects[key][j]) {
        assert Less(Identity(subjects[key][i]), Identity(subjects[key][j]));
      }
    }
  }

  /** A snapshot of users and groups loses nothing: it determines the access relation, and is determined by it. */
  lemma SnapshotLosesNothing(g: GraphState, h: GraphState,
                             ofG: map<string, seq<Cluster>>, ofH: map<string, seq<Cluster>>)
    requires KnownKinds(g) && SnapshotOf(g, ofG)
    requires KnownKinds(h) && SnapshotOf(h, ofH)
    ensures ofG == ofH <==> g.access == h.access
  {
    KnownKindsHaveKeys(g, h);
    if ofG == ofH {
      SnapshotDecides(g, h, g.access.Keys + h.access.Keys, ofG);
    }
    if g.access == h.access {
      AccessDecides(g, h, ofG, ofH);
    }
  }

  lemma KnownKindsHaveKeys(g: GraphState, h: GraphState)
    requires KnownKinds(g) && KnownKinds(h)
    ensures KeysInjectiveOn(g.access.Keys + h.access.Keys) && KeysInjectiveOn(g.access.Keys)
            && KeysInjectiveOn(h.access.Keys)
  {
    forall s, t | KnownKind(s) && KnownKind(t) && SnapshotKey(s) == SnapshotKey(t) ensures s == t {
      SnapshotKeyInjective(s, t);
    }
  }

  /** Equal access gives equal snapshots. */
  lemma AccessDecides(g: GraphState, h: GraphState, ofG: map<string, seq<Cluster>>, ofH: map<string, seq<Cluster>>)
    requires KeysInjectiveOn(g.access.Keys) && SnapshotOf(g, ofG) && SnapshotOf(h, ofH)
    requires g.access == h.access
    ensures ofG == ofH
  {
    SnapshotIncluded(g, h, ofG, ofH);
    SnapshotIncluded(h, g, ofH, ofG);
    SameEntries(ofG, ofH);
  }

  lemma SameEntries<K, V>(m: map<K, V>, n: map<K, V>)
    requires forall key :: key in m ==> key in n && m[key] == n[key]
    requires forall key :: key in n ==> key in m
    ensures m == n
  {
    assert m.Keys == n.Keys;
  }

  lemma SnapshotIncluded(g: GraphState, h: GraphState, ofG: map<string, seq<Cluster>>, ofH: map<string, seq<Cluster>>)
    requires KeysInjectiveOn(g.access.Keys) && SnapshotOf(g, ofG)
    requires SnapshotOf(h, ofH)
    requires g.access == h.access
    ensures forall key :: key in ofG ==> key in ofH && ofG[key] == ofH[key]
  {
    forall key | key in ofG ensures key in ofH && ofG[key] == ofH[key] {
      var s :| Carries(g, s, key, ofG[key]);
      SnapshotSaysAll(h, ofH, s);
      IncreasingUnique(Identity, ofG[key], ofH[key]);
    }
  }

  /** Graphs over subjects with distinct keys that share a snapshot have the same access. */
  lemma SnapshotDecides(g: GraphState, h: GraphState, among: set<Subject>, subjects: map<string, seq<Cluster>>)
    requires KeysInjectiveOn(among) && g.access.Keys <= among && h.access.Keys <= among
    requires SnapshotOf(g, subjects) && SnapshotOf(h, subjects)
    ensures g.access == h.access
  {
    SnapshotDecidesHalf(g, h, among, subjects);
    SnapshotDecidesHalf(h, g, among, subjects);
    SameEntries(g.access, h.access);
  }

  lemma SnapshotDecidesHalf(g: GraphState, h: GraphState, among: set<Subject>, subjects: map<string, seq<Cluster>>)
    requires KeysInjectiveOn(among) && g.access.Keys <= among && h.access.Keys <= among
    requires SnapshotOf(g, subjects) && SnapshotOf(h, subjects)
    ensures forall s :: s in g.access ==> s in h.access && g.access[s] == h.access[s]
  {
    forall s | s in g.access ensures s in h.access && g.access[s] == h.access[s] {
      SnapshotDecidesOne(g, h, among, subjects, s);
    }
  }

  lemma SnapshotDecidesOne(g: GraphState, h: GraphState, among: set<Subject>, subjects: map<string, seq<Cluster>>,
                           s: Subject)
    requires KeysInjectiveOn(among) && g.access.Keys <= among && h.access.Keys <= among
    requires SnapshotOf(g, subjects) && SnapshotOf(h, subjects)
    requires s in g.access
    ensures s in h.access && g.access[s] == h.access[s]
  {
    SnapshotSaysAll(g, subjects, s);
    var key := SnapshotKey(s);
    var t :| Carries(h, t, key, subjects[key]);
    assert s == t;
    ListsSame(g.access[s], h.access[s], subjects[key]);
  }

  lemma ListsSame(clusters: set<Cluster>, others: set<Cluster>, names: seq<Cluster>)
    requires Lists(clusters, names) && Lists(others, names)
    ensures clusters == others
  {
    assert forall c :: c in clusters <==> c in names;
  }

  lemma OneEdgeSnapshot(s: Subject, c: Cluster, endpoint: string, key: string)
    requires key == SnapshotKey(s)
    ensures WellFormed(OneEdge(s, c, endpoint)) && SnapshotOf(OneEdge(s, c, endpoint), map[key := [c]])
  {
    var g := OneEdge(s, c, endpoint);
    assert s in Reachers(g, c);
    assert Lists({c}, [c]);
    assert Carries(g, s, key, [c]);
  }

  lemma OneGrant(s: Subject, c: Cluster, endpoint: string)
    ensures Replay(EMPTY_GRAPH, [GraphCall.Grant(s, c, endpoint)]) == OneEdge(s, c, endpoint)
  {
    ReplayOne(EMPTY_GRAPH, GraphCall.Grant(s, c, endpoint));
    GrantOnEmpty(s, c, endpoint);
  }

  ghost predicate ShareSnapshot(g: GraphState, h: GraphState, among: set<Subject>,
                                subjects: map<string, seq<Cluster>>) {
    && WellFormed(g) && g.access.Keys <= among && SnapshotOf(g, subjects)
    && WellFormed(h) && h.access.Keys <= among && SnapshotOf(h, subjects)
  }

  /** Exactly when snapshots tell graphs over a set of subjects apart: when no two of the subjects share a key. */
  lemma SnapshotDecidesIff(among: set<Subject>)
    ensures KeysInjectiveOn(among) <==>
            forall g, h, subjects :: ShareSnapshot(g, h, among, subjects) ==> g.access == h.access
  {
    if KeysInjectiveOn(among) {
      forall g, h, subjects | ShareSnapshot(g, h, among, subjects) ensures g.access == h.access {
        SnapshotDecides(g, h, among, subjects);
      }
    } else {
      var s, t :| s in among && t in among && SnapshotKey(s) == SnapshotKey(t) && s != t;
      SharedKeyHides(among, s, t, "c", "e");
    }
  }

  /** Granting one or the other of two subjects with a common key gives different access behind the same snapshot. */
  lemma SharedKeyHides(among: set<Subject>, s: Subject, t: Subject, c: Cluster, endpoint: string)
    requires s in among && t in among && s != t && SnapshotKey(s) == SnapshotKey(t)
    ensures ShareSnapshot(OneEdge(s, c, endpoint), OneEdge(t, c, endpoint), among, map[SnapshotKey(s) := [c]])
    ensures OneEdge(s, c, endpoint).access != OneEdge(t, c, endpoint).access
  {
    OneEdgeSnapshot(s, c, endpoint, SnapshotKey(s));
    OneEdgeSnapshot(t, c, endpoint, SnapshotKey(s));
    assert s in map[s := {c}] && s !in map[t := {c}];
  }

  /** With kinds the source does not define this happens: one grant to each of these subjects, one snapshot. */
  lemma SnapshotNeedsKnownKinds(c: Cluster, endpoint: string)
    ensures var s, t := Subject("a", "b:x"), Subject("a:b", "x");
            var g := Replay(EMPTY_GRAPH, [GraphCall.Grant(s, c, endpoint)]);
            var h := Replay(EMPTY_GRAPH, [GraphCall.Grant(t, c, endpoint)]);
            ShareSnapshot(g, h, {s, t}, map["a:b:x" := [c]]) && g.access != h.access
  {
    var s, t := Subject("a", "b:x"), Subject("a:b", "x");
    assert |"a"| != |"a:b"|;
    assert SnapshotKey(s) == "a:b:x" == SnapshotKey(t);
    OneGrant(s, c, endpoint);
    OneGrant(t, c, endpoint);
    SharedKeyHides({s, t}, s, t, c, endpoint);
  }
}
