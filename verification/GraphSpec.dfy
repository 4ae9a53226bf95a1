/** The access graph as a value, its four mutations, and what every sequence of them keeps.
    Source: pkg/graph/graph.go. */
module GraphSpec {
  import opened Rbac

  type Cluster = string

  datatype GraphState = GraphState(access: map<Subject, set<Cluster>>, endpoints: map<Cluster, string>)

  /** One mutation under the graph's write lock. */
  datatype GraphCall =
    | Grant(subject: Subject, cluster: Cluster, endpoint: string)
    | SetEndpoint(cluster: Cluster, endpoint: string)
    | Revoke(subject: Subject, cluster: Cluster)
    | Forget(cluster: Cluster)

  const EMPTY_GRAPH: GraphState := GraphState(map[], map[])

  predicate Edge(g: GraphState, s: Subject, c: Cluster) {
    s in g.access && c in g.access[s]
  }

  function ClustersOf(g: GraphState, s: Subject): set<Cluster> {
    if s in g.access then g.access[s] else {}
  }

  /** Everybody who can reach the cluster. */
  function Reachers(g: GraphState, c: Cluster): set<Subject> {
    set s | s in g.access && c in g.access[s]
  }

  /** No subject is kept with nothing to reach, and endpoints are recorded for the reachable clusters and no others. */
  ghost predicate WellFormed(g: GraphState) {
    && (forall s :: s in g.access ==> g.access[s] != {})
    && (forall c :: c in g.endpoints <==> Reachers(g, c) != {})
  }

  function DropEdge(access: map<Subject, set<Cluster>>, s: Subject, c: Cluster): map<Subject, set<Cluster>>
    requires s in access
  {
    if access[s] - {c} == {} then access - {s} else access[s := access[s] - {c}]
  }

  function Perform(g: GraphState, call: GraphCall): GraphState {
    match call
    case Grant(s, c, endpoint) =>
      GraphState(g.access[s := ClustersOf(g, s) + {c}], g.endpoints[c := endpoint])
    case SetEndpoint(c, endpoint) =>
      if c in g.endpoints then g.(endpoints := g.endpoints[c := endpoint]) else g
    case Revoke(s, c) =>
      if s !in g.access then g else
      var h := g.(access := DropEdge(g.access, s, c));
      if Reachers(h, c) == {} then h.(endpoints := h.endpoints - {c}) else h
    case Forget(c) =>
      GraphState(
        map s | s in g.access && g.access[s] != {c} :: g.access[s] - {c},
        g.endpoints - {c})
  }

  /** The graph after a whole sequence of calls: what a reader sees between two of them is a replay of a prefix. */
  function Replay(g: GraphState, calls: seq<GraphCall>): GraphState {
    if calls == [] then g
    else Perform(Replay(g, calls[..|calls| - 1]), calls[|calls| - 1])
  }

  /** What a call does to the edge relation, whatever the graph looked like. */
  lemma PerformEdges(g: GraphState, call: GraphCall, s: Subject, c: Cluster)
    ensures Edge(Perform(g, call), s, c) <==>
            match call
            case Grant(s', c', _) => Edge(g, s, c) || (s == s' && c == c')
            case SetEndpoint(_, _) => Edge(g, s, c)
            case Revoke(s', c') => Edge(g, s, c) && !(s == s' && c == c')
            case Forget(c') => Edge(g, s, c) && c != c'
  {
    if s in g.access && !call.Grant? && !call.SetEndpoint? {
      assert c in g.access[s] - {call.cluster} <==> c in g.access[s] && c != call.cluster;
      assert g.access[s] == {call.cluster} ==> g.access[s] - {call.cluster} == {};
    }
  }

  /** What a call does to the recorded endpoints: only a call that names the cluster and carries a URL moves it. */
  lemma PerformEndpoints(g: GraphState, call: GraphCall, c: Cluster)
    requires WellFormed(g) && c in Perform(g, call).endpoints
    ensures c in g.endpoints || (call.Grant? && call.cluster == c)
    ensures Perform(g, call).endpoints[c] ==
            if call.cluster == c && (call.Grant? || call.SetEndpoint?) then call.endpoint
            else g.endpoints[c]
  {
    PerformKeepsWellFormed(g, call);
    var s :| s in Reachers(Perform(g, call), c);
    PerformEdges(g, call, s, c);
    assert Edge(Perform(g, call), s, c);
    if Edge(g, s, c) {
      assert s in Reachers(g, c);
    }
  }

  /** The graph invariant survives every call, on every graph. */
  lemma PerformKeepsWellFormed(g: GraphState, call: GraphCall)
    requires WellFormed(g)
    ensures WellFormed(Perform(g, call))
  {
    var h := Perform(g, call);
    forall c ensures c in h.endpoints <==> Reachers(h, c) != {} {
      forall s ensures s in Reachers(h, c) <==> Edge(h, s, c) {}
      forall s ensures s in Reachers(g, c) <==> Edge(g, s, c) {}
      forall s { PerformEdges(g, call, s, c); }
      if call.Grant? && c == call.cluster {
        assert call.subject in Reachers(h, c);
      } else if call.Revoke? && c == call.cluster {
      } else if call.Forget? && c == call.cluster {
        assert Reachers(h, c) == {};
      } else {
        assert Reachers(h, c) == Reachers(g, c);
      }
    }
  }

  /** After any sequence of calls, endpoints and edges agree: an endpoint lookup for a reachable cluster never
      misses. */
  lemma {:induction false} ReplayKeepsWellFormed(g: GraphState, calls: seq<GraphCall>)
    requires WellFormed(g)
    ensures WellFormed(Replay(g, calls))
  {
    if calls != [] {
      ReplayKeepsWellFormed(g, calls[..|calls| - 1]);
      PerformKeepsWellFormed(Replay(g, calls[..|calls| - 1]), calls[|calls| - 1]);
    }
  }

  lemma {:induction false} ReplayConcat(g: GraphState, first: seq<GraphCall>, second: seq<GraphCall>)
    ensures Replay(g, first + second) == Replay(Replay(g, first), second)
  {
    if second == [] {
      assert first + second == first;
    } else {
      var front := second[..|second| - 1];
      assert (first + second)[..|first + second| - 1] == first + front;
      ReplayConcat(g, first, front);
    }
  }

  lemma ReplayOne(g: GraphState, call: GraphCall)
    ensures Replay(g, [call]) == Perform(g, call)
  {
    assert [call][..0] == [];
  }

  /** A well-formed graph stores nothing beyond its edge relation and the endpoints. */
  lemma EdgesDetermineAccess(g: GraphState, h: GraphState)
    requires WellFormed(g) && WellFormed(h)
    requires forall s, c :: Edge(g, s, c) <==> Edge(h, s, c)
    ensures g.access == h.access
    ensures g.endpoints.Keys == h.endpoints.Keys
  {
    forall s ensures s in g.access <==> s in h.access {
      if s in g.access {
        var c :| c in g.access[s];
        assert Edge(h, s, c);
      }
      if s in h.access {
        var c :| c in h.access[s];
        assert Edge(g, s, c);
      }
    }
    forall s | s in g.access ensures g.access[s] == h.access[s] {
      forall c ensures c in g.access[s] <==> c in h.access[s] {
        assert Edge(g, s, c) <==> Edge(h, s, c);
      }
    }
    assert g.access == h.access;
    forall c ensures c in g.endpoints <==> c in h.endpoints {
      assert Reachers(g, c) == Reachers(h, c);
    }
  }

  /** Forgetting a cluster nobody reaches changes nothing. */
  lemma ForgetUnreachedIsIdle(g: GraphState, c: Cluster)
    requires WellFormed(g)
    requires Reachers(g, c) == {}
    ensures Perform(g, Forget(c)) == g
  {
    forall s | s in g.access ensures g.access[s] != {c} && g.access[s] - {c} == g.access[s] {
      assert s !in Reachers(g, c);
      assert c !in g.access[s] && c in {c};
    }
    assert Perform(g, Forget(c)).access == g.access;
    assert g.endpoints - {c} == g.endpoints;
  }

  // ---- A single edge ----

  function OneEdge(s: Subject, c: Cluster, endpoint: string): GraphState {
    GraphState(map[s := {c}], map[c := endpoint])
  }

  lemma GrantOnEmpty(s: Subject, c: Cluster, endpoint: string)
    ensures Perform(EMPTY_GRAPH, Grant(s, c, endpoint)) == OneEdge(s, c, endpoint)
  {
    assert ClustersOf(EMPTY_GRAPH, s) + {c} == {c};
  }

  lemma OneRevoke(s: Subject, c: Cluster, endpoint: string)
    ensures Perform(OneEdge(s, c, endpoint), Revoke(s, c)) == EMPTY_GRAPH
  {
    var g := OneEdge(s, c, endpoint);
    assert g.access[s] - {c} == {};
    assert g.access - {s} == map[];
    assert Reachers(GraphState(map[], g.endpoints), c) == {};
    assert g.endpoints - {c} == map[];
  }
}
