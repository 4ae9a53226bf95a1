/** From an event to the graph: what readers may see on the way and where the graph ends up.
    Source: pkg/rbacprovider/translator.go (apply, removeLocked, ForgetCluster) against pkg/graph/graph.go. */
module Publish {
  import opened Rbac
  import opened GraphSpec
  import opened Index

  /** The access relation a set of claims stands for, as the graph stores it. */
  function AccessOf(claims: set<Claim>): map<Subject, set<Cluster>> {
    map s | s in SubjectsOf(claims) :: ClustersNaming(claims, s)
  }

  function SubjectsOf(claims: set<Claim>): set<Subject> {
    set x | x in claims :: x.subject
  }

  function ClustersNaming(claims: set<Claim>, s: Subject): set<Cluster> {
    set x | x in claims && x.subject == s :: x.key.cluster
  }

  /** The event hands its endpoint to the graph: it grants a first edge, or re-applies a binding at a new endpoint. */
  predicate Announces(b: Bindings, e: Event) {
    e.ApplyBinding? && (Gained(b, e) != {} || (e.key in b && b[e.key].endpoint != e.endpoint))
  }

  function SettledEndpoints(endpoints: map<Cluster, string>, b: Bindings, e: Event): map<Cluster, string> {
    var c := EventCluster(e);
    if SubjectsAt(Claims(Next(b, e)), c) == {} then endpoints - {c}
    else if Announces(b, e) then endpoints[c := e.endpoint]
    else endpoints
  }

  /** The bindings and the graph together. */
  datatype IndexState = IndexState(bindings: Bindings, graph: GraphState)

  const EMPTY_INDEX: IndexState := IndexState(map[], EMPTY_GRAPH)

  ghost predicate InStep(i: IndexState) {
    WellFormed(i.graph) && GraphMatch(i.graph, Claims(i.bindings))
  }

  /** An event's outcome, said without running it: access is recomputed from the claims. */
  function Settle(i: IndexState, e: Event): IndexState {
    IndexState(Next(i.bindings, e),
               GraphState(AccessOf(Claims(Next(i.bindings, e))), SettledEndpoints(i.graph.endpoints, i.bindings, e)))
  }

  // ---- Replaying runs of calls on one cluster ----

  lemma {:induction false} ReplayRevokes(g: GraphState, subjects: seq<Subject>, c: Cluster)
    requires WellFormed(g)
    ensures var h := Replay(g, RevokeCalls(subjects, c));
            && WellFormed(h)
            && (forall s, d :: Edge(h, s, d) <==> Edge(g, s, d) && !(d == c && s in subjects))
            && h.endpoints == if Reachers(h, c) == {} then g.endpoints - {c} else g.endpoints
  {
    ReplayKeepsWellFormed(g, RevokeCalls(subjects, c));
    if subjects == [] {
    } else {
      var n := |subjects| - 1;
      var front := subjects[..n];
      assert RevokeCalls(subjects, c)[..n] == RevokeCalls(front, c);
      ReplayRevokes(g, front, c);
      var mid := Replay(g, RevokeCalls(front, c));
      var h := Replay(g, RevokeCalls(subjects, c));
      assert h == Perform(mid, Revoke(subjects[n], c));
      assert subjects == front + [subjects[n]];
      forall s, d ensures Edge(h, s, d) <==> Edge(g, s, d) && !(d == c && s in subjects) {
        PerformEdges(mid, Revoke(subjects[n], c), s, d);
      }
      NoNewReachers(mid, subjects[n], c);
    }
  }

  lemma NoNewReachers(g: GraphState, s: Subject, c: Cluster)
    requires WellFormed(g)
    ensures WellFormed(Perform(g, Revoke(s, c)))
    ensures Reachers(Perform(g, Revoke(s, c)), c) <= Reachers(g, c)
  {
    PerformKeepsWellFormed(g, Revoke(s, c));
    forall t | t in Reachers(Perform(g, Revoke(s, c)), c) ensures t in Reachers(g, c) {
      PerformEdges(g, Revoke(s, c), t, c);
      assert Edge(g, t, c);
    }
  }

  lemma {:induction false} ReplayGrants(g: GraphState, subjects: seq<Subject>, c: Cluster, endpoint: string)
    requires WellFormed(g)
    ensures var h := Replay(g, GrantCalls(subjects, c, endpoint));
            && WellFormed(h)
            && (forall s, d :: Edge(h, s, d) <==> Edge(g, s, d) || (d == c && s in subjects))
            && h.endpoints == if subjects == [] then g.endpoints else g.endpoints[c := endpoint]
  {
    ReplayKeepsWellFormed(g, GrantCalls(subjects, c, endpoint));
    if subjects != [] {
      var n := |subjects| - 1;
      var front := subjects[..n];
      assert GrantCalls(subjects, c, endpoint)[..n] == GrantCalls(front, c, endpoint);
      ReplayGrants(g, front, c, endpoint);
      var mid := Replay(g, GrantCalls(front, c, endpoint));
      var h := Replay(g, GrantCalls(subjects, c, endpoint));
      assert h == Perform(mid, Grant(subjects[n], c, endpoint));
      assert subjects == front + [subjects[n]];
      forall s, d ensures Edge(h, s, d) <==> Edge(g, s, d) || (d == c && s in subjects) {
        PerformEdges(mid, Grant(subjects[n], c, endpoint), s, d);
      }
    }
  }

  /** The graphs agree on every cluster but this one, edges and endpoints alike. */
  ghost predicate SameElsewhere(g: GraphState, h: GraphState, c: Cluster) {
    && (forall s, d :: d != c ==> (Edge(h, s, d) <==> Edge(g, s, d)))
    && (forall d :: d != c ==> (d in h.endpoints <==> d in g.endpoints))
    && (forall d :: d != c && d in h.endpoints && d in g.endpoints ==> h.endpoints[d] == g.endpoints[d])
  }

  /** Some lost edges revoked, then some gained edges granted. */
  lemma ReplayBoth(g: GraphState, rs: seq<Subject>, gs: seq<Subject>, c: Cluster, endpoint: string)
    requires WellFormed(g)
    ensures var h := Replay(g, RevokeCalls(rs, c) + GrantCalls(gs, c, endpoint));
            && WellFormed(h)
            && SameElsewhere(g, h, c)
            && (forall s :: Edge(h, s, c) <==> (Edge(g, s, c) && s !in rs) || s in gs)
            && (c in h.endpoints && gs != [] ==> h.endpoints[c] == endpoint)
            && (c in h.endpoints && gs == [] ==> c in g.endpoints && h.endpoints[c] == g.endpoints[c])
  {
    ReplayConcat(g, RevokeCalls(rs, c), GrantCalls(gs, c, endpoint));
    ReplayRevokes(g, rs, c);
    ReplayGrants(Replay(g, RevokeCalls(rs, c)), gs, c, endpoint);
  }

  /** A reader between two graph calls finds the loops at some position each. */
  lemma PrefixShape(b: Bindings, e: Event, sched: Schedule, n: nat)
    returns (rs: seq<Subject>, gs: seq<Subject>, closing: seq<GraphCall>)
    requires n <= |Calls(b, e, sched)|
    ensures Calls(b, e, sched)[..n] ==
            RevokeCalls(rs, EventCluster(e)) + GrantCalls(gs, EventCluster(e), EventEndpoint(e)) + closing
    ensures rs <= sched.revokes && gs <= sched.grants
    ensures closing == [] || (rs == sched.revokes && gs == sched.grants && closing == ClosingCalls(b, e))
    ensures n == |Calls(b, e, sched)| ==> rs == sched.revokes && gs == sched.grants && closing == ClosingCalls(b, e)
  {
    var nr, ng := |sched.revokes|, |sched.grants|;
    rs := if n <= nr then sched.revokes[..n] else sched.revokes;
    gs := if n <= nr then [] else if n <= nr + ng then sched.grants[..n - nr] else sched.grants;
    closing := if n <= nr + ng then [] else ClosingCalls(b, e);
    assert |ClosingCalls(b, e)| <= 1;
  }

  /** The closing call never changes an edge: by then a departed cluster is unreached. */
  lemma ClosingKeepsEdges(b: Bindings, e: Event, mid: GraphState)
    requires WellFormed(mid)
    requires ClosingCalls(b, e) != []
    requires GraphMatch(mid, Claims(Next(b, e)))
    ensures var h := Replay(mid, ClosingCalls(b, e));
            && WellFormed(h)
            && h.access == mid.access
            && SameElsewhere(mid, h, EventCluster(e))
            && h.endpoints == if e.ApplyBinding? && e.key.cluster in mid.endpoints
                              then mid.endpoints[e.key.cluster := e.endpoint] else mid.endpoints
  {
    var call := ClosingCalls(b, e)[0];
    assert ClosingCalls(b, e) == [call];
    ReplayOne(mid, call);
    PerformKeepsWellFormed(mid, call);
    if e.ForgetCluster? {
      OnlyApplyGains(b, e);
      forall s ensures s !in Reachers(mid, e.cluster) {
        assert Edge(mid, s, e.cluster) <==> s in SubjectsAt(Claims(Next(b, e)), e.cluster);
      }
      ForgetUnreachedIsIdle(mid, e.cluster);
    }
  }

  /** All edges moved: the graph matches the new claims, whether or not a closing call is still to come. */
  lemma OpeningMatches(i: IndexState, e: Event, sched: Schedule)
    requires InStep(i)
    requires LegalSchedule(i.bindings, e, sched)
    ensures var c := EventCluster(e);
            var mid := Replay(i.graph, RevokeCalls(sched.revokes, c) + GrantCalls(sched.grants, c, EventEndpoint(e)));
            GraphMatch(mid, Claims(Next(i.bindings, e)))
  {
    var c, after := EventCluster(e), Claims(Next(i.bindings, e));
    ReplayBoth(i.graph, sched.revokes, sched.grants, c, EventEndpoint(e));
    var mid := Replay(i.graph, RevokeCalls(sched.revokes, c) + GrantCalls(sched.grants, c, EventEndpoint(e)));
    forall s, d ensures Edge(mid, s, d) <==> s in SubjectsAt(after, d) {
      if d != c {
        NextTouchesOneCluster(i.bindings, e, d);
        assert Edge(mid, s, d) <==> Edge(i.graph, s, d);
      } else {
        assert Edge(i.graph, s, c) <==> s in SubjectsAt(Claims(i.bindings), c);
      }
    }
  }

  /** What a reader may be shown while an event is being published. */
  ghost predicate Between(before: set<Claim>, after: set<Claim>, seen: GraphState) {
    && (forall s, d :: s in SubjectsAt(before, d) && s in SubjectsAt(after, d) ==> Edge(seen, s, d))
    && (forall s, d :: Edge(seen, s, d) ==> s in SubjectsAt(before, d) || s in SubjectsAt(after, d))
  }

  /** No edge flickers. At every point between two calls of an event the graph is well formed, an edge wanted before
      and after is there, an edge wanted neither before nor after is not, and other clusters are untouched. */
  lemma NoFlicker(i: IndexState, e: Event, sched: Schedule, n: nat)
    requires InStep(i)
    requires LegalSchedule(i.bindings, e, sched)
    requires n <= |Calls(i.bindings, e, sched)|
    ensures var seen := Replay(i.graph, Calls(i.bindings, e, sched)[..n]);
            && WellFormed(seen)
            && Between(Claims(i.bindings), Claims(Next(i.bindings, e)), seen)
            && SameElsewhere(i.graph, seen, EventCluster(e))
  {
    var b, c := i.bindings, EventCluster(e);
    var rs, gs, closing := PrefixShape(b, e, sched, n);
    var calls := RevokeCalls(rs, c) + GrantCalls(gs, c, EventEndpoint(e));
    ReplayConcat(i.graph, calls, closing);
    PartwayIsBetween(i, e, sched, rs, gs);
    if closing != [] {
      OpeningMatches(i, e, sched);
      ClosingKeepsEdges(b, e, Replay(i.graph, calls));
    } else {
      assert calls + closing == calls;
    }
  }

  /** Part-way, the event's cluster is served where it was before, or where the event says. */
  lemma NoForeignEndpoint(i: IndexState, e: Event, sched: Schedule, n: nat)
    requires InStep(i)
    requires LegalSchedule(i.bindings, e, sched)
    requires n <= |Calls(i.bindings, e, sched)|
    ensures var seen := Replay(i.graph, Calls(i.bindings, e, sched)[..n]);
            var c := EventCluster(e);
            c in seen.endpoints ==>
              || (c in i.graph.endpoints && seen.endpoints[c] == i.graph.endpoints[c])
              || (e.ApplyBinding? && seen.endpoints[c] == e.endpoint)
  {
    var b, c := i.bindings, EventCluster(e);
    var rs, gs, closing := PrefixShape(b, e, sched, n);
    var calls := RevokeCalls(rs, c) + GrantCalls(gs, c, EventEndpoint(e));
    ReplayConcat(i.graph, calls, closing);
    ReplayBoth(i.graph, rs, gs, c, EventEndpoint(e));
    if !e.ApplyBinding? {
      OnlyApplyGains(b, e);
      NothingToEnumerate(sched.grants);
    }
    if closing != [] {
      OpeningMatches(i, e, sched);
      ClosingKeepsEdges(b, e, Replay(i.graph, calls));
    } else {
      assert calls + closing == calls;
    }
  }

  lemma PartwayIsBetween(i: IndexState, e: Event, sched: Schedule, rs: seq<Subject>, gs: seq<Subject>)
    requires InStep(i)
    requires LegalSchedule(i.bindings, e, sched)
    requires rs <= sched.revokes && gs <= sched.grants
    ensures var c := EventCluster(e);
            var seen := Replay(i.graph, RevokeCalls(rs, c) + GrantCalls(gs, c, EventEndpoint(e)));
            && WellFormed(seen)
            && Between(Claims(i.bindings), Claims(Next(i.bindings, e)), seen)
            && SameElsewhere(i.graph, seen, c)
  {
    var b, c := i.bindings, EventCluster(e);
    assert forall s :: s in rs ==> s in sched.revokes;
    assert forall s :: s in gs ==> s in sched.grants;
    ReplayBoth(i.graph, rs, gs, c, EventEndpoint(e));
    forall d | d != c ensures SubjectsAt(Claims(Next(b, e)), d) == SubjectsAt(Claims(b), d) {
      NextTouchesOneCluster(b, e, d);
    }
  }

  lemma MatchedReachers(g: GraphState, claims: set<Claim>, c: Cluster)
    requires WellFormed(g) && GraphMatch(g, claims)
    ensures c in g.endpoints <==> SubjectsAt(claims, c) != {}
  {
    forall s ensures s in Reachers(g, c) <==> s in SubjectsAt(claims, c) {
      assert Edge(g, s, c) <==> s in SubjectsAt(claims, c);
    }
    assert Reachers(g, c) == SubjectsAt(claims, c);
  }

  /** The edges moved, the cluster is served at the old endpoint, or at the event's if some edge was granted. */
  lemma OpeningEndpoints(i: IndexState, e: Event, sched: Schedule)
    requires InStep(i)
    requires LegalSchedule(i.bindings, e, sched)
    ensures var c := EventCluster(e);
            var mid := Replay(i.graph, RevokeCalls(sched.revokes, c) + GrantCalls(sched.grants, c, EventEndpoint(e)));
            mid.endpoints ==
              if SubjectsAt(Claims(Next(i.bindings, e)), c) == {} then i.graph.endpoints - {c}
              else if Gained(i.bindings, e) != {} then i.graph.endpoints[c := EventEndpoint(e)]
              else i.graph.endpoints
  {
    var c := EventCluster(e);
    var mid := Replay(i.graph, RevokeCalls(sched.revokes, c) + GrantCalls(sched.grants, c, EventEndpoint(e)));
    OpeningMatches(i, e, sched);
    ReplayBoth(i.graph, sched.revokes, sched.grants, c, EventEndpoint(e));
    MatchedReachers(mid, Claims(Next(i.bindings, e)), c);
    if sched.grants != [] {
      assert sched.grants[0] in Gained(i.bindings, e);
    }
    SameButOne(i.graph.endpoints, mid.endpoints, c);
  }

  lemma SameButOne(m: map<Cluster, string>, n: map<Cluster, string>, c: Cluster)
    requires forall d :: d != c ==> (d in n <==> d in m)
    requires forall d :: d != c && d in n && d in m ==> n[d] == m[d]
    ensures n == if c in n then m[c := n[c]] else m - {c}
    ensures c in m && c in n && m[c] == n[c] ==> n == m
  {
    if c in n {
      assert n.Keys == m[c := n[c]].Keys;
    } else {
      assert n.Keys == (m - {c}).Keys;
    }
  }

  /** Once all calls are made the graph shows exactly the edges wanted after the event. */
  lemma AllCallsMatch(i: IndexState, e: Event, sched: Schedule)
    requires InStep(i)
    requires LegalSchedule(i.bindings, e, sched)
    ensures var h := Replay(i.graph, Calls(i.bindings, e, sched));
            && WellFormed(h)
            && GraphMatch(h, Claims(Next(i.bindings, e)))
            && h.endpoints == SettledEndpoints(i.graph.endpoints, i.bindings, e)
  {
    var b, c := i.bindings, EventCluster(e);
    var opening := RevokeCalls(sched.revokes, c) + GrantCalls(sched.grants, c, EventEndpoint(e));
    ReplayConcat(i.graph, opening, ClosingCalls(b, e));
    var mid := Replay(i.graph, opening);
    OpeningMatches(i, e, sched);
    OpeningEndpoints(i, e, sched);
    ReplayBoth(i.graph, sched.revokes, sched.grants, c, EventEndpoint(e));
    ClosingSettles(i, e, mid);
  }

  /** The closing call completes the endpoints. */
  lemma ClosingSettles(i: IndexState, e: Event, mid: GraphState)
    requires WellFormed(mid) && GraphMatch(mid, Claims(Next(i.bindings, e)))
    requires mid.endpoints ==
             if SubjectsAt(Claims(Next(i.bindings, e)), EventCluster(e)) == {}
             then i.graph.endpoints - {EventCluster(e)}
             else if Gained(i.bindings, e) != {} then i.graph.endpoints[EventCluster(e) := EventEndpoint(e)]
             else i.graph.endpoints
    ensures var h := Replay(mid, ClosingCalls(i.bindings, e));
            && WellFormed(h)
            && GraphMatch(h, Claims(Next(i.bindings, e)))
            && h.endpoints == SettledEndpoints(i.graph.endpoints, i.bindings, e)
  {
    MatchedReachers(mid, Claims(Next(i.bindings, e)), EventCluster(e));
    if ClosingCalls(i.bindings, e) != [] {
      ClosingKeepsEdges(i.bindings, e, mid);
    }
    if !e.ApplyBinding? {
      OnlyApplyGains(i.bindings, e);
    }
  }

  lemma AccessOfMatches(claims: set<Claim>, g: GraphState)
    requires WellFormed(g) && GraphMatch(g, claims)
    ensures g.access == AccessOf(claims)
  {
    var wanted := AccessOf(claims);
    forall s ensures s in g.access <==> s in wanted {
      if s in g.access {
        var c :| c in g.access[s];
        assert Edge(g, s, c);
      }
      if s in wanted {
        var x :| x in claims && x.subject == s;
        assert s in SubjectsAt(claims, x.key.cluster);
        assert Edge(g, s, x.key.cluster);
      }
    }
    forall s | s in g.access ensures g.access[s] == wanted[s] {
      forall c ensures c in g.access[s] <==> c in wanted[s] {
        assert Edge(g, s, c) <==> s in SubjectsAt(claims, c);
        if c in wanted[s] {
          var x :| x in claims && x.subject == s && x.key.cluster == c;
          assert x.subject in SubjectsAt(claims, c);
        }
      }
    }
  }

  /** Whatever order the loops run in, an event ends in its declared outcome, and the two halves stay in step. */
  lemma CallsSettle(i: IndexState, e: Event, sched: Schedule)
    requires InStep(i)
    requires LegalSchedule(i.bindings, e, sched)
    ensures IndexState(Next(i.bindings, e), Replay(i.graph, Calls(i.bindings, e, sched))) == Settle(i, e)
    ensures InStep(Settle(i, e))
  {
    AllCallsMatch(i, e, sched);
    AccessOfMatches(Claims(Next(i.bindings, e)), Replay(i.graph, Calls(i.bindings, e, sched)));
  }

  /** One event calls the graph exactly for the edges that change, once each. */
  lemma MinimalDelta(b: Bindings, e: Event, sched: Schedule)
    requires LegalSchedule(b, e, sched)
    ensures var before, after := Claims(b), Claims(Next(b, e));
            && (forall s, d, url :: Grant(s, d, url) in Calls(b, e, sched) <==>
                  s !in SubjectsAt(before, d) && s in SubjectsAt(after, d) && url == EventEndpoint(e))
            && (forall s, d :: Revoke(s, d) in Calls(b, e, sched) <==>
                  s in SubjectsAt(before, d) && s !in SubjectsAt(after, d))
    ensures NoDuplicates(Calls(b, e, sched))
  {
    var c, calls := EventCluster(e), Calls(b, e, sched);
    var rs, gs := RevokeCalls(sched.revokes, c), GrantCalls(sched.grants, c, EventEndpoint(e));
    forall d | d != c ensures SubjectsAt(Claims(Next(b, e)), d) == SubjectsAt(Claims(b), d) {
      NextTouchesOneCluster(b, e, d);
    }
    forall s, d, url
      ensures Grant(s, d, url) in calls <==>
                s !in SubjectsAt(Claims(b), d) && s in SubjectsAt(Claims(Next(b, e)), d) && url == EventEndpoint(e)
    {
      InGrantCalls(sched.grants, c, EventEndpoint(e), s, d, url);
      assert Grant(s, d, url) in calls <==> Grant(s, d, url) in gs;
    }
    forall s, d
      ensures Revoke(s, d) in calls <==> s in SubjectsAt(Claims(b), d) && s !in SubjectsAt(Claims(Next(b, e)), d)
    {
      InRevokeCalls(sched.revokes, c, s, d);
      assert Revoke(s, d) in calls <==> Revoke(s, d) in rs;
    }
  }

  /** Lost edges are revoked before any gained one is granted. What closes the event comes last: the new endpoint of a
      known binding exactly if it changed, the forgetting exactly if the cluster is forgotten. */
  lemma CallsOrder(b: Bindings, e: Event, sched: Schedule)
    ensures forall i, j :: 0 <= i < j < |Calls(b, e, sched)| ==>
              && (Calls(b, e, sched)[j].Revoke? ==> Calls(b, e, sched)[i].Revoke?)
              && (Calls(b, e, sched)[j].Grant? ==> Calls(b, e, sched)[i].Revoke? || Calls(b, e, sched)[i].Grant?)
    ensures forall d, url :: SetEndpoint(d, url) in Calls(b, e, sched) <==>
              && e.ApplyBinding? && e.key in b && b[e.key].endpoint != e.endpoint
              && d == e.key.cluster && url == e.endpoint
    ensures forall d :: Forget(d) in Calls(b, e, sched) <==> e == ForgetCluster(d)
  {
    var calls, closing := Calls(b, e, sched), ClosingCalls(b, e);
    var n := |calls| - |closing|;
    assert forall i :: 0 <= i < n ==> calls[i].Revoke? || calls[i].Grant?;
    assert forall i :: n <= i < |calls| ==> calls[i] == closing[i - n];
    if e.ForgetCluster? {
      assert calls[n] == Forget(e.cluster);
    }
    if e.ApplyBinding? && closing != [] {
      assert calls[n] == SetEndpoint(e.key.cluster, e.endpoint);
    }
  }

  lemma InGrantCalls(subjects: seq<Subject>, c: Cluster, endpoint: string, s: Subject, d: Cluster, url: string)
    ensures Grant(s, d, url) in GrantCalls(subjects, c, endpoint) <==> s in subjects && d == c && url == endpoint
  {
    if s in subjects {
      var n :| 0 <= n < |subjects| && subjects[n] == s;
      assert GrantCalls(subjects, c, endpoint)[n] == Grant(s, c, endpoint);
    }
  }

  lemma InRevokeCalls(subjects: seq<Subject>, c: Cluster, s: Subject, d: Cluster)
    ensures Revoke(s, d) in RevokeCalls(subjects, c) <==> s in subjects && d == c
  {
    if s in subjects {
      var n :| 0 <= n < |subjects| && subjects[n] == s;
      assert RevokeCalls(subjects, c)[n] == Revoke(s, c);
    }
  }
}
