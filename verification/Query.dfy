/** What a query against the graph has to answer. Source: pkg/graph/query.go. */
module Query {
  import opened Rbac
  import opened GraphSpec
  import opened Ordering

  datatype AccessEndpointSlice = AccessEndpointSlice(clusterName: string, endpoint: string)

  function NameOf(x: AccessEndpointSlice): string {
    x.clusterName
  }

  /** Every identity the caller acts under: the user and each listed group. */
  function CallerSubjects(user: string, groups: seq<string>): set<Subject> {
    {User(user)} + set name | name in groups :: Group(name)
  }

  /** The clusters at least one of the caller's identities reaches. */
  function Visible(g: GraphState, user: string, groups: seq<string>): set<Cluster> {
    set s, c | s in CallerSubjects(user, groups) && c in ClustersOf(g, s) :: c
  }

  /** Go's read of a missing map key gives the zero value. */
  function EndpointOrEmpty(g: GraphState, c: Cluster): string {
    if c in g.endpoints then g.endpoints[c] else ""
  }

  ghost function SliceFor(g: GraphState, c: Cluster): AccessEndpointSlice {
    AccessEndpointSlice(c, EndpointOrEmpty(g, c))
  }

  /** The answer to a query: one slice for each visible cluster, in strictly increasing name order. */
  ghost predicate IsAnswer(g: GraphState, user: string, groups: seq<string>, out: seq<AccessEndpointSlice>) {
    && Increasing(NameOf, out)
    && forall x :: x in out <==> x.clusterName in Visible(g, user, groups) && x == SliceFor(g, x.clusterName)
  }

  /** Whom a caller acts as: the user under the given name, and each of the listed groups, and nobody else. */
  lemma CallerActsAs(user: string, groups: seq<string>, s: Subject)
    ensures s in CallerSubjects(user, groups) <==>
            s == Subject("User", user) || exists name :: name in groups && s == Subject("Group", name)
  {
  }

  /** What an answer says, on every graph: a cluster is listed exactly if the user or a listed group reaches it, with
      the recorded endpoint or else an empty one; each cluster once, in the order of the names' characters. */
  lemma AnswerSays(g: GraphState, user: string, groups: seq<string>, out: seq<AccessEndpointSlice>)
    requires IsAnswer(g, user, groups, out)
    ensures forall c, endpoint :: AccessEndpointSlice(c, endpoint) in out <==>
              && (Edge(g, Subject("User", user), c)
                  || exists name :: name in groups && Edge(g, Subject("Group", name), c))
              && endpoint == (if c in g.endpoints then g.endpoints[c] else "")
    ensures forall i, j :: 0 <= i < j < |out| ==> Less(out[i].clusterName, out[j].clusterName)
  {
    forall c ensures c in Visible(g, user, groups) <==>
      Edge(g, Subject("User", user), c) || exists name :: name in groups && Edge(g, Subject("Group", name), c)
    {
      forall s { CallerActsAs(user, groups, s); }
      forall s ensures c in ClustersOf(g, s) <==> Edge(g, s, c) {
      }
      if c in Visible(g, user, groups) {
        var s :| s in CallerSubjects(user, groups) && c in ClustersOf(g, s);
      }
    }
    forall c, endpoint
      ensures AccessEndpointSlice(c, endpoint) in out <==>
              c in Visible(g, user, groups) && endpoint == EndpointOrEmpty(g, c)
    {
      assert AccessEndpointSlice(c, endpoint) == SliceFor(g, c) <==> endpoint == EndpointOrEmpty(g, c);
    }
    forall i, j | 0 <= i < j < |out| ensures Less(out[i].clusterName, out[j].clusterName) {
      assert Less(NameOf(out[i]), NameOf(out[j]));
    }
  }

  /** No other list answers the query, so neither map iteration order nor the sorting algorithm can show. */
  lemma AnswerIsUnique(g: GraphState, user: string, groups: seq<string>,
                       out: seq<AccessEndpointSlice>, other: seq<AccessEndpointSlice>)
    requires IsAnswer(g, user, groups, out) && IsAnswer(g, user, groups, other)
    ensures out == other
  {
    IncreasingUnique(NameOf, out, other);
  }

  /** Listing groups in another order or twice does not change the answer. */
  lemma GroupOrderIsIrrelevant(g: GraphState, user: string, groups: seq<string>, groups': seq<string>,
                               out: seq<AccessEndpointSlice>, out': seq<AccessEndpointSlice>)
    requires forall name :: name in groups <==> name in groups'
    requires IsAnswer(g, user, groups, out) && IsAnswer(g, user, groups', out')
    ensures out == out'
  {
    assert CallerSubjects(user, groups) == CallerSubjects(user, groups');
    AnswerIsUnique(g, user, groups, out, out');
  }

  /** Joining more groups only adds slices, and never moves an endpoint. */
  lemma MoreGroupsSeeMore(g: GraphState, user: string, groups: seq<string>, groups': seq<string>,
                          out: seq<AccessEndpointSlice>, out': seq<AccessEndpointSlice>)
    requires forall name :: name in groups ==> name in groups'
    requires IsAnswer(g, user, groups, out) && IsAnswer(g, user, groups', out')
    ensures forall x :: x in out ==> x in out'
  {
    assert CallerSubjects(user, groups) <= CallerSubjects(user, groups');
    assert Visible(g, user, groups) <= Visible(g, user, groups');
  }

  /** On a well-formed graph the endpoint join never falls back to the empty string. */
  lemma EndpointNeverMisses(g: GraphState, user: string, groups: seq<string>, out: seq<AccessEndpointSlice>)
    requires WellFormed(g)
    requires IsAnswer(g, user, groups, out)
    ensures forall x :: x in out ==> x.clusterName in g.endpoints && x.endpoint == g.endpoints[x.clusterName]
  {
    forall x | x in out ensures x.clusterName in g.endpoints {
      var s :| s in CallerSubjects(user, groups) && x.clusterName in ClustersOf(g, s);
      assert s in Reachers(g, x.clusterName);
    }
  }
}
