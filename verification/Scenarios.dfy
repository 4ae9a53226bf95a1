/** Runs with one cluster and one object, step by step, up to moments at which the graph and the world disagree.
    Source: pkg/rbacprovider/multicluster.go and translator.go. */
module Scenarios {
  import opened Wrappers
  import opened Rbac
  import opened GraphSpec
  import opened Endpoint
  import opened Index
  import opened Publish
  import opened Provider
  import opened Protocol

  /** A cluster joins, a binding naming one subject is put and indexed; then the subject is replaced by another, and the
      worker publishing that has made the first of its two graph calls. */
  function ReplacingSteps(c: Cluster, name: string, old': RbacSubject, new': RbacSubject, s: Subject, t: Subject)
    : seq<Step>
  {
    IndexedSteps(c, name, old', s) + RereadingSteps(c, name, new') + SwappingSteps(c, name, s, t)
  }

  function ReadingSteps(c: Cluster, name: string, rs: RbacSubject): seq<Step> {
    [Join(c), Put(ClusterRoleBinding(c, name), [rs]), Begin(ClusterRoleBinding(c, name))]
  }

  function IndexingSteps(c: Cluster, name: string, s: Subject): seq<Step> {
    [Enter(ClusterRoleBinding(c, name), Schedule([], [s])), Emit, Leave]
  }

  function RereadingSteps(c: Cluster, name: string, rs: RbacSubject): seq<Step> {
    [Put(ClusterRoleBinding(c, name), [rs]), Begin(ClusterRoleBinding(c, name))]
  }

  function SwappingSteps(c: Cluster, name: string, s: Subject, t: Subject): seq<Step> {
    [Enter(ClusterRoleBinding(c, name), Schedule([s], [t])), Emit]
  }

  function OneBinding(k: BindingKey, s: Subject, endpoint: string): Bindings {
    map[k := BindingState([s], endpoint)]
  }

  lemma OneBindingClaims(k: BindingKey, s: Subject, endpoint: string)
    ensures Claims(OneBinding(k, s, endpoint)) == {Claim(k, s)}
    ensures SubjectsAt(Claims(OneBinding(k, s, endpoint)), k.cluster) == {s}
  {
    assert Claim(k, s) in Claims(OneBinding(k, s, endpoint));
  }

  lemma OneSubject(rs: RbacSubject, s: Subject)
    requires TranslateSubject(rs, "") == Some(s)
    ensures Translation([rs], "") == [s]
  {
    assert [rs][..0] == [];
  }

  /** The first apply makes one call, a grant. */
  lemma FirstCalls(k: BindingKey, s: Subject, endpoint: string)
    ensures var b: Bindings, e := map[], ApplyBinding(k, [s], endpoint);
            && Next(b, e) == OneBinding(k, s, endpoint)
            && LegalSchedule(b, e, Schedule([], [s]))
            && Calls(b, e, Schedule([], [s])) == [Grant(s, k.cluster, endpoint)]
  {
    OneBindingClaims(k, s, endpoint);
    var b: Bindings := map[];
    assert Claims(b) == {};
    assert Next(b, ApplyBinding(k, [s], endpoint)) == OneBinding(k, s, endpoint);
  }

  /** The second revokes and then grants. */
  lemma ReplacingCalls(k: BindingKey, s: Subject, t: Subject, endpoint: string)
    requires s != t
    ensures var e := ApplyBinding(k, [t], endpoint);
            && Next(OneBinding(k, s, endpoint), e) == OneBinding(k, t, endpoint)
            && LegalSchedule(OneBinding(k, s, endpoint), e, Schedule([s], [t]))
            && Calls(OneBinding(k, s, endpoint), e, Schedule([s], [t])) ==
               [Revoke(s, k.cluster), Grant(t, k.cluster, endpoint)]
  {
    OneBindingClaims(k, s, endpoint);
    OneBindingClaims(k, t, endpoint);
    assert Next(OneBinding(k, s, endpoint), ApplyBinding(k, [t], endpoint)) == OneBinding(k, t, endpoint);
  }

  lemma ForgettingOne(k: BindingKey, s: Subject, endpoint: string)
    ensures LegalSchedule(OneBinding(k, s, endpoint), ForgetCluster(k.cluster), Schedule([s], []))
  {
    var b, e := OneBinding(k, s, endpoint), ForgetCluster(k.cluster);
    OneBindingClaims(k, s, endpoint);
    OnlyApplyGains(b, e);
    assert Claims(Next(b, e)) == {};
  }

  /** The system when the object has been read and waits to be published over these bindings and this graph. */
  function ReadOne(c: Cluster, name: string, rs: RbacSubject, b: Bindings, g: GraphState): System {
    var id := ClusterRoleBinding(c, name);
    System(map[id := [rs]], {c}, {}, map[id := Present([rs])], {}, {}, b, g, None)
  }

  /** The system when nothing is under way and one binding names one subject. */
  function IndexedOne(base: string, c: Cluster, name: string, rs: RbacSubject, s: Subject): System {
    ReadOne(c, name, rs, OneBinding(BindingKey(c, "", name), s, EndpointFor(base, c)),
            OneEdge(s, c, EndpointFor(base, c)))
    .(inflight := map[])
  }

  lemma ReadingRun(base: string, c: Cluster, name: string, rs: RbacSubject) returns (states: seq<System>)
    ensures IsRun(base, states, ReadingSteps(c, name, rs)) && states[0] == START
    ensures states[3] == ReadOne(c, name, rs, map[], EMPTY_GRAPH)
  {
    var steps := ReadingSteps(c, name, rs);
    var joined := After(base, START, steps[0]);
    var put := After(base, joined, steps[1]);
    states := [START, joined, put, After(base, put, steps[2])];
    assert states[3].pending == {};
  }

  lemma IndexingRun(base: string, c: Cluster, name: string, rs: RbacSubject, s: Subject) returns (states: seq<System>)
    requires TranslateSubject(rs, "") == Some(s)
    ensures IsRun(base, states, IndexingSteps(c, name, s)) && states[0] == ReadOne(c, name, rs, map[], EMPTY_GRAPH)
    ensures states[3] == IndexedOne(base, c, name, rs, s)
  {
    var id, url := ClusterRoleBinding(c, name), EndpointFor(base, c);
    var steps, start := IndexingSteps(c, name, s), ReadOne(c, name, rs, map[], EMPTY_GRAPH);
    OneSubject(rs, s);
    FirstCalls(KeyOf(id), s, url);
    assert start.inflight[id] == Present([rs]);
    var entered := After(base, start, steps[0]);
    assert SectionCalls(entered.section.value) == [Grant(s, c, url)];
    GrantOnEmpty(s, c, url);
    var granted := After(base, entered, steps[1]);
    states := [start, entered, granted, After(base, granted, steps[2])];
    assert states[3].inflight == map[];
  }

  /** The first six steps: the object is put and indexed. */
  function IndexedSteps(c: Cluster, name: string, rs: RbacSubject, s: Subject): seq<Step> {
    ReadingSteps(c, name, rs) + IndexingSteps(c, name, s)
  }

  lemma IndexedRun(base: string, c: Cluster, name: string, rs: RbacSubject, s: Subject) returns (states: seq<System>)
    requires TranslateSubject(rs, "") == Some(s)
    ensures IsRun(base, states, IndexedSteps(c, name, rs, s)) && states[0] == START
    ensures states[6] == IndexedOne(base, c, name, rs, s)
  {
    var reading := ReadingRun(base, c, name, rs);
    var indexing := IndexingRun(base, c, name, rs, s);
    RunsConcat(base, reading, ReadingSteps(c, name, rs), indexing, IndexingSteps(c, name, s));
    states := reading[..3] + indexing;
  }

  lemma RereadingRun(base: string, c: Cluster, name: string, old': RbacSubject, new': RbacSubject, s: Subject)
    returns (states: seq<System>)
    ensures IsRun(base, states, RereadingSteps(c, name, new')) && states[0] == IndexedOne(base, c, name, old', s)
    ensures states[2] == ReadOne(c, name, new', states[0].bindings, states[0].graph)
  {
    var steps, start := RereadingSteps(c, name, new'), IndexedOne(base, c, name, old', s);
    var put := After(base, start, steps[0]);
    states := [start, put, After(base, put, steps[1])];
    assert states[2].pending == {};
  }

  lemma SwappingRun(base: string, c: Cluster, name: string, rs: RbacSubject, s: Subject, t: Subject, start: System)
    returns (states: seq<System>)
    requires TranslateSubject(rs, "") == Some(t) && s != t
    requires start == ReadOne(c, name, rs, OneBinding(BindingKey(c, "", name), s, EndpointFor(base, c)),
                              OneEdge(s, c, EndpointFor(base, c)))
    ensures IsRun(base, states, SwappingSteps(c, name, s, t)) && states[0] == start
    ensures states[2].graph == EMPTY_GRAPH
    ensures OldClaims(states[2]) == {Claim(BindingKey(c, "", name), s)}
    ensures Claims(states[2].bindings) == {Claim(BindingKey(c, "", name), t)}
  {
    var id, url := ClusterRoleBinding(c, name), EndpointFor(base, c);
    var steps := SwappingSteps(c, name, s, t);
    OneSubject(rs, t);
    ReplacingCalls(KeyOf(id), s, t, url);
    OneBindingClaims(KeyOf(id), s, url);
    OneBindingClaims(KeyOf(id), t, url);
    assert start.inflight[id] == Present([rs]);
    var entered := After(base, start, steps[0]);
    assert SectionCalls(entered.section.value)[0] == Revoke(s, c);
    OneRevoke(s, c, url);
    states := [start, entered, After(base, entered, steps[1])];
  }

  /** There the graph is empty, although the binding names a subject before the publication and a subject after it. */
  lemma ReplacingRun(base: string, c: Cluster, name: string, old': RbacSubject, new': RbacSubject, s: Subject,
                     t: Subject)
    returns (states: seq<System>)
    requires TranslateSubject(old', "") == Some(s) && TranslateSubject(new', "") == Some(t) && s != t
    ensures IsRun(base, states, ReplacingSteps(c, name, old', new', s, t)) && states[0] == START && |states| == 11
    ensures states[10].graph == EMPTY_GRAPH
    ensures OldClaims(states[10]) == {Claim(BindingKey(c, "", name), s)}
    ensures Claims(states[10].bindings) == {Claim(BindingKey(c, "", name), t)}
  {
    var indexed := IndexedRun(base, c, name, old', s);
    var rereading := RereadingRun(base, c, name, old', new', s);
    var swapping := SwappingRun(base, c, name, new', s, t, rereading[2]);
    RunsConcat(base, indexed, IndexedSteps(c, name, old', s), rereading, RereadingSteps(c, name, new'));
    var reread := indexed[..6] + rereading;
    RunsConcat(base, reread, IndexedSteps(c, name, old', s) + RereadingSteps(c, name, new'),
               swapping, SwappingSteps(c, name, s, t));
    states := reread[..8] + swapping;
    assert states[10] == swapping[2];
  }
}
