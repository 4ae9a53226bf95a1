/** Whole runs of the index: what every history of apply, remove and forget events adds up to.
    Source: pkg/rbacprovider/translator.go; endpoints from pkg/rbacprovider/provider.go. */
module History {
  import opened Rbac
  import opened GraphSpec
  import opened Endpoint
  import opened Index
  import opened Publish

  /** The index after a history, starting from a new translator on a new graph. */
  function Run(events: seq<Event>): IndexState {
    if events == [] then EMPTY_INDEX
    else Settle(Run(events[..|events| - 1]), events[|events| - 1])
  }

  predicate Touches(e: Event, k: BindingKey) {
    if e.ForgetCluster? then e.cluster == k.cluster else e.key == k
  }

  /** The n-th event applied the key and nothing touched it since. */
  ghost predicate StandsSince(events: seq<Event>, k: BindingKey, n: nat) {
    && n < |events|
    && events[n].ApplyBinding? && events[n].key == k
    && forall m :: n < m < |events| ==> !Touches(events[m], k)
  }

  /** Some apply of a binding in this cluster that names the subject still stands. */
  ghost predicate Entitled(events: seq<Event>, s: Subject, c: Cluster) {
    exists k, n: nat :: StandsSince(events, k, n) && k.cluster == c && s in events[n].subjects
  }

  // ---- Schedules exist, so every event can settle ----

  lemma SomeOrder(subjects: set<Subject>) returns (list: seq<Subject>)
    ensures Enumerates(list, subjects)
  {
    list := [];
    var todo := subjects;
    while todo != {}
      invariant todo <= subjects
      invariant Enumerates(list, subjects - todo)
      decreases |todo|
    {
      var s :| s in todo;
      todo := todo - {s};
      assert s !in list;
      list := list + [s];
    }
  }

  lemma SettleInStep(i: IndexState, e: Event)
    requires InStep(i)
    ensures InStep(Settle(i, e))
  {
    var rs := SomeOrder(Lost(i.bindings, e));
    var gs := SomeOrder(Gained(i.bindings, e));
    CallsSettle(i, e, Schedule(rs, gs));
  }

  lemma {:induction false} RunInStep(events: seq<Event>)
    ensures InStep(Run(events))
  {
    if events == [] {
      assert Claims(EMPTY_INDEX.bindings) == {};
    } else {
      RunInStep(events[..|events| - 1]);
      SettleInStep(Run(events[..|events| - 1]), events[|events| - 1]);
    }
  }

  // ---- Incremental equals declarative ----

  /** A binding is stored exactly while some apply of it stands, with that apply's subjects and endpoint. */
  lemma {:induction false} StoredIffStands(events: seq<Event>, k: BindingKey)
    ensures k in Run(events).bindings <==> exists n: nat :: StandsSince(events, k, n)
    ensures forall n: nat :: StandsSince(events, k, n) ==>
              k in Run(events).bindings && Run(events).bindings[k]
                 == BindingState(events[n].subjects, events[n].endpoint)
  {
    if events != [] {
      var front, last := events[..|events| - 1], events[|events| - 1];
      StoredIffStands(front, k);
      assert Run(events).bindings == Next(Run(front).bindings, last);
      if Touches(last, k) {
        forall n: nat | StandsSince(events, k, n) ensures n == |events| - 1 {
        }
        if last.ApplyBinding? {
          assert StandsSince(events, k, |events| - 1);
        }
      } else {
        forall n: nat ensures StandsSince(events, k, n) <==> StandsSince(front, k, n) {
          StandsOn(events, k, n);
        }
        if k in Run(front).bindings {
          var n: nat :| StandsSince(front, k, n);
          assert StandsSince(events, k, n);
        }
      }
    }
  }

  lemma StandsOn(events: seq<Event>, k: BindingKey, n: nat)
    requires events != [] && !Touches(events[|events| - 1], k)
    ensures StandsSince(events, k, n) <==> StandsSince(events[..|events| - 1], k, n)
    ensures n < |events| - 1 ==> events[..|events| - 1][n] == events[n]
  {
    var front := events[..|events| - 1];
    assert forall m :: 0 <= m < |front| ==> front[m] == events[m];
  }

  /** The graph is never computed from the bindings, yet after every history it shows an edge exactly for the
      entitled. */
  lemma EdgeIffEntitled(events: seq<Event>, s: Subject, c: Cluster)
    ensures Edge(Run(events).graph, s, c) <==> Entitled(events, s, c)
  {
    RunInStep(events);
    var b := Run(events).bindings;
    if s in SubjectsAt(Claims(b), c) {
      var x :| x in Claims(b) && x.key.cluster == c && x.subject == s;
      StoredIffStands(events, x.key);
      var n: nat :| StandsSince(events, x.key, n);
      assert Entitled(events, s, c);
    }
    if Entitled(events, s, c) {
      var k, n: nat :| StandsSince(events, k, n) && k.cluster == c && s in events[n].subjects;
      StoredIffStands(events, k);
      assert Claim(k, s) in Claims(b);
    }
  }

  // ---- Endpoints that depend on the cluster only ----

  predicate FromBase(base: string, e: Event) {
    e.ApplyBinding? ==> e.endpoint == EndpointFor(base, e.key.cluster)
  }

  ghost predicate Served(base: string, g: GraphState) {
    forall c :: c in g.endpoints ==> g.endpoints[c] == EndpointFor(base, c)
  }

  ghost predicate AllFromBase(base: string, events: seq<Event>) {
    forall n :: 0 <= n < |events| ==> FromBase(base, events[n])
  }

  lemma SettleServes(base: string, i: IndexState, e: Event)
    requires Served(base, i.graph) && FromBase(base, e)
    ensures Served(base, Settle(i, e).graph)
  {
  }

  /** When every apply passes the cluster's own URL, the graph serves exactly the reachable clusters, each at its own
      URL. */
  lemma {:induction false} RunServes(base: string, events: seq<Event>)
    requires AllFromBase(base, events)
    ensures Served(base, Run(events).graph)
    ensures forall c :: c in Run(events).graph.endpoints <==> exists s :: Entitled(events, s, c)
    ensures forall k :: k in Run(events).bindings ==> Run(events).bindings[k].endpoint == EndpointFor(base, k.cluster)
  {
    if events != [] {
      var front, last := events[..|events| - 1], events[|events| - 1];
      assert forall n :: 0 <= n < |front| ==> front[n] == events[n];
      RunServes(base, front);
      assert FromBase(base, last);
      SettleServes(base, Run(front), last);
      assert Run(events).bindings == Next(Run(front).bindings, last);
    }
    forall c ensures c in Run(events).graph.endpoints <==> exists s :: Entitled(events, s, c) {
      ServedIffEntitled(events, c);
    }
  }

  lemma ServedIffEntitled(events: seq<Event>, c: Cluster)
    ensures c in Run(events).graph.endpoints <==> exists s :: Entitled(events, s, c)
  {
    RunInStep(events);
    var g := Run(events).graph;
    forall s { EdgeIffEntitled(events, s, c); }
    if c in g.endpoints {
      var s :| s in Reachers(g, c);
      assert Edge(g, s, c);
      assert Entitled(events, s, c);
    }
    if exists s :: Entitled(events, s, c) {
      var s :| Entitled(events, s, c);
      assert s in Reachers(g, c);
    }
  }

  // ---- History independence ----

  /** Access depends on the bindings left applied, not on how they got there; so does the whole index when endpoints
      follow the cluster. */
  lemma HistoryIndependent(base: string, events: seq<Event>, other: seq<Event>)
    requires Run(events).bindings == Run(other).bindings
    ensures Run(events).graph.access == Run(other).graph.access
    ensures AllFromBase(base, events) && AllFromBase(base, other) ==> Run(events) == Run(other)
  {
    RunInStep(events);
    RunInStep(other);
    SameBindingsSameIndex(base, Run(events), Run(other));
    if AllFromBase(base, events) && AllFromBase(base, other) {
      RunServes(base, events);
      RunServes(base, other);
    }
  }

  lemma SameBindingsSameAccess(i: IndexState, j: IndexState)
    requires InStep(i) && InStep(j) && i.bindings == j.bindings
    ensures i.graph.access == j.graph.access && i.graph.endpoints.Keys == j.graph.endpoints.Keys
  {
    forall s, c ensures Edge(i.graph, s, c) <==> Edge(j.graph, s, c) {
      assert Edge(i.graph, s, c) <==> s in SubjectsAt(Claims(i.bindings), c);
      assert Edge(j.graph, s, c) <==> s in SubjectsAt(Claims(i.bindings), c);
    }
    EdgesDetermineAccess(i.graph, j.graph);
  }

  /** Applying the stored bindings afresh, in the given order. */
  function ApplyAll(b: Bindings, order: seq<BindingKey>): seq<Event>
    requires forall k :: k in order ==> k in b
  {
    seq(|order|, n requires 0 <= n < |order| => ApplyBinding(order[n], b[order[n]].subjects, b[order[n]].endpoint))
  }

  function Selected(b: Bindings, order: seq<BindingKey>): Bindings {
    map k | k in b && k in order :: b[k]
  }

  function Unselected(b: Bindings, order: seq<BindingKey>): Bindings {
    map k | k in b && k !in order :: b[k]
  }

  lemma OneMoreKey(b: Bindings, order: seq<BindingKey>, k: BindingKey)
    ensures k in b ==> Selected(b, order + [k]) == Selected(b, order)[k := b[k]]
    ensures Unselected(b, order + [k]) == Unselected(b, order) - {k}
  {
    assert forall other :: other in order + [k] <==> other in order || other == k;
  }

  lemma {:induction false} ApplyAllStores(b: Bindings, order: seq<BindingKey>)
    requires forall k :: k in order ==> k in b
    ensures Run(ApplyAll(b, order)).bindings == Selected(b, order)
  {
    if order != [] {
      var front, last := order[..|order| - 1], order[|order| - 1];
      var e := ApplyBinding(last, b[last].subjects, b[last].endpoint);
      assert order == front + [last];
      ApplyAllStores(b, front);
      OneMoreKey(b, front, last);
      assert ApplyAll(b, order) == ApplyAll(b, front) + [e];
      RunLast(ApplyAll(b, front), e);
    }
  }

  lemma RunLast(events: seq<Event>, e: Event)
    ensures Run(events + [e]) == Settle(Run(events), e)
    ensures Run(events + [e]).bindings == Next(Run(events).bindings, e)
  {
    assert (events + [e])[..|events|] == events;
  }

  /** Any history is as good as a fresh start that applies the surviving bindings in any order: bindings and access
      agree always, the whole index when endpoints follow the cluster. */
  lemma AnyRebuildAgrees(base: string, events: seq<Event>, order: seq<BindingKey>)
    requires forall k :: k in order <==> k in Run(events).bindings
    ensures Run(ApplyAll(Run(events).bindings, order)).bindings == Run(events).bindings
    ensures Run(ApplyAll(Run(events).bindings, order)).graph.access == Run(events).graph.access
    ensures AllFromBase(base, events) ==> Run(ApplyAll(Run(events).bindings, order)) == Run(events)
  {
    var b := Run(events).bindings;
    ApplyAllStores(b, order);
    assert Selected(b, order) == b;
    if AllFromBase(base, events) {
      RebuildFromBase(base, events, order);
    }
    HistoryIndependent(base, ApplyAll(b, order), events);
  }

  lemma RebuildFromBase(base: string, events: seq<Event>, order: seq<BindingKey>)
    requires AllFromBase(base, events)
    requires forall k :: k in order ==> k in Run(events).bindings
    ensures AllFromBase(base, ApplyAll(Run(events).bindings, order))
  {
    RunServes(base, events);
    forall n | 0 <= n < |order| ensures FromBase(base, ApplyAll(Run(events).bindings, order)[n]) {
      assert order[n] in Run(events).bindings;
    }
  }

  /** Events that touch no common binding commute: fully when endpoints follow the cluster, in access always. */
  lemma IndependentEventsCommute(base: string, i: IndexState, e: Event, f: Event)
    requires InStep(i)
    requires forall k :: !(Touches(e, k) && Touches(f, k))
    ensures Settle(Settle(i, e), f).bindings == Settle(Settle(i, f), e).bindings
    ensures Settle(Settle(i, e), f).graph.access == Settle(Settle(i, f), e).graph.access
    ensures Served(base, i.graph) && FromBase(base, e) && FromBase(base, f) ==>
              Settle(Settle(i, e), f) == Settle(Settle(i, f), e)
  {
    NextsCommute(i.bindings, e, f);
    TwoSteps(base, i, e, f);
    TwoSteps(base, i, f, e);
    SameBindingsSameIndex(base, Settle(Settle(i, e), f), Settle(Settle(i, f), e));
  }

  lemma TwoSteps(base: string, i: IndexState, e: Event, f: Event)
    requires InStep(i)
    ensures InStep(Settle(Settle(i, e), f))
    ensures Settle(Settle(i, e), f).bindings == Next(Next(i.bindings, e), f)
    ensures Served(base, i.graph) && FromBase(base, e) && FromBase(base, f) ==>
            Served(base, Settle(Settle(i, e), f).graph)
  {
    var mid := Settle(i, e);
    SettleInStep(i, e);
    SettleInStep(mid, f);
    if Served(base, i.graph) && FromBase(base, e) && FromBase(base, f) {
      SettleServes(base, i, e);
      SettleServes(base, mid, f);
    }
  }

  lemma SameBindingsSameIndex(base: string, i: IndexState, j: IndexState)
    requires InStep(i) && InStep(j) && i.bindings == j.bindings
    ensures i.graph.access == j.graph.access
    ensures Served(base, i.graph) && Served(base, j.graph) ==> i == j
  {
    SameBindingsSameAccess(i, j);
    if Served(base, i.graph) && Served(base, j.graph) {
      assert i.graph.endpoints == j.graph.endpoints;
    }
  }

  lemma NextsCommute(b: Bindings, e: Event, f: Event)
    requires forall k :: !(Touches(e, k) && Touches(f, k))
    ensures Next(Next(b, e), f) == Next(Next(b, f), e)
  {
    var ef, fe := Next(Next(b, e), f), Next(Next(b, f), e);
    if !e.ForgetCluster? { assert Touches(e, e.key); }
    if !f.ForgetCluster? { assert Touches(f, f.key); }
    forall k ensures k in ef <==> k in fe {
    }
    forall k | k in ef ensures ef[k] == fe[k] {
    }
  }

  // ---- Removal ----

  function RemoveAll(order: seq<BindingKey>): seq<Event> {
    seq(|order|, n requires 0 <= n < |order| => RemoveBinding(order[n]))
  }

  lemma {:induction false} RemoveAllDrops(events: seq<Event>, order: seq<BindingKey>)
    ensures Run(events + RemoveAll(order)).bindings == Unselected(Run(events).bindings, order)
  {
    if order == [] {
      assert events + RemoveAll(order) == events;
    } else {
      assert order == order[..|order| - 1] + [order[|order| - 1]];
      RemoveAllDrops(events, order[..|order| - 1]);
      RemoveOneMore(events, order[..|order| - 1], order[|order| - 1]);
    }
  }

  lemma RemoveOneMore(events: seq<Event>, order: seq<BindingKey>, k: BindingKey)
    requires Run(events + RemoveAll(order)).bindings == Unselected(Run(events).bindings, order)
    ensures Run(events + RemoveAll(order + [k])).bindings == Unselected(Run(events).bindings, order + [k])
  {
    OneMoreKey(Run(events).bindings, order, k);
    assert RemoveAll(order + [k]) == RemoveAll(order) + [RemoveBinding(k)];
    assert events + RemoveAll(order + [k]) == (events + RemoveAll(order)) + [RemoveBinding(k)];
    RunLast(events + RemoveAll(order), RemoveBinding(k));
  }

  /** Removing every binding, in any order, leaves nothing behind: no access and no endpoint, whatever the endpoints
      were. */
  lemma RemovingAllEmpties(events: seq<Event>, order: seq<BindingKey>)
    requires forall k :: k in Run(events).bindings ==> k in order
    ensures Run(events + RemoveAll(order)) == EMPTY_INDEX
  {
    RemoveAllDrops(events, order);
    var end := Run(events + RemoveAll(order));
    assert end.bindings == map[];
    RunInStep(events + RemoveAll(order));
    RunInStep([]);
    SameBindingsSameAccess(end, EMPTY_INDEX);
    assert Run([]) == EMPTY_INDEX;
    assert end.graph.endpoints == map[];
  }

  /** Forgetting a cluster removes its bindings, edges and endpoint, and nothing of any other cluster. The final call on
      the graph has nothing left to do. */
  lemma ForgetRemovesOneCluster(i: IndexState, c: Cluster, sched: Schedule)
    requires InStep(i)
    requires LegalSchedule(i.bindings, ForgetCluster(c), sched)
    ensures var j := Settle(i, ForgetCluster(c));
            var calls := Calls(i.bindings, ForgetCluster(c), sched);
            && (forall k :: k in j.bindings <==> k in i.bindings && k.cluster != c)
            && (forall s :: !Edge(j.graph, s, c)) && c !in j.graph.endpoints
            && SameElsewhere(i.graph, j.graph, c)
            && Replay(i.graph, calls[..|calls| - 1]) == j.graph
  {
    var e := ForgetCluster(c);
    var calls := Calls(i.bindings, e, sched);
    var j := Settle(i, e);
    CallsSettle(i, e, sched);
    NoFlicker(i, e, sched, |calls|);
    assert calls[..|calls|] == calls;
    OnlyApplyGains(i.bindings, e);
    forall s ensures !Edge(j.graph, s, c) {
      assert Edge(j.graph, s, c) <==> s in SubjectsAt(Claims(j.bindings), c);
    }
    MatchedReachers(j.graph, Claims(j.bindings), c);

    var opening := RevokeCalls(sched.revokes, c) + GrantCalls(sched.grants, c, EventEndpoint(e));
    assert calls[..|calls| - 1] == opening;
    var mid := Replay(i.graph, opening);
    OpeningMatches(i, e, sched);
    NoFlicker(i, e, sched, |opening|);
    MatchedReachers(mid, Claims(j.bindings), c);
    ForgetUnreachedIsIdle(mid, c);
    assert calls[|calls| - 1] == Forget(c);
  }

  /** Seeing the same binding again changes nothing and calls nothing. */
  lemma ResyncIsIdle(i: IndexState, k: BindingKey, sched: Schedule)
    requires InStep(i) && k in i.bindings
    requires LegalSchedule(i.bindings, ApplyBinding(k, i.bindings[k].subjects, i.bindings[k].endpoint), sched)
    ensures Settle(i, ApplyBinding(k, i.bindings[k].subjects, i.bindings[k].endpoint)) == i
    ensures Calls(i.bindings, ApplyBinding(k, i.bindings[k].subjects, i.bindings[k].endpoint), sched) == []
  {
    var e := ApplyBinding(k, i.bindings[k].subjects, i.bindings[k].endpoint);
    assert Next(i.bindings, e) == i.bindings;
    assert Lost(i.bindings, e) == {} && Gained(i.bindings, e) == {};
    NothingToEnumerate(sched.revokes);
    NothingToEnumerate(sched.grants);
    AccessOfMatches(Claims(i.bindings), i.graph);
    MatchedReachers(i.graph, Claims(i.bindings), k.cluster);
    assert i.graph.endpoints - {k.cluster} == i.graph.endpoints || k.cluster in i.graph.endpoints;
  }

  /** A forgotten cluster stays forgotten only until the next apply that names somebody in it. */
  lemma ForgottenUntilApplied(i: IndexState, e: Event, s: Subject)
    requires InStep(i) && e.ApplyBinding? && s in e.subjects
    ensures !Edge(Settle(i, ForgetCluster(e.key.cluster)).graph, s, e.key.cluster)
    ensures Edge(Settle(Settle(i, ForgetCluster(e.key.cluster)), e).graph, s, e.key.cluster)
  {
    var c := e.key.cluster;
    var forgotten := Settle(i, ForgetCluster(c));
    SettleInStep(i, ForgetCluster(c));
    OnlyApplyGains(i.bindings, ForgetCluster(c));
    assert Edge(forgotten.graph, s, c) <==> s in SubjectsAt(Claims(forgotten.bindings), c);
    AppliedIsSeen(forgotten, e, s);
  }

  /** Whatever happens after a cluster was forgotten, it is back only for subjects that a later apply in it names. */
  lemma ForgottenStays(events: seq<Event>, n: nat, s: Subject, c: Cluster)
    requires n < |events| && events[n] == ForgetCluster(c)
    requires Edge(Run(events).graph, s, c)
    ensures exists m ::
              n < m < |events| && events[m].ApplyBinding? && events[m].key.cluster == c && s in events[m].subjects
  {
    EdgeIffEntitled(events, s, c);
    var k, m: nat :| StandsSince(events, k, m) && k.cluster == c && s in events[m].subjects;
    assert Touches(events[n], k);
  }

  lemma AppliedIsSeen(i: IndexState, e: Event, s: Subject)
    requires InStep(i) && e.ApplyBinding? && s in e.subjects
    ensures Edge(Settle(i, e).graph, s, e.key.cluster)
  {
    SettleInStep(i, e);
    assert Claim(e.key, s) in Claims(Next(i.bindings, e));
  }

  // ---- Endpoints that move ----

  /** Exactly when an apply's endpoint is the one served afterwards: the cluster is reachable, and the apply grants a
      first edge, re-applies a binding at a new endpoint, or repeats the endpoint already served. */
  lemma ServedAtLatestIff(i: IndexState, e: Event)
    requires InStep(i) && e.ApplyBinding?
    ensures var after := Settle(i, e).graph.endpoints;
            var c := e.key.cluster;
            (c in after && after[c] == e.endpoint) <==>
            && SubjectsAt(Claims(Next(i.bindings, e)), c) != {}
            && (Announces(i.bindings, e) || (c in i.graph.endpoints && i.graph.endpoints[c] == e.endpoint))
  {
    MatchedReachers(i.graph, Claims(i.bindings), e.key.cluster);
  }

  lemma ClaimIsEdge(i: IndexState, k: BindingKey, s: Subject)
    requires InStep(i) && Claims(i.bindings) == {Claim(k, s)}
    ensures forall t, c :: Edge(i.graph, t, c) <==> t == s && c == k.cluster
  {
    forall t, c ensures Edge(i.graph, t, c) <==> t == s && c == k.cluster {
      assert Edge(i.graph, t, c) <==> t in SubjectsAt(Claims(i.bindings), c);
    }
  }

  /** The index after a single apply. */
  lemma OneApply(k: BindingKey, s: Subject, endpoint: string)
    ensures var one := Run([ApplyBinding(k, [s], endpoint)]);
            && InStep(one)
            && one.bindings == map[k := BindingState([s], endpoint)]
            && Claims(one.bindings) == {Claim(k, s)}
            && SubjectsAt(Claims(one.bindings), k.cluster) == {s}
            && (forall t, c :: Edge(one.graph, t, c) <==> t == s && c == k.cluster)
            && one.graph.endpoints == map[k.cluster := endpoint]
  {
    var e := ApplyBinding(k, [s], endpoint);
    RunInStep([e]);
    RunLast([], e);
    assert [] + [e] == [e];
    assert Claims(EMPTY_INDEX.bindings) == {};
    var b := Next(EMPTY_INDEX.bindings, e);
    assert Claim(k, s) in Claims(b);
    assert Claims(b) == {Claim(k, s)};
    assert SubjectsAt(Claims(b), k.cluster) == {s};
    assert s in Gained(EMPTY_INDEX.bindings, e);
    ClaimIsEdge(Run([e]), k, s);
  }

  /** The latest endpoint can lose: a second binding for a subject already counted does not announce its endpoint. */
  lemma LatestEndpointCanLose(k1: BindingKey, k2: BindingKey, s: Subject, old': string, new': string)
    requires k1 != k2 && k1.cluster == k2.cluster && old' != new'
    ensures var events := [ApplyBinding(k1, [s], old'), ApplyBinding(k2, [s], new')];
            k1.cluster in Run(events).graph.endpoints && Run(events).graph.endpoints[k1.cluster] == old'
  {
    var first, second := ApplyBinding(k1, [s], old'), ApplyBinding(k2, [s], new');
    OneApply(k1, s, old');
    RunLast([first], second);
    assert [first] + [second] == [first, second];
    CountedSubjectIsQuiet(Run([first]), second, s);
  }

  lemma CountedSubjectIsQuiet(i: IndexState, e: Event, s: Subject)
    requires e.ApplyBinding? && e.subjects == [s] && e.key !in i.bindings
    requires s in SubjectsAt(Claims(i.bindings), e.key.cluster)
    ensures Settle(i, e).graph.endpoints == i.graph.endpoints
  {
    forall x ensures x in Claims(Next(i.bindings, e)) <==> x in Claims(i.bindings) || x == Claim(e.key, s) {
    }
    assert Gained(i.bindings, e) == {};
    var x :| x in Claims(i.bindings) && x.key.cluster == e.key.cluster && x.subject == s;
    assert x.subject in SubjectsAt(Claims(Next(i.bindings, e)), e.key.cluster);
  }

  /** A known binding that comes back with another endpoint moves the cluster there, even when the same event drops the
      cluster's last old subject and brings in new ones. */
  lemma ReappliedEndpointWins(i: IndexState, e: Event)
    requires InStep(i) && e.ApplyBinding? && e.key in i.bindings && i.bindings[e.key].endpoint != e.endpoint
    requires SubjectsAt(Claims(Next(i.bindings, e)), e.key.cluster) != {}
    ensures e.key.cluster in Settle(i, e).graph.endpoints
    ensures Settle(i, e).graph.endpoints[e.key.cluster] == e.endpoint
  {
    ServedAtLatestIff(i, e);
  }

  /** Removing a binding right after its first apply restores bindings and access. The endpoint comes back too exactly
      when the cluster was unreachable before, the apply granted nothing new, or it brought the endpoint already
      served. */
  lemma RemovalUndoesApply(i: IndexState, e: Event)
    requires InStep(i) && e.ApplyBinding? && e.key !in i.bindings
    ensures var j := Settle(Settle(i, e), RemoveBinding(e.key));
            && j.bindings == i.bindings
            && j.graph.access == i.graph.access
            && (j == i <==> e.key.cluster !in i.graph.endpoints || Gained(i.bindings, e) == {}
                            || i.graph.endpoints[e.key.cluster] == e.endpoint)
  {
    UndoRestoresAccess(i, e);
    EndpointAfterUndo(i, e);
    MatchedReachers(i.graph, Claims(i.bindings), e.key.cluster);
  }

  /** The newer endpoint can stay after its binding is gone: the second binding brings a new subject and another
      endpoint, and its removal takes only the subject back. */
  lemma RemovalCanLeaveEndpoint(k1: BindingKey, k2: BindingKey, s1: Subject, s2: Subject, old': string, new': string)
    requires k1 != k2 && k1.cluster == k2.cluster && s1 != s2 && old' != new'
    ensures var first, second := ApplyBinding(k1, [s1], old'), ApplyBinding(k2, [s2], new');
            var end := Run([first, second, RemoveBinding(k2)]);
            && end.bindings == Run([first]).bindings && end.graph.access == Run([first]).graph.access
            && Run([first]).graph.endpoints == map[k1.cluster := old']
            && end.graph.endpoints == map[k1.cluster := new']
  {
    var first, second, undo := ApplyBinding(k1, [s1], old'), ApplyBinding(k2, [s2], new'), RemoveBinding(k2);
    OneApply(k1, s1, old');
    RunThree(first, second, undo);
    UndoneApplyLeavesEndpoint(Run([first]), second, s2);
  }

  lemma RunThree(e: Event, f: Event, h: Event)
    ensures Run([e, f, h]) == Settle(Settle(Run([e]), f), h)
  {
    assert [e] + [f] == [e, f] && [e, f] + [h] == [e, f, h];
    RunLast([e], f);
    RunLast([e, f], h);
  }

  lemma UndoneApplyLeavesEndpoint(i: IndexState, e: Event, s: Subject)
    requires InStep(i) && e.ApplyBinding? && e.key !in i.bindings && e.key.cluster in i.graph.endpoints
    requires s in e.subjects && s !in SubjectsAt(Claims(i.bindings), e.key.cluster)
    ensures var j := Settle(Settle(i, e), RemoveBinding(e.key));
            && j.bindings == i.bindings && j.graph.access == i.graph.access
            && j.graph.endpoints == i.graph.endpoints[e.key.cluster := e.endpoint]
  {
    UndoRestoresAccess(i, e);
    NewSubjectIsGained(i.bindings, e, s);
    EndpointAfterUndo(i, e);
  }

  lemma NewSubjectIsGained(b: Bindings, e: Event, s: Subject)
    requires e.ApplyBinding? && s in e.subjects && s !in SubjectsAt(Claims(b), e.key.cluster)
    ensures s in Gained(b, e)
  {
    assert Claim(e.key, s) in Claims(Next(b, e));
  }

  lemma UndoRestoresAccess(i: IndexState, e: Event)
    requires InStep(i) && e.ApplyBinding? && e.key !in i.bindings
    ensures Settle(Settle(i, e), RemoveBinding(e.key)).bindings == i.bindings
    ensures Settle(Settle(i, e), RemoveBinding(e.key)).graph.access == i.graph.access
  {
    TwoSteps("", i, e, RemoveBinding(e.key));
    assert Next(Next(i.bindings, e), RemoveBinding(e.key)) == i.bindings;
    SameBindingsSameAccess(Settle(Settle(i, e), RemoveBinding(e.key)), i);
  }

  lemma EndpointAfterUndo(i: IndexState, e: Event)
    requires InStep(i) && e.ApplyBinding? && e.key !in i.bindings
    ensures Settle(Settle(i, e), RemoveBinding(e.key)).graph.endpoints ==
            if e.key.cluster in i.graph.endpoints && Gained(i.bindings, e) != {}
            then i.graph.endpoints[e.key.cluster := e.endpoint] else i.graph.endpoints
  {
    var c, undo := e.key.cluster, RemoveBinding(e.key);
    var before, more := Claims(i.bindings), Claims(Next(i.bindings, e));
    MatchedReachers(i.graph, before, c);
    assert Next(Next(i.bindings, e), undo) == i.bindings;
    forall x | x in before ensures x in more {
    }
    if SubjectsAt(before, c) != {} {
      var s :| s in SubjectsAt(before, c);
      assert s in SubjectsAt(more, c);
      assert Settle(i, e).graph.endpoints
             == if Gained(i.bindings, e) != {} then i.graph.endpoints[c := e.endpoint] else i.graph.endpoints;
    }
  }
}
