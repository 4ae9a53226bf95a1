/** What the index of applied bindings means, and what an event may do to the graph.
    Source: pkg/rbacprovider/translator.go. */
module Index {
  import opened Rbac
  import opened GraphSpec

  datatype BindingKey = BindingKey(cluster: Cluster, namespace: string, name: string)
  datatype BindingState = BindingState(subjects: seq<Subject>, endpoint: string)
  type Bindings = map<BindingKey, BindingState>
  type Refs = map<Subject, map<Cluster, set<BindingKey>>>

  /** One binding naming one subject. The claims are all that access depends on. */
  datatype Claim = Claim(key: BindingKey, subject: Subject)

  function Claims(b: Bindings): set<Claim> {
    set k, s | k in b && s in b[k].subjects :: Claim(k, s)
  }

  /** The subjects some claim in the cluster names: who ought to reach it. */
  function SubjectsAt(claims: set<Claim>, c: Cluster): set<Subject> {
    set x | x in claims && x.key.cluster == c :: x.subject
  }

  function KeysNaming(claims: set<Claim>, s: Subject, c: Cluster): set<BindingKey> {
    set x | x in claims && x.key.cluster == c && x.subject == s :: x.key
  }

  function SubjectsIn(subjects: seq<Subject>): set<Subject> {
    set s | s in subjects
  }

  function ClaimsOf(key: BindingKey, subjects: set<Subject>): set<Claim> {
    set s | s in subjects :: Claim(key, s)
  }

  /** The reference sets hold the naming keys, and no empty inner map or set is kept. */
  ghost predicate RefsMatch(refs: Refs, claims: set<Claim>) {
    && (forall s :: s in refs ==> refs[s] != map[])
    && (forall s, c :: s in refs && c in refs[s] ==> refs[s][c] != {})
    && (forall s, c :: RefsTo(refs, s, c) == KeysNaming(claims, s, c))
  }

  function RefsTo(refs: Refs, s: Subject, c: Cluster): set<BindingKey> {
    if s in refs && c in refs[s] then refs[s][c] else {}
  }

  /** The graph shows an edge exactly where some claim asks for one. */
  ghost predicate GraphMatch(g: GraphState, claims: set<Claim>) {
    forall s, c :: Edge(g, s, c) <==> s in SubjectsAt(claims, c)
  }

  /** What can happen to a translator. */
  datatype Event =
    | ApplyBinding(key: BindingKey, subjects: seq<Subject>, endpoint: string)
    | RemoveBinding(key: BindingKey)
    | ForgetCluster(cluster: Cluster)

  function EventCluster(e: Event): Cluster {
    if e.ForgetCluster? then e.cluster else e.key.cluster
  }

  /** The bindings an event leaves applied. */
  function Next(b: Bindings, e: Event): Bindings {
    match e
    case ApplyBinding(key, subjects, endpoint) => b[key := BindingState(subjects, endpoint)]
    case RemoveBinding(key) => b - {key}
    case ForgetCluster(c) => map k | k in b && k.cluster != c :: b[k]
  }

  /** Subjects whose last claim in the event's cluster goes away. */
  function Lost(b: Bindings, e: Event): set<Subject> {
    SubjectsAt(Claims(b), EventCluster(e)) - SubjectsAt(Claims(Next(b, e)), EventCluster(e))
  }

  /** Subjects that get their first claim in the event's cluster. */
  function Gained(b: Bindings, e: Event): set<Subject> {
    SubjectsAt(Claims(Next(b, e)), EventCluster(e)) - SubjectsAt(Claims(b), EventCluster(e))
  }

  ghost predicate Enumerates(list: seq<Subject>, subjects: set<Subject>) {
    NoDuplicates(list) && forall s :: s in list <==> s in subjects
  }

  /** The orders in which the loops of one event meet the subjects; map iteration leaves them open. */
  datatype Schedule = Schedule(revokes: seq<Subject>, grants: seq<Subject>)

  ghost predicate LegalSchedule(b: Bindings, e: Event, sched: Schedule) {
    Enumerates(sched.revokes, Lost(b, e)) && Enumerates(sched.grants, Gained(b, e))
  }

  function RevokeCalls(subjects: seq<Subject>, c: Cluster): seq<GraphCall> {
    seq(|subjects|, i requires 0 <= i < |subjects| => Revoke(subjects[i], c))
  }

  function GrantCalls(subjects: seq<Subject>, c: Cluster, endpoint: string): seq<GraphCall> {
    seq(|subjects|, i requires 0 <= i < |subjects| => Grant(subjects[i], c, endpoint))
  }

  /** A re-applied binding announces its endpoint when it changed; a cluster that left is finally forgotten. */
  function ClosingCalls(b: Bindings, e: Event): seq<GraphCall> {
    match e
    case ApplyBinding(key, _, endpoint) =>
      if key in b && b[key].endpoint != endpoint then [SetEndpoint(key.cluster, endpoint)] else []
    case RemoveBinding(_) => []
    case ForgetCluster(c) => [Forget(c)]
  }

  function EventEndpoint(e: Event): string {
    if e.ApplyBinding? then e.endpoint else ""
  }

  /** The graph calls of one event, in order: lost edges, gained edges, then the closing call. */
  function Calls(b: Bindings, e: Event, sched: Schedule): seq<GraphCall> {
    RevokeCalls(sched.revokes, EventCluster(e))
    + GrantCalls(sched.grants, EventCluster(e), EventEndpoint(e))
    + ClosingCalls(b, e)
  }

  // ---- Claims and events ----

  lemma NothingToEnumerate(list: seq<Subject>)
    requires Enumerates(list, {})
    ensures list == []
  {
    FirstIsListed(list);
  }

  lemma FirstIsListed(list: seq<Subject>)
    ensures list == [] || list[0] in list
  {
  }

  lemma NextTouchesOneCluster(b: Bindings, e: Event, c: Cluster)
    requires c != EventCluster(e)
    ensures SubjectsAt(Claims(Next(b, e)), c) == SubjectsAt(Claims(b), c)
  {
    forall x: Claim | x.key.cluster == c
      ensures x in Claims(Next(b, e)) <==> x in Claims(b)
    {
    }
  }

  lemma OnlyApplyGains(b: Bindings, e: Event)
    requires !e.ApplyBinding?
    ensures Gained(b, e) == {}
    ensures e.ForgetCluster? ==> SubjectsAt(Claims(Next(b, e)), e.cluster) == {}
  {
    forall x | x in Claims(Next(b, e)) ensures x in Claims(b) && (e.ForgetCluster? ==> x.key.cluster != e.cluster) {
    }
  }

  // ---- Determinacy of the reference sets ----

  /** The reference sets are a function of the claims: there is one way to store them without empty leftovers. */
  lemma RefsAreDetermined(refs: Refs, other: Refs, claims: set<Claim>)
    requires RefsMatch(refs, claims) && RefsMatch(other, claims)
    ensures refs == other
  {
    RefsIncluded(refs, other, claims);
    RefsIncluded(other, refs, claims);
    forall s | s in refs ensures refs[s] == other[s] {
      assert refs[s].Keys == other[s].Keys;
    }
  }

  lemma RefsIncluded(refs: Refs, other: Refs, claims: set<Claim>)
    requires RefsMatch(refs, claims) && RefsMatch(other, claims)
    ensures forall s :: s in refs ==> s in other
    ensures forall s, c :: s in refs && c in refs[s] ==> s in other && c in other[s] && refs[s][c] == other[s][c]
  {
    forall s, c | s in refs && c in refs[s]
      ensures s in other && c in other[s] && refs[s][c] == other[s][c]
    {
      assert RefsTo(refs, s, c) == RefsTo(other, s, c) != {};
    }
    forall s | s in refs ensures s in other {
      var c :| c in refs[s];
      assert c in refs[s];
    }
  }

  /** An edge is wanted exactly when its reference set is not empty. */
  lemma EdgeIffReferenced(claims: set<Claim>, s: Subject, c: Cluster)
    ensures s in SubjectsAt(claims, c) <==> KeysNaming(claims, s, c) != {}
  {
    if s in SubjectsAt(claims, c) {
      var x :| x in claims && x.key.cluster == c && x.subject == s;
      assert x.key in KeysNaming(claims, s, c);
    }
  }
}
