/** The index at work: objects change, workers dequeue, read and publish, clusters come and go, and readers look at
    the graph at any moment. Source: pkg/rbacprovider/multicluster.go over pkg/rbacprovider/translator.go and
    pkg/graph/graph.go. A changed object's key is queued, and a key is not read again while a read of it waits to be
    published; the rest of the work queue is left out. Publishing happens one graph call at a time, inside the
    translator's lock. A cluster departs in two steps that may come in either order and at any time, also while reads
    of its objects wait to be published: the manager drops it, so that looking it up fails, and the lifecycle hook
    forgets it. */
module Protocol {
  import opened Wrappers
  import opened Rbac
  import opened GraphSpec
  import opened Endpoint
  import opened AccessGraph
  import opened Index
  import opened Publish
  import opened History
  import opened Provider

  /** An event being published: the index it started from, the order its loops run in, and the calls made so far. */
  datatype Section = Section(from: IndexState, event: Event, sched: Schedule, done: nat)

  datatype System = System(
    world: map<ObjectId, seq<RbacSubject>>,  // the objects of the engaged clusters
    engaged: set<Cluster>,
    pending: set<ObjectId>,                  // the work queue
    inflight: map<ObjectId, Observation>,    // read, not yet published
    halfway: set<Cluster>,                   // bookkeeping: clusters dropped and not forgotten, or the other way round
    late: set<ObjectId>,                     // bookkeeping: objects with a trace when their cluster was dropped
    bindings: Bindings,
    graph: GraphState,
    section: Option<Section>)                // the holder of the translator's lock

  datatype Step =
    | Put(id: ObjectId, subjects: seq<RbacSubject>)
    | Delete(id: ObjectId)
    | Resync(id: ObjectId)
    | Begin(id: ObjectId)
    | Fail(id: ObjectId)
    | Enter(id: ObjectId, sched: Schedule)
    | Emit
    | Leave
    | Join(cluster: Cluster)
    | Drop(cluster: Cluster)
    | Hook(cluster: Cluster, sched: Schedule)

  const START: System := System(map[], {}, {}, map[], {}, {}, map[], EMPTY_GRAPH, None)

  function Observe(world: map<ObjectId, seq<RbacSubject>>, id: ObjectId): Observation {
    if id in world then Present(world[id]) else Absent
  }

  function SectionCalls(section: Section): seq<GraphCall> {
    Calls(section.from.bindings, section.event, section.sched)
  }

  /** The reads of a cluster's objects that found the object and wait to be published. */
  function FoundReads(s: System, c: Cluster): set<ObjectId> {
    set id | id in s.inflight && id.cluster == c && s.inflight[id].Present?
  }

  ghost predicate Enabled(base: string, s: System, step: Step) {
    match step
    case Put(id, _) => WellNamed(id) && id.cluster in s.engaged
    case Delete(id) => id in s.world
    case Resync(id) => WellNamed(id) && id.cluster in s.engaged
    case Begin(id) => id in s.pending && id !in s.inflight && id.cluster in s.engaged
    case Fail(id) => id in s.inflight
    case Enter(id, sched) =>
      s.section.None? && id in s.inflight && LegalSchedule(s.bindings, EventFor(base, id, s.inflight[id]), sched)
    case Emit => s.section.Some? && s.section.value.done < |SectionCalls(s.section.value)|
    case Leave => s.section.Some? && s.section.value.done == |SectionCalls(s.section.value)|
    case Join(_) => true
    case Drop(c) => c in s.engaged
    case Hook(c, sched) => s.section.None? && LegalSchedule(s.bindings, ForgetCluster(c), sched)
  }

  /** Taking the translator's lock: the bindings change at once, the graph follows call by call. */
  function StartPublishing(s: System, e: Event, sched: Schedule): System {
    s.(bindings := Next(s.bindings, e), section := Some(Section(IndexState(s.bindings, s.graph), e, sched, 0)))
  }

  function After(base: string, s: System, step: Step): System
    requires Enabled(base, s, step)
  {
    match step
    case Put(id, subjects) => s.(world := s.world[id := subjects], pending := s.pending + {id})
    case Delete(id) => s.(world := s.world - {id}, pending := s.pending + {id})
    case Resync(id) => s.(pending := s.pending + {id})
    case Begin(id) =>
      s.(pending := s.pending - {id}, inflight := s.inflight[id := Observe(s.world, id)], late := s.late - {id})
    case Fail(id) =>
      s.(inflight := s.inflight - {id}, pending := s.pending + {id},
         late := if KeyOf(id) in s.bindings then s.late else s.late - {id})
    case Enter(id, sched) =>
      StartPublishing(s, EventFor(base, id, s.inflight[id]), sched)
      .(inflight := s.inflight - {id}, late := if s.inflight[id].Absent? then s.late - {id} else s.late)
    case Emit =>
      var section := s.section.value;
      s.(graph := Perform(s.graph, SectionCalls(section)[section.done]),
         section := Some(section.(done := section.done + 1)))
    case Leave => s.(section := None)
    case Join(c) => s.(engaged := s.engaged + {c})
    case Drop(c) =>
      // The objects go with the cluster; its queued keys find no cluster to read from, but its reads stay in flight.
      s.(engaged := s.engaged - {c},
         world := map id | id in s.world && id.cluster != c :: s.world[id],
         halfway := if c in s.halfway then s.halfway - {c} else s.halfway + {c},
         late := Elsewhere(s.late, c) + Traces(s, c))
    case Hook(c, sched) =>
      StartPublishing(s, ForgetCluster(c), sched)
      .(halfway := if c in s.engaged then s.halfway + {c} else s.halfway - {c},
        late := Elsewhere(s.late, c) + (s.late * FoundReads(s, c)))
  }

  function Elsewhere(ids: set<ObjectId>, c: Cluster): set<ObjectId> {
    set id | id in ids && id.cluster != c
  }

  /** What the index or a read still holds of the cluster's objects. */
  function Traces(s: System, c: Cluster): set<ObjectId> {
    FoundReads(s, c) + set k | k in s.bindings && k.cluster == c :: IdOf(k)
  }

  // ---- What every step keeps ----

  /** The binding stored for an object is the translation of the object. */
  ghost predicate Indexed(base: string, s: System, id: ObjectId) {
    if id in s.world then KeyOf(id) in s.bindings && s.bindings[KeyOf(id)] == StateFor(base, id, s.world[id])
    else KeyOf(id) !in s.bindings
  }

  /** Queued, or waiting to be published as it is now, or indexed as it is now. */
  ghost predicate Accounted(base: string, s: System, id: ObjectId) {
    || id in s.pending
    || (id in s.inflight && s.inflight[id] == Observe(s.world, id))
    || (id !in s.inflight && Indexed(base, s, id))
  }

  /** An object that is not late: accounted for, and without a trace while its cluster is away. */
  ghost predicate Regular(base: string, s: System, id: ObjectId) {
    && Accounted(base, s, id)
    && (id.cluster !in s.engaged ==> !HasTrace(s, id))
  }

  ghost predicate HasTrace(s: System, id: ObjectId) {
    KeyOf(id) in s.bindings || (id in s.inflight && s.inflight[id].Present?)
  }

  /** A late object: the index or a read still holds something of it; if the object is back, it is queued. */
  ghost predicate Outlived(s: System, id: ObjectId) {
    HasTrace(s, id) && (id in s.world ==> id in s.pending)
  }

  /** The lifecycle hook forgot a cluster that is still, or again, looked up and read. */
  predicate Undermined(s: System, c: Cluster) {
    c in s.engaged && c in s.halfway
  }

  ghost predicate Tracked(base: string, s: System, id: ObjectId) {
    Undermined(s, id.cluster) || (if id in s.late then Outlived(s, id) else Regular(base, s, id))
  }

  ghost predicate KnownSubjects(b: Bindings) {
    forall k, s :: k in b && s in b[k].subjects ==> KnownKind(s)
  }

  ghost predicate Members(s: System) {
    && (forall id :: id in s.world ==> WellNamed(id) && id.cluster in s.engaged)
    && (forall id :: id in s.pending ==> WellNamed(id))
    && (forall id :: id in s.inflight ==> WellNamed(id))
    && (forall id :: id in s.late ==> WellNamed(id))
    && KnownSubjects(s.bindings)
    && (s.section.Some? ==> KnownSubjects(s.section.value.from.bindings))
  }

  ghost predicate KeysInv(base: string, s: System) {
    Members(s) && forall id :: WellNamed(id) ==> Tracked(base, s, id)
  }

  /** The graph shows the bindings, or is part-way from the last bindings to these. */
  ghost predicate GraphInv(base: string, s: System) {
    && Served(base, s.graph)
    && match s.section
       case None => InStep(IndexState(s.bindings, s.graph))
       case Some(section) =>
         && InStep(section.from)
         && FromBase(base, section.event)
         && LegalSchedule(section.from.bindings, section.event, section.sched)
         && section.done <= |SectionCalls(section)|
         && s.graph == Replay(section.from.graph, SectionCalls(section)[..section.done])
         && s.bindings == Next(section.from.bindings, section.event)
  }

  ghost predicate Inv(base: string, s: System) {
    KeysInv(base, s) && GraphInv(base, s)
  }

  lemma PublishingKeepsGraphInv(base: string, s: System, e: Event, sched: Schedule)
    requires GraphInv(base, s) && s.section.None?
    requires FromBase(base, e) && LegalSchedule(s.bindings, e, sched)
    ensures GraphInv(base, StartPublishing(s, e, sched))
  {
    assert Calls(s.bindings, e, sched)[..0] == [];
  }

  /** Every endpoint an event hands to the graph is its cluster's own. */
  lemma CallServes(base: string, g: GraphState, b: Bindings, e: Event, sched: Schedule, n: nat)
    requires Served(base, g) && FromBase(base, e) && LegalSchedule(b, e, sched)
    requires n < |Calls(b, e, sched)|
    ensures Served(base, Perform(g, Calls(b, e, sched)[n]))
  {
    var call := Calls(b, e, sched)[n];
    if call.Grant? {
      MinimalDelta(b, e, sched);
      assert Grant(call.subject, call.cluster, call.endpoint) in Calls(b, e, sched);
      if call.cluster != EventCluster(e) {
        NextTouchesOneCluster(b, e, call.cluster);
        assert false;
      }
      if !e.ApplyBinding? {
        OnlyApplyGains(b, e);
        assert false;
      }
    }
  }

  lemma StepKeepsGraphInv(base: string, s: System, step: Step)
    requires GraphInv(base, s) && Enabled(base, s, step)
    ensures GraphInv(base, After(base, s, step))
  {
    match step
    case Enter(id, sched) =>
      PublishingKeepsGraphInv(base, s, EventFor(base, id, s.inflight[id]), sched);
    case Hook(c, sched) =>
      PublishingKeepsGraphInv(base, s, ForgetCluster(c), sched);
    case Emit =>
      EmitKeepsGraphInv(base, s);
    case Leave =>
      var section := s.section.value;
      assert SectionCalls(section)[..section.done] == SectionCalls(section);
      CallsSettle(section.from, section.event, section.sched);
    case _ =>
  }

  lemma EmitKeepsGraphInv(base: string, s: System)
    requires GraphInv(base, s) && Enabled(base, s, Emit)
    ensures GraphInv(base, After(base, s, Emit))
  {
    var section := s.section.value;
    var calls, n := SectionCalls(section), section.done;
    CallServes(base, s.graph, section.from.bindings, section.event, section.sched, n);
    assert calls[..n + 1][..n] == calls[..n] && calls[..n + 1][n] == calls[n];
  }

  lemma StepKeepsTracked(base: string, s: System, step: Step, id: ObjectId)
    requires KeysInv(base, s) && Enabled(base, s, step) && WellNamed(id)
    ensures Tracked(base, After(base, s, step), id)
  {
    assert Tracked(base, s, id);
    match step
    case Enter(other, sched) => EnterKeepsTracked(base, s, other, sched, id);
    case Drop(c) => DropKeepsTracked(base, s, c, id);
    case Hook(c, sched) => HookKeepsTracked(base, s, c, sched, id);
    case Begin(_) => ReadingKeepsTracked(base, s, step, id);
    case Fail(_) => ReadingKeepsTracked(base, s, step, id);
    case _ =>
  }

  lemma ReadingKeepsTracked(base: string, s: System, step: Step, id: ObjectId)
    requires KeysInv(base, s) && (step.Begin? || step.Fail?) && Enabled(base, s, step) && WellNamed(id)
    ensures Tracked(base, After(base, s, step), id)
  {
    assert Tracked(base, s, id);
  }

  lemma EnterKeepsTracked(base: string, s: System, other: ObjectId, sched: Schedule, id: ObjectId)
    requires KeysInv(base, s) && Enabled(base, s, Enter(other, sched)) && WellNamed(id)
    ensures Tracked(base, After(base, s, Enter(other, sched)), id)
  {
    assert Tracked(base, s, id);
    KeysCorrespond(id, other, KeyOf(id));
    var t := After(base, s, Enter(other, sched));
    if id != other {
      assert KeyOf(id) in t.bindings <==> KeyOf(id) in s.bindings;
    }
  }

  /** Dropping a cluster starts its objects afresh: late if they have a trace, regular if they have none. */
  lemma DropKeepsTracked(base: string, s: System, c: Cluster, id: ObjectId)
    requires KeysInv(base, s) && Enabled(base, s, Drop(c)) && WellNamed(id)
    ensures Tracked(base, After(base, s, Drop(c)), id)
  {
    assert Tracked(base, s, id);
    InTraces(s, c, id);
    var t := After(base, s, Drop(c));
    if id.cluster == c {
      assert id !in t.world;
      assert id in t.late <==> HasTrace(t, id);
    } else {
      assert id in t.late <==> id in s.late;
    }
  }

  lemma InTraces(s: System, c: Cluster, id: ObjectId)
    requires WellNamed(id)
    ensures id in Traces(s, c) <==> id.cluster == c && HasTrace(s, id)
  {
    KeysCorrespond(id, id, KeyOf(id));
    if id in Traces(s, c) && id !in FoundReads(s, c) {
      var k :| k in s.bindings && k.cluster == c && IdOf(k) == id;
      KeysCorrespond(id, id, k);
    }
  }

  lemma HookKeepsTracked(base: string, s: System, c: Cluster, sched: Schedule, id: ObjectId)
    requires KeysInv(base, s) && Enabled(base, s, Hook(c, sched)) && WellNamed(id)
    ensures Tracked(base, After(base, s, Hook(c, sched)), id)
  {
    assert Tracked(base, s, id);
    var t := After(base, s, Hook(c, sched));
    if id.cluster == c {
      assert KeyOf(id) !in t.bindings;
      assert id in t.late <==> id in s.late && id in FoundReads(s, c);
    } else {
      assert KeyOf(id) in t.bindings <==> KeyOf(id) in s.bindings;
      assert id in t.late <==> id in s.late;
    }
  }

  lemma StepKeepsMembers(base: string, s: System, step: Step)
    requires KeysInv(base, s) && Enabled(base, s, step)
    ensures Members(After(base, s, step))
  {
    match step
    case Enter(id, _) =>
      if s.inflight[id].Present? {
        TranslationKinds(s.inflight[id].subjects, KeyOf(id).namespace);
      }
    case Drop(c) =>
      forall id | id in Traces(s, c) ensures WellNamed(id) {
        if id !in FoundReads(s, c) {
          var k :| k in s.bindings && k.cluster == c && IdOf(k) == id;
          KeysCorrespond(id, id, k);
        }
      }
    case _ =>
  }

  lemma StepKeepsKeysInv(base: string, s: System, step: Step)
    requires KeysInv(base, s) && Enabled(base, s, step)
    ensures KeysInv(base, After(base, s, step))
  {
    StepKeepsMembers(base, s, step);
    forall id | WellNamed(id) ensures Tracked(base, After(base, s, step), id) {
      StepKeepsTracked(base, s, step, id);
    }
  }

  /** A sequence of enabled steps, with the states in between. */
  ghost predicate IsRun(base: string, states: seq<System>, steps: seq<Step>) {
    && |states| == |steps| + 1
    && forall n :: 0 <= n < |steps| ==>
       Enabled(base, states[n], steps[n]) && states[n + 1] == After(base, states[n], steps[n])
  }

  lemma {:induction false} RunKeepsInv(base: string, states: seq<System>, steps: seq<Step>, n: nat)
    requires IsRun(base, states, steps) && n < |states| && Inv(base, states[0])
    ensures Inv(base, states[n])
  {
    if n > 0 {
      RunKeepsInv(base, states, steps, n - 1);
      StepKeepsGraphInv(base, states[n - 1], steps[n - 1]);
      StepKeepsKeysInv(base, states[n - 1], steps[n - 1]);
    }
  }

  lemma StartHasInv(base: string)
    ensures Inv(base, START)
  {
    assert Claims(START.bindings) == {};
    forall id ensures Tracked(base, START, id) {
    }
  }

  /** The invariant holds in every state of every run from the start. */
  lemma EveryRunKeepsInv(base: string, states: seq<System>, steps: seq<Step>, n: nat)
    requires IsRun(base, states, steps) && states[0] == START && n < |states|
    ensures Inv(base, states[n])
  {
    StartHasInv(base);
    RunKeepsInv(base, states, steps, n);
  }

  // ---- Putting runs together ----

  lemma RunsConcat(base: string, first: seq<System>, opening: seq<Step>, second: seq<System>, rest: seq<Step>)
    requires IsRun(base, first, opening) && IsRun(base, second, rest) && second[0] == first[|opening|]
    ensures IsRun(base, first[..|opening|] + second, opening + rest)
  {
    var states, steps := first[..|opening|] + second, opening + rest;
    forall n | 0 <= n < |steps|
      ensures Enabled(base, states[n], steps[n]) && states[n + 1] == After(base, states[n], steps[n])
    {
      if n < |opening| {
        assert states[n] == first[n] && states[n + 1] == first[n + 1] && steps[n] == opening[n];
      } else {
        var m := n - |opening|;
        assert states[n] == second[m] && states[n + 1] == second[m + 1] && steps[n] == rest[m];
      }
    }
  }

  lemma {:induction false} SameSteps(base: string, states: seq<System>, others: seq<System>, steps: seq<Step>, n: nat)
    requires IsRun(base, states, steps) && IsRun(base, others, steps) && states[0] == others[0] && n < |states|
    ensures states[n] == others[n]
  {
    if n > 0 {
      SameSteps(base, states, others, steps, n - 1);
    }
  }

  // ---- A reconcile in steps ----

  /** The lookup or the read fails: the key is queued again, and nothing else changes. */
  lemma FailPublishesNothing(base: string, s: System, id: ObjectId)
    requires Enabled(base, s, Fail(id))
    ensures var t := After(base, s, Fail(id));
            && t.bindings == s.bindings && t.graph == s.graph && t.section == s.section && t.world == s.world
            && id in t.pending && t.inflight == s.inflight - {id}
  {
  }

  /** A read waits as it was made until it is published or fails. */
  lemma {:induction false} ReadWaits(base: string, states: seq<System>, steps: seq<Step>, l: nat, n: nat, id: ObjectId)
    requires IsRun(base, states, steps) && l < n < |states| && steps[l] == Begin(id)
    requires forall j :: l < j < n ==> steps[j] != Fail(id) && !(steps[j].Enter? && steps[j].id == id)
    ensures id in states[n].inflight && states[n].inflight[id] == Observe(states[l].world, id)
  {
    if n > l + 1 {
      ReadWaits(base, states, steps, l, n - 1, id);
      assert states[n] == After(base, states[n - 1], steps[n - 1]);
    }
  }

  lemma SectionStays(base: string, s: System, step: Step)
    requires Enabled(base, s, step) && s.section.Some? && !step.Leave?
    ensures var t := After(base, s, step);
            && t.section.Some?
            && t.section.value.from == s.section.value.from && t.section.value.event == s.section.value.event
  {
  }

  /** While a publication is in progress only its own calls are made: no other event gets in. */
  lemma {:induction false} SectionWaits(base: string, states: seq<System>, steps: seq<Step>, n: nat, m: nat)
    requires IsRun(base, states, steps) && n < m < |states| && steps[n].Enter?
    requires forall j :: n < j < m ==> !steps[j].Leave?
    ensures states[m].section.Some?
    ensures var section := states[m].section.value;
            && section.from == IndexState(states[n].bindings, states[n].graph)
            && section.event == EventFor(base, steps[n].id, states[n].inflight[steps[n].id])
  {
    if m > n + 1 {
      SectionWaits(base, states, steps, n, m - 1);
      SectionStays(base, states[m - 1], steps[m - 1]);
    } else {
      assert states[m] == After(base, states[n], steps[n]);
    }
  }

  /** A reconcile that does not fail settles its event: in any run, whatever else happens between its read, its taking
      the lock and its releasing it, the index moves from what it was when the lock was taken to that with the object
      as the world had it when it was read, applied if it was there and removed if it was not. */
  lemma ReconcileSettles(base: string, states: seq<System>, steps: seq<Step>, l: nat, n: nat, m: nat, id: ObjectId)
    requires IsRun(base, states, steps) && states[0] == START && l < n < m < |steps|
    requires steps[l] == Begin(id) && steps[n].Enter? && steps[n].id == id && steps[m].Leave?
    requires forall j :: l < j < n ==> steps[j] != Fail(id) && !(steps[j].Enter? && steps[j].id == id)
    requires forall j :: n < j < m ==> !steps[j].Leave?
    ensures var before := IndexState(states[n].bindings, states[n].graph);
            var after := IndexState(states[m + 1].bindings, states[m + 1].graph);
            var namespace := if id.RoleBinding? then id.namespace else "";
            if id in states[l].world
            then after == Settle(before, ApplyBinding(KeyOf(id), Translation(states[l].world[id], namespace),
                                                      EndpointFor(base, id.cluster)))
            else after == Settle(before, RemoveBinding(KeyOf(id)))
  {
    ReadWaits(base, states, steps, l, n, id);
    SectionWaits(base, states, steps, n, m);
    EveryRunKeepsInv(base, states, steps, m);
    var section := states[m].section.value;
    assert Enabled(base, states[m], steps[m]) && states[m + 1] == After(base, states[m], steps[m]);
    assert SectionCalls(section)[..section.done] == SectionCalls(section);
    CallsSettle(section.from, section.event, section.sched);
  }

  // ---- What readers can rely on ----

  /** The claims a reader may find applied: those of the bindings, and during a publication those it replaces. */
  function OldClaims(s: System): set<Claim> {
    Claims(if s.section.Some? then s.section.value.from.bindings else s.bindings)
  }

  /** At every moment of every run the graph is well formed, serves each reachable cluster at its own URL, and shows
      every edge that the bindings before and after the publication in progress agree on, and no edge foreign
      to both. */
  lemma ReadersSeeNoFlicker(base: string, states: seq<System>, steps: seq<Step>, n: nat)
    requires IsRun(base, states, steps) && states[0] == START && n < |states|
    ensures var s := states[n];
            && WellFormed(s.graph)
            && Between(OldClaims(s), Claims(s.bindings), s.graph)
            && (forall c :: c in s.graph.endpoints ==> s.graph.endpoints[c] == EndpointFor(base, c))
  {
    EveryRunKeepsInv(base, states, steps, n);
    InvShowsNoFlicker(base, states[n]);
  }

  lemma InvShowsNoFlicker(base: string, s: System)
    requires Inv(base, s)
    ensures WellFormed(s.graph) && Between(OldClaims(s), Claims(s.bindings), s.graph)
  {
    if s.section.Some? {
      var section := s.section.value;
      NoFlicker(section.from, section.event, section.sched, section.done);
    }
  }

  /** At every moment of every run the graph holds users and groups only, so a snapshot of it loses nothing. */
  lemma IndexedSubjectsAreKnown(base: string, states: seq<System>, steps: seq<Step>, n: nat)
    requires IsRun(base, states, steps) && states[0] == START && n < |states|
    ensures KnownKinds(states[n].graph)
  {
    EveryRunKeepsInv(base, states, steps, n);
    InvKnowsSubjects(base, states[n]);
  }

  lemma InvKnowsSubjects(base: string, s: System)
    requires Inv(base, s)
    ensures KnownKinds(s.graph)
  {
    InvShowsNoFlicker(base, s);
    forall subject | subject in s.graph.access ensures KnownKind(subject) {
      var c :| c in s.graph.access[subject];
      assert Edge(s.graph, subject, c);
      assert subject in SubjectsAt(OldClaims(s), c) || subject in SubjectsAt(Claims(s.bindings), c);
    }
  }

  /** An object that is indexed, not queued and not being re-published, in a cluster the hook has not forgotten too
      early, keeps its subjects visible, whatever else is being published at that moment. */
  lemma SettledAccessStaysVisible(base: string, states: seq<System>, steps: seq<Step>, n: nat, id: ObjectId,
                                  subject: Subject)
    requires IsRun(base, states, steps) && states[0] == START && n < |states|
    requires id in states[n].world && id !in states[n].pending && id !in states[n].inflight
    requires !Undermined(states[n], id.cluster)
    requires states[n].section.Some? ==> !Touches(states[n].section.value.event, KeyOf(id))
    requires subject in Resolved(states[n].world[id], KeyOf(id).namespace)
    ensures Edge(states[n].graph, subject, id.cluster)
  {
    EveryRunKeepsInv(base, states, steps, n);
    InvShowsNoFlicker(base, states[n]);
    ClaimedThroughout(base, states[n], id, subject);
  }

  lemma ClaimedThroughout(base: string, s: System, id: ObjectId, subject: Subject)
    requires Inv(base, s)
    requires id in s.world && id !in s.pending && id !in s.inflight
    requires !Undermined(s, id.cluster)
    requires s.section.Some? ==> !Touches(s.section.value.event, KeyOf(id))
    requires subject in Resolved(s.world[id], KeyOf(id).namespace)
    ensures subject in SubjectsAt(Claims(s.bindings), id.cluster)
    ensures subject in SubjectsAt(OldClaims(s), id.cluster)
  {
    assert Tracked(base, s, id);
    TranslationIsResolved(s.world[id], KeyOf(id).namespace);
    assert Claim(KeyOf(id), subject) in Claims(s.bindings);
    if s.section.Some? {
      UntouchedSurvives(s.section.value.from.bindings, s.section.value.event, KeyOf(id), subject);
    }
  }

  lemma UntouchedSurvives(b: Bindings, e: Event, k: BindingKey, subject: Subject)
    requires !Touches(e, k)
    ensures Claim(k, subject) in Claims(Next(b, e)) <==> Claim(k, subject) in Claims(b)
  {
    assert e.ForgetCluster? || Touches(e, e.key);
  }
}
