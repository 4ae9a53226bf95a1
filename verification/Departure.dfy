/** What the workers leave in the end, exactly, in particular of a cluster that was dropped or forgotten; and runs in
    which that is not the world.
    Source: pkg/rbacprovider/multicluster.go. */
module Departure {
  import opened Wrappers
  import opened Rbac
  import opened GraphSpec
  import opened Endpoint
  import opened Index
  import opened Publish
  import opened History
  import opened Provider
  import opened Protocol
  import opened Convergence
  import opened Scenarios

  /** What becomes of an object's binding once the workers are done: a queued object that can still be read ends as it
      is in the world, otherwise as a waiting read found it, otherwise as it is stored. */
  ghost predicate Remains(s: System, id: ObjectId) {
    if id in Queued(s) then id in s.world
    else if id in s.inflight then s.inflight[id].Present?
    else KeyOf(id) in s.bindings
  }

  ghost function RemainingState(base: string, s: System, id: ObjectId): BindingState
    requires Remains(s, id)
  {
    if id in Queued(s) then StateFor(base, id, s.world[id])
    else if id in s.inflight then StateFor(base, id, s.inflight[id].subjects)
    else s.bindings[KeyOf(id)]
  }

  /** These bindings are those that remain. */
  ghost predicate AsRemains(base: string, s: System, b: Bindings) {
    && (forall id :: WellNamed(id) ==> (KeyOf(id) in b <==> Remains(s, id)))
    && (forall id :: WellNamed(id) && Remains(s, id) ==> b[KeyOf(id)] == RemainingState(base, s, id))
  }

  /** A binding that remains names the subject. */
  ghost predicate RemainsNaming(base: string, s: System, subject: Subject, c: Cluster) {
    exists id :: WellNamed(id) && id.cluster == c && Remains(s, id) && subject in RemainingState(base, s, id).subjects
  }

  ghost predicate SameRemains(base: string, s: System, t: System, id: ObjectId) {
    && (Remains(t, id) <==> Remains(s, id))
    && (Remains(s, id) ==> RemainingState(base, t, id) == RemainingState(base, s, id))
  }

  /** No piece of work changes what remains of an object. */
  lemma WorkKeepsRemains(base: string, s: System, step: Step, id: ObjectId)
    requires Members(s) && IsWork(step) && Enabled(base, s, step) && WellNamed(id)
    ensures SameRemains(base, s, After(base, s, step), id)
  {
    if step.Enter? {
      KeysCorrespond(id, step.id, KeyOf(id));
    }
  }

  lemma {:induction false} WorkRunKeepsRemains(base: string, states: seq<System>, steps: seq<Step>, n: nat,
                                               id: ObjectId)
    requires IsWorkRun(base, states, steps) && Inv(base, states[0]) && n < |states| && WellNamed(id)
    ensures SameRemains(base, states[0], states[n], id)
  {
    if n > 0 {
      WorkRunKeepsRemains(base, states, steps, n - 1, id);
      WorkRunKeeps(base, states, steps, n - 1);
      WorkKeepsRemains(base, states[n - 1], steps[n - 1], id);
    }
  }

  /** What the workers leave, whatever they do in whatever order and wherever they start: exactly the bindings that
      remain, each with the subjects that remain, and the graph showing these and no others. */
  lemma WorkLeavesWhatRemains(base: string, states: seq<System>, steps: seq<Step>)
    requires IsWorkRun(base, states, steps) && Inv(base, states[0]) && Quiet(states[|steps|])
    ensures var s, t := states[0], states[|steps|];
            && AsRemains(base, s, t.bindings)
            && (forall subject, c :: Edge(t.graph, subject, c) <==> RemainsNaming(base, s, subject, c))
  {
    var t := states[|steps|];
    WorkRunKeeps(base, states, steps, |steps|);
    forall id | WellNamed(id) ensures SameRemains(base, states[0], t, id) {
      WorkRunKeepsRemains(base, states, steps, |steps|, id);
    }
    forall subject, c ensures Edge(t.graph, subject, c) <==> RemainsNaming(base, states[0], subject, c) {
      RemainingEdge(base, states[0], c, t, subject);
    }
  }

  lemma RemainingEdge(base: string, s: System, c: Cluster, t: System, subject: Subject)
    requires Inv(base, t) && Quiet(t)
    requires forall id :: WellNamed(id) ==> SameRemains(base, s, t, id)
    ensures Edge(t.graph, subject, c) <==> RemainsNaming(base, s, subject, c)
  {
    var claims := Claims(t.bindings);
    assert Edge(t.graph, subject, c) <==> subject in SubjectsAt(claims, c);
    if subject in SubjectsAt(claims, c) {
      var x :| x in claims && x.key.cluster == c && x.subject == subject;
      var id := IdOf(x.key);
      KeysCorrespond(id, id, x.key);
      assert SameRemains(base, s, t, id);
      assert RemainsNaming(base, s, subject, c);
    }
    if RemainsNaming(base, s, subject, c) {
      var id :| WellNamed(id) && id.cluster == c && Remains(s, id) && subject in RemainingState(base, s, id).subjects;
      assert SameRemains(base, s, t, id);
      assert Claim(KeyOf(id), subject) in claims;
    }
  }

  /** So the order of the work is of no account: any two ways to finish it end with the same bindings and the same
      graph. */
  lemma WorkIsConfluent(base: string, states: seq<System>, steps: seq<Step>, others: seq<System>, otherSteps: seq<Step>)
    requires IsWorkRun(base, states, steps) && IsWorkRun(base, others, otherSteps)
    requires states[0] == others[0] && Inv(base, states[0])
    requires Quiet(states[|steps|]) && Quiet(others[|otherSteps|])
    ensures states[|steps|].bindings == others[|otherSteps|].bindings
    ensures states[|steps|].graph == others[|otherSteps|].graph
  {
    var t, u := states[|steps|], others[|otherSteps|];
    WorkRunKeeps(base, states, steps, |steps|);
    WorkRunKeeps(base, others, otherSteps, |otherSteps|);
    WorkLeavesWhatRemains(base, states, steps);
    WorkLeavesWhatRemains(base, others, otherSteps);
    RemainsDecideBindings(base, states[0], t.bindings, u.bindings);
    BindingsDecideGraph(base, t, u);
  }

  lemma RemainsDecideBindings(base: string, s: System, b: Bindings, d: Bindings)
    requires AsRemains(base, s, b) && AsRemains(base, s, d)
    ensures b == d
  {
    forall k ensures (k in b <==> k in d) && (k in b ==> b[k] == d[k]) {
      KeysCorrespond(IdOf(k), IdOf(k), k);
    }
  }

  lemma BindingsDecideGraph(base: string, t: System, u: System)
    requires GraphInv(base, t) && GraphInv(base, u) && t.section.None? && u.section.None? && t.bindings == u.bindings
    ensures t.graph == u.graph
  {
    EdgesDetermineAccess(t.graph, u.graph);
  }

  /** A cluster that is away is gone from the graph in the end, as it is from the world, if and only if none of the
      bindings that remain in it names anybody. Its queued keys are of no account. */
  lemma DepartedClusterKeeps(base: string, c: Cluster, states: seq<System>, steps: seq<Step>)
    requires IsWorkRun(base, states, steps) && Inv(base, states[0]) && c !in states[0].engaged
    requires Quiet(states[|steps|])
    ensures var s, t := states[0], states[|steps|];
            && (forall subject :: !WorldEntitles(t, subject, c))
            && ((forall subject :: Edge(t.graph, subject, c) <==> WorldEntitles(t, subject, c)) <==>
                forall subject :: !RemainsNaming(base, s, subject, c))
  {
    WorkRunKeeps(base, states, steps, |steps|);
    WorkLeavesWhatRemains(base, states, steps);
  }

  /** Some read of the cluster's objects that waits to be published found the subject named. */
  ghost predicate ReadNames(s: System, subject: Subject, c: Cluster) {
    exists id :: id in FoundReads(s, c) && subject in Resolved(s.inflight[id].subjects, KeyOf(id).namespace)
  }

  /** When the hook runs last, the reads that were waiting then and found their object are all that remains. */
  lemma HookLeavesFoundReads(base: string, s: System, c: Cluster, sched: Schedule, subject: Subject)
    requires Inv(base, s) && c !in s.engaged && Enabled(base, s, Hook(c, sched))
    ensures var t := After(base, s, Hook(c, sched));
            && (forall id :: WellNamed(id) && id.cluster == c ==> (Remains(t, id) <==> id in FoundReads(s, c)))
            && (RemainsNaming(base, t, subject, c) <==> ReadNames(s, subject, c))
  {
    var t := After(base, s, Hook(c, sched));
    forall id | WellNamed(id) && id.cluster == c ensures Remains(t, id) <==> id in FoundReads(s, c) {
    }
    forall id | id in FoundReads(s, c)
      ensures subject in RemainingState(base, t, id).subjects <==>
              subject in Resolved(s.inflight[id].subjects, KeyOf(id).namespace)
    {
      TranslationIsResolved(s.inflight[id].subjects, KeyOf(id).namespace);
    }
    assert forall id :: id in FoundReads(s, c) ==> WellNamed(id);
  }

  /** When the manager drops the cluster last, whatever was published since the hook ran remains besides, unless a
      waiting read found its object gone. */
  lemma DropLeavesIndexed(base: string, s: System, c: Cluster)
    requires Inv(base, s) && Enabled(base, s, Drop(c))
    ensures forall id :: WellNamed(id) && id.cluster == c ==>
              (Remains(After(base, s, Drop(c)), id) <==>
               id in FoundReads(s, c) || (KeyOf(id) in s.bindings && id !in s.inflight))
  {
  }

  /** Some object of the cluster that is queued or waits to be published names the subject. */
  ghost predicate StillComing(s: System, subject: Subject, c: Cluster) {
    exists id :: && id in s.world && id.cluster == c && (id in s.pending || id in s.inflight)
                 && subject in Resolved(s.world[id], KeyOf(id).namespace)
  }

  /** When the hook runs in a cluster that is still, or again, looked up, only what was queued or waiting then comes
      back. So however the workers finish, the cluster is as the world has it if and only if nobody is entitled to it
      by objects that were indexed already and by no others. */
  lemma EarlyHookHides(base: string, s: System, c: Cluster, sched: Schedule, states: seq<System>, steps: seq<Step>)
    requires Inv(base, s) && c in s.engaged && !Undermined(s, c) && Enabled(base, s, Hook(c, sched))
    requires forall id :: id in s.late ==> id.cluster != c
    requires IsWorkRun(base, states, steps) && states[0] == After(base, s, Hook(c, sched)) && Quiet(states[|steps|])
    ensures var t := states[|steps|];
            && (forall subject :: Edge(t.graph, subject, c) <==> StillComing(s, subject, c))
            && (forall subject :: WorldEntitles(t, subject, c) <==> WorldEntitles(s, subject, c))
            && ((forall subject :: Edge(t.graph, subject, c) <==> WorldEntitles(t, subject, c)) <==>
                forall subject :: WorldEntitles(s, subject, c) ==> StillComing(s, subject, c))
  {
    StepKeepsGraphInv(base, s, Hook(c, sched));
    StepKeepsKeysInv(base, s, Hook(c, sched));
    WorkRunKeeps(base, states, steps, |steps|);
    WorkLeavesWhatRemains(base, states, steps);
    forall subject ensures RemainsNaming(base, states[0], subject, c) <==> StillComing(s, subject, c) {
      EarlyHookKeepsComing(base, s, c, sched, subject);
    }
  }

  lemma EarlyHookKeepsComing(base: string, s: System, c: Cluster, sched: Schedule, subject: Subject)
    requires Inv(base, s) && c in s.engaged && !Undermined(s, c) && Enabled(base, s, Hook(c, sched))
    requires forall id :: id in s.late ==> id.cluster != c
    ensures RemainsNaming(base, After(base, s, Hook(c, sched)), subject, c) <==> StillComing(s, subject, c)
  {
    var t := After(base, s, Hook(c, sched));
    forall id | WellNamed(id) && id.cluster == c
      ensures Remains(t, id) <==> id in s.world && (id in s.pending || id in s.inflight)
      ensures Remains(t, id) ==> RemainingState(base, t, id) == StateFor(base, id, s.world[id])
    {
      assert Tracked(base, s, id);
    }
    if RemainsNaming(base, t, subject, c) {
      var id :| WellNamed(id) && id.cluster == c && Remains(t, id) && subject in RemainingState(base, t, id).subjects;
      TranslationIsResolved(s.world[id], KeyOf(id).namespace);
      assert StillComing(s, subject, c);
    }
    if StillComing(s, subject, c) {
      var id :| && id in s.world && id.cluster == c && (id in s.pending || id in s.inflight)
                && subject in Resolved(s.world[id], KeyOf(id).namespace);
      TranslationIsResolved(s.world[id], KeyOf(id).namespace);
      assert Remains(t, id);
    }
  }

  /** The one object of a cluster is indexed and the hook runs: the workers find nothing to do but to publish that. */
  lemma IndexedOneIsHidden(base: string, c: Cluster, name: string, user: string, states: seq<System>, steps: seq<Step>)
    requires var s := IndexedOne(base, c, name, RbacSubject(USER_KIND, user, ""), User(user));
             && Inv(base, s) && Enabled(base, s, Hook(c, Schedule([User(user)], [])))
             && IsWorkRun(base, states, steps) && states[0] == After(base, s, Hook(c, Schedule([User(user)], [])))
    requires Quiet(states[|steps|])
    ensures var t := states[|steps|]; !Edge(t.graph, User(user), c) && WorldEntitles(t, User(user), c)
  {
    var rs := RbacSubject(USER_KIND, user, "");
    var id, s := ClusterRoleBinding(c, name), IndexedOne(base, c, name, rs, User(user));
    EarlyHookHides(base, s, c, Schedule([User(user)], []), states, steps);
    assert !StillComing(s, User(user), c);
    assert rs in [rs] && TranslateSubject(rs, "") == Some(User(user));
    assert s.world[id] == [rs] && User(user) in Resolved(s.world[id], KeyOf(id).namespace);
    assert WorldEntitles(s, User(user), c);
  }

  /** A whole run of the kind, from the start to a quiet state whose graph lacks an edge of the world. */
  lemma HidingHappens(base: string, c: Cluster, name: string, user: string)
    returns (states: seq<System>, steps: seq<Step>)
    ensures IsRun(base, states, steps) && states[0] == START
    ensures var t := states[|steps|]; Quiet(t) && !Edge(t.graph, User(user), c) && WorldEntitles(t, User(user), c)
  {
    var rs, hook := RbacSubject(USER_KIND, user, ""), Hook(c, Schedule([User(user)], []));
    var opening := IndexedSteps(c, name, rs, User(user));
    var first := IndexedRun(base, c, name, rs, User(user));
    ForgettingOne(BindingKey(c, "", name), User(user), EndpointFor(base, c));
    var hooked := After(base, first[6], hook);
    RunsConcat(base, first, opening, [first[6], hooked], [hook]);
    var second, work := HiddenRun(base, c, name, user, first[..6] + [first[6], hooked], opening + [hook]);
    RunsConcat(base, first[..6] + [first[6], hooked], opening + [hook], second, work);
    states, steps := (first[..6] + [first[6], hooked])[..7] + second, opening + [hook] + work;
  }

  lemma HiddenRun(base: string, c: Cluster, name: string, user: string, first: seq<System>, opening: seq<Step>)
    returns (states: seq<System>, steps: seq<Step>)
    requires IsRun(base, first, opening) && |opening| == 7 && first[0] == START
    requires first[6] == IndexedOne(base, c, name, RbacSubject(USER_KIND, user, ""), User(user))
    requires opening[6] == Hook(c, Schedule([User(user)], []))
    ensures IsRun(base, states, steps) && states[0] == first[7]
    ensures var t := states[|steps|]; Quiet(t) && !Edge(t.graph, User(user), c) && WorldEntitles(t, User(user), c)
  {
    EveryRunKeepsInv(base, first, opening, 6);
    EveryRunKeepsInv(base, first, opening, 7);
    states, steps := WorkConverges(base, first[7]);
    IndexedOneIsHidden(base, c, name, user, states, steps);
  }

  /** The late publication itself: after its cluster was forgotten it brings the cluster back for its subjects. */
  lemma LateReadReturns(base: string, s: System, id: ObjectId, subject: Subject)
    requires Inv(base, s) && s.section.None?
    requires id in s.inflight && s.inflight[id].Present?
    requires subject in Resolved(s.inflight[id].subjects, KeyOf(id).namespace)
    ensures var forgotten := Settle(IndexState(s.bindings, s.graph), ForgetCluster(id.cluster));
            && !Edge(forgotten.graph, subject, id.cluster)
            && Edge(Settle(forgotten, EventFor(base, id, s.inflight[id])).graph, subject, id.cluster)
  {
    TranslationIsResolved(s.inflight[id].subjects, KeyOf(id).namespace);
    ForgottenUntilApplied(IndexState(s.bindings, s.graph), EventFor(base, id, s.inflight[id]), subject);
  }

  /** It happens: a cluster joins, an object is created, read, queued once more, and the cluster departs. */
  function OvertakingSteps(c: Cluster, name: string, user: string): seq<Step> {
    var id := ClusterRoleBinding(c, name);
    [Join(c), Put(id, [RbacSubject(USER_KIND, user, "")]), Begin(id), Resync(id), Drop(c), Hook(c, Schedule([], []))]
  }

  lemma OvertakingRun(base: string, c: Cluster, name: string, user: string) returns (states: seq<System>)
    ensures IsRun(base, states, OvertakingSteps(c, name, user)) && states[0] == START
    ensures ClusterRoleBinding(c, name) in states[5].pending && c !in states[5].engaged
    ensures ReadNames(states[5], User(user), c)
  {
    var id, steps := ClusterRoleBinding(c, name), OvertakingSteps(c, name, user);
    var rs := RbacSubject(USER_KIND, user, "");
    var joined := After(base, START, steps[0]);
    var put := After(base, joined, steps[1]);
    var read := After(base, put, steps[2]);
    var queued := After(base, read, steps[3]);
    var dropped := After(base, queued, steps[4]);
    NothingToForget(c);
    states := [START, joined, put, read, queued, dropped, After(base, dropped, steps[5])];
    assert dropped.inflight[id] == Present([rs]);
    assert id in FoundReads(dropped, c);
    assert rs in [rs] && TranslateSubject(rs, "") == Some(User(user));
  }

  lemma NothingToForget(c: Cluster)
    ensures LegalSchedule(map[], ForgetCluster(c), Schedule([], []))
  {
    assert Claims(map[]) == {};
    OnlyApplyGains(map[], ForgetCluster(c));
  }

  /** What the reads that were waiting name stays, although the world has nothing of the cluster. */
  lemma FoundReadsLeak(base: string, s: System, c: Cluster, sched: Schedule, subject: Subject,
                       states: seq<System>, steps: seq<Step>)
    requires Inv(base, s) && c !in s.engaged && Enabled(base, s, Hook(c, sched)) && ReadNames(s, subject, c)
    requires IsWorkRun(base, states, steps) && states[0] == After(base, s, Hook(c, sched)) && Quiet(states[|steps|])
    ensures Edge(states[|steps|].graph, subject, c) && !WorldEntitles(states[|steps|], subject, c)
  {
    StepKeepsGraphInv(base, s, Hook(c, sched));
    StepKeepsKeysInv(base, s, Hook(c, sched));
    HookLeavesFoundReads(base, s, c, sched, subject);
    WorkLeavesWhatRemains(base, states, steps);
    DepartedClusterKeeps(base, c, states, steps);
  }

  /** From there every way the workers can finish leaves the user with access to the departed cluster. */
  lemma OvertakenDepartureLeaks(base: string, c: Cluster, name: string, user: string, states: seq<System>,
                                workStates: seq<System>, work: seq<Step>)
    requires IsRun(base, states, OvertakingSteps(c, name, user)) && states[0] == START
    requires IsWorkRun(base, workStates, work) && workStates[0] == states[6] && Quiet(workStates[|work|])
    ensures Edge(workStates[|work|].graph, User(user), c) && !WorldEntitles(workStates[|work|], User(user), c)
  {
    var expected := OvertakingRun(base, c, name, user);
    SameSteps(base, states, expected, OvertakingSteps(c, name, user), 5);
    EveryRunKeepsInv(base, states, OvertakingSteps(c, name, user), 5);
    FoundReadsLeak(base, states[5], c, Schedule([], []), User(user), workStates, work);
  }

  /** A whole run of the kind, from the start to a quiet state whose graph is not the world. */
  lemma LeakHappens(base: string, c: Cluster, name: string, user: string)
    returns (states: seq<System>, steps: seq<Step>)
    ensures IsRun(base, states, steps) && states[0] == START
    ensures var t := states[|steps|]; Quiet(t) && Edge(t.graph, User(user), c) && !WorldEntitles(t, User(user), c)
  {
    var opening := OvertakingSteps(c, name, user);
    var first := OvertakingRun(base, c, name, user);
    EveryRunKeepsInv(base, first, opening, 6);
    var second, work := WorkConverges(base, first[6]);
    OvertakenDepartureLeaks(base, c, name, user, first, second, work);
    RunsConcat(base, first, opening, second, work);
    states, steps := first[..6] + second, opening + work;
  }
}
