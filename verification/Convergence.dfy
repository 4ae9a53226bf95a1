/** What the workers reach: when they are done the graph shows the world, and they come to be done.
    Source: pkg/rbacprovider/multicluster.go. */
module Convergence {
  import opened Wrappers
  import opened Rbac
  import opened GraphSpec
  import opened Endpoint
  import opened Index
  import opened History
  import opened Provider
  import opened Protocol

  /** The workers have nothing left to do: nothing is queued in a cluster they can look up, nothing waits to be
      published, nothing is being published. */
  ghost predicate Quiet(s: System) {
    && s.section.None?
    && s.inflight == map[]
    && forall id :: id in s.pending ==> id.cluster !in s.engaged
  }

  /** Some object of the world grants the subject access to the cluster. */
  ghost predicate WorldEntitles(s: System, subject: Subject, c: Cluster) {
    exists id :: id in s.world && id.cluster == c && subject in Resolved(s.world[id], KeyOf(id).namespace)
  }

  /** In words: a ClusterRoleBinding or a RoleBinding in the cluster has a subject that denotes the identity, an account
      without a namespace being one of the RoleBinding's. */
  ghost predicate WorldNames(s: System, subject: Subject, c: Cluster) {
    || (exists name, rs :: && ClusterRoleBinding(c, name) in s.world
                           && rs in s.world[ClusterRoleBinding(c, name)] && Denotes(rs, "", subject))
    || (exists namespace, name, rs :: && RoleBinding(c, namespace, name) in s.world
                                      && rs in s.world[RoleBinding(c, namespace, name)]
                                      && Denotes(rs, namespace, subject))
  }

  lemma WorldEntitlesIff(s: System, subject: Subject, c: Cluster)
    ensures WorldEntitles(s, subject, c) <==> WorldNames(s, subject, c)
  {
    if WorldEntitles(s, subject, c) {
      var id :| id in s.world && id.cluster == c && subject in Resolved(s.world[id], KeyOf(id).namespace);
      ResolvedAreDenoted(s.world[id], KeyOf(id).namespace);
      var rs :| rs in s.world[id] && Denotes(rs, KeyOf(id).namespace, subject);
      match id {
        case ClusterRoleBinding(_, name) => assert rs in s.world[ClusterRoleBinding(c, name)];
        case RoleBinding(_, namespace, name) => assert rs in s.world[RoleBinding(c, namespace, name)];
      }
    }
    if name, rs :|
      && ClusterRoleBinding(c, name) in s.world && rs in s.world[ClusterRoleBinding(c, name)]
      && Denotes(rs, "", subject)
    {
      ResolvedAreDenoted(s.world[ClusterRoleBinding(c, name)], "");
      assert ClusterRoleBinding(c, name).cluster == c;
    }
    if namespace, name, rs :|
      && RoleBinding(c, namespace, name) in s.world && rs in s.world[RoleBinding(c, namespace, name)]
      && Denotes(rs, namespace, subject)
    {
      ResolvedAreDenoted(s.world[RoleBinding(c, namespace, name)], namespace);
      assert RoleBinding(c, namespace, name).cluster == c;
    }
  }

  /** A binding that a late object left behind names the subject. */
  ghost predicate LeftBehind(s: System, subject: Subject, c: Cluster) {
    exists id :: id in s.late && id.cluster == c && Claim(KeyOf(id), subject) in Claims(s.bindings)
  }

  /** Once the queue has drained, every object is indexed as it is, and the only other bindings are those of late
      objects. */
  lemma QuietIsIndexed(base: string, s: System, id: ObjectId)
    requires Inv(base, s) && Quiet(s) && WellNamed(id) && !Undermined(s, id.cluster)
    ensures if id in s.late then id !in s.world && KeyOf(id) in s.bindings else Indexed(base, s, id)
  {
    assert Tracked(base, s, id);
  }

  /** Once the queue has drained, the graph is the world and what late objects left behind: an edge for each of their
      entitlements and no other. No cluster is excepted but one the hook forgot too early, before it was dropped. */
  lemma QuietGraphIsTheWorld(base: string, s: System)
    requires Inv(base, s) && Quiet(s)
    ensures forall subject, c :: !Undermined(s, c) ==>
              (Edge(s.graph, subject, c) <==> WorldEntitles(s, subject, c) || LeftBehind(s, subject, c))
    ensures s.late == {} && s.halfway == {} ==>
              forall subject, c :: Edge(s.graph, subject, c) <==> WorldEntitles(s, subject, c)
    ensures forall c :: c in s.graph.endpoints <==> exists subject :: Edge(s.graph, subject, c)
    ensures forall c :: c in s.graph.endpoints ==> s.graph.endpoints[c] == EndpointFor(base, c)
  {
    forall subject, c | !Undermined(s, c)
      ensures Edge(s.graph, subject, c) <==> WorldEntitles(s, subject, c) || LeftBehind(s, subject, c)
    {
      QuietEdge(base, s, subject, c);
    }
    forall c ensures c in s.graph.endpoints <==> exists subject :: Edge(s.graph, subject, c) {
      if c in s.graph.endpoints {
        var subject :| subject in Reachers(s.graph, c);
        assert Edge(s.graph, subject, c);
      }
      if exists subject :: Edge(s.graph, subject, c) {
        var subject :| Edge(s.graph, subject, c);
        assert subject in Reachers(s.graph, c);
      }
    }
  }

  lemma QuietEdge(base: string, s: System, subject: Subject, c: Cluster)
    requires Inv(base, s) && Quiet(s) && !Undermined(s, c)
    ensures Edge(s.graph, subject, c) <==> WorldEntitles(s, subject, c) || LeftBehind(s, subject, c)
  {
    var claims := Claims(s.bindings);
    assert Edge(s.graph, subject, c) <==> subject in SubjectsAt(claims, c);
    if subject in SubjectsAt(claims, c) {
      var x :| x in claims && x.key.cluster == c && x.subject == subject;
      var id := IdOf(x.key);
      KeysCorrespond(id, id, x.key);
      QuietIsIndexed(base, s, id);
      if id in s.late {
        assert LeftBehind(s, subject, c);
      } else {
        TranslationIsResolved(s.world[id], KeyOf(id).namespace);
        assert WorldEntitles(s, subject, c);
      }
    }
    if WorldEntitles(s, subject, c) {
      var id :| id in s.world && id.cluster == c && subject in Resolved(s.world[id], KeyOf(id).namespace);
      QuietIsIndexed(base, s, id);
      TranslationIsResolved(s.world[id], KeyOf(id).namespace);
      assert Claim(KeyOf(id), subject) in claims;
    }
  }

  /** The second of the two steps by which the cluster departs. */
  predicate Completes(s: System, step: Step, c: Cluster) {
    (step.Hook? && step.cluster == c && c !in s.engaged) || (step.Drop? && step.cluster == c && c in s.halfway)
  }

  /** If the step completes a departure, no trace of the cluster is left waiting or indexed. */
  ghost predicate CalmAt(s: System, step: Step, t: System) {
    forall c, id :: Completes(s, step, c) && id in t.late ==> id.cluster != c
  }

  ghost predicate Calm(states: seq<System>, steps: seq<Step>) {
    |states| == |steps| + 1 && forall n :: 0 <= n < |steps| ==> CalmAt(states[n], steps[n], states[n + 1])
  }

  ghost predicate FewLate(s: System) {
    forall id :: id in s.late ==> id.cluster in s.halfway
  }

  /** In such runs only clusters half-way through a departure have late objects. */
  lemma {:induction false} CalmRunsHaveFewLate(base: string, states: seq<System>, steps: seq<Step>, n: nat)
    requires IsRun(base, states, steps) && Calm(states, steps) && states[0].late == {} && n < |states|
    ensures FewLate(states[n])
  {
    if n > 0 {
      CalmRunsHaveFewLate(base, states, steps, n - 1);
      assert CalmAt(states[n - 1], steps[n - 1], states[n - 1 + 1]);
      assert states[n - 1 + 1] == After(base, states[n - 1], steps[n - 1]);
      CalmStep(base, states[n - 1], steps[n - 1]);
    }
  }

  lemma CalmStep(base: string, s: System, step: Step)
    requires Enabled(base, s, step) && FewLate(s) && CalmAt(s, step, After(base, s, step))
    ensures FewLate(After(base, s, step))
  {
    var t := After(base, s, step);
    forall id | id in t.late ensures id.cluster in t.halfway {
      assert !Completes(s, step, id.cluster);
    }
  }

  /** So when all departures are complete and the workers are done, the graph is the world. */
  lemma CalmRunsConverge(base: string, states: seq<System>, steps: seq<Step>)
    requires IsRun(base, states, steps) && states[0] == START && Calm(states, steps)
    requires Quiet(states[|steps|]) && states[|steps|].halfway == {}
    ensures var t := states[|steps|]; forall subject, c :: Edge(t.graph, subject, c) <==> WorldEntitles(t, subject, c)
  {
    EveryRunKeepsInv(base, states, steps, |steps|);
    CalmRunsHaveFewLate(base, states, steps, |steps|);
    assert states[|steps|].late == {};
    QuietGraphIsTheWorld(base, states[|steps|]);
  }

  // ---- Progress ----

  predicate IsWork(step: Step) {
    step.Begin? || step.Enter? || step.Emit? || step.Leave?
  }

  /** A run of worker steps only: nobody changes the world, no read fails, no cluster comes or goes. */
  ghost predicate IsWorkRun(base: string, states: seq<System>, steps: seq<Step>) {
    IsRun(base, states, steps) && forall n :: 0 <= n < |steps| ==> IsWork(steps[n])
  }

  function Queued(s: System): set<ObjectId> {
    set id | id in s.pending && id.cluster in s.engaged
  }

  /** Reads and publications still owed. */
  function Backlog(s: System): nat {
    2 * |Queued(s)| + |s.inflight.Keys|
  }

  /** Graph calls still owed by the publication in progress, and its end. */
  function CallsLeft(s: System): int {
    match s.section
    case None => 0
    case Some(section) => |SectionCalls(section)| - section.done + 1
  }

  /** A system that is not quiet has work to do. */
  lemma WorkMakesProgress(base: string, s: System) returns (step: Step)
    requires Inv(base, s) && !Quiet(s)
    ensures IsWork(step) && Enabled(base, s, step)
  {
    if s.section.Some? {
      var section := s.section.value;
      step := if section.done < |SectionCalls(section)| then Emit else Leave;
    } else if s.inflight != map[] {
      var id :| id in s.inflight;
      var e := EventFor(base, id, s.inflight[id]);
      var rs := SomeOrder(Lost(s.bindings, e));
      var gs := SomeOrder(Gained(s.bindings, e));
      step := Enter(id, Schedule(rs, gs));
    } else {
      var id :| id in s.pending && id.cluster in s.engaged;
      step := Begin(id);
    }
  }

  /** Every piece of work, whichever worker does it, leaves the world alone and shrinks what is owed. */
  lemma WorkShrinks(base: string, s: System, step: Step)
    requires Inv(base, s) && IsWork(step) && Enabled(base, s, step)
    ensures var t := After(base, s, step);
            && t.world == s.world && t.engaged == s.engaged && t.halfway == s.halfway && t.late <= s.late
            && CallsLeft(t) >= 0
            && (Backlog(t) < Backlog(s) || (Backlog(t) == Backlog(s) && CallsLeft(t) < CallsLeft(s)))
  {
    match step
    case Begin(id) => BeginShrinks(base, s, id);
    case Enter(id, sched) => EnterShrinks(base, s, id, sched);
    case _ =>
  }

  lemma BeginShrinks(base: string, s: System, id: ObjectId)
    requires Enabled(base, s, Begin(id))
    ensures Backlog(After(base, s, Begin(id))) == Backlog(s) - 1
  {
    var t := After(base, s, Begin(id));
    OneLess(Queued(s), Queued(t), id);
    OneLess(t.inflight.Keys, s.inflight.Keys, id);
  }

  lemma OneLess(ids: set<ObjectId>, less: set<ObjectId>, id: ObjectId)
    requires id in ids && forall other :: other in less <==> other in ids && other != id
    ensures |less| == |ids| - 1
  {
    assert less == ids - {id};
  }

  lemma EnterShrinks(base: string, s: System, id: ObjectId, sched: Schedule)
    requires Enabled(base, s, Enter(id, sched))
    ensures Backlog(After(base, s, Enter(id, sched))) == Backlog(s) - 1
  {
    var t := After(base, s, Enter(id, sched));
    assert Queued(t) == Queued(s);
    OneLess(s.inflight.Keys, t.inflight.Keys, id);
  }

  lemma {:induction false} WorkRunKeeps(base: string, states: seq<System>, steps: seq<Step>, n: nat)
    requires IsWorkRun(base, states, steps) && Inv(base, states[0]) && n < |states|
    ensures Inv(base, states[n])
    ensures states[n].world == states[0].world && states[n].engaged == states[0].engaged
    ensures states[n].halfway == states[0].halfway && states[n].late <= states[0].late
  {
    RunKeepsInv(base, states, steps, n);
    if n > 0 {
      WorkRunKeeps(base, states, steps, n - 1);
      WorkShrinks(base, states[n - 1], steps[n - 1]);
    }
  }

  /** A work run that cannot be extended ends quiet, with the world it began with and the graph showing it. */
  lemma StuckWorkIsDone(base: string, states: seq<System>, steps: seq<Step>)
    requires IsWorkRun(base, states, steps) && Inv(base, states[0])
    requires forall step :: IsWork(step) ==> !Enabled(base, states[|steps|], step)
    ensures var t := states[|steps|];
            && Quiet(t) && t.world == states[0].world
            && (forall subject, c :: !Undermined(t, c) ==>
                  (Edge(t.graph, subject, c) <==> WorldEntitles(states[0], subject, c) || LeftBehind(t, subject, c)))
            && (states[0].late == {} && states[0].halfway == {} ==>
                  forall subject, c :: Edge(t.graph, subject, c) <==> WorldEntitles(states[0], subject, c))
  {
    var t := states[|steps|];
    WorkRunKeeps(base, states, steps, |steps|);
    if !Quiet(t) {
      var step := WorkMakesProgress(base, t);
      assert false;
    }
    QuietGraphIsTheWorld(base, t);
    forall subject, c ensures WorldEntitles(t, subject, c) <==> WorldEntitles(states[0], subject, c) {
    }
  }

  ghost predicate WorksAt(base: string, states: nat -> System, steps: nat -> Step, n: nat) {
    IsWork(steps(n)) && Enabled(base, states(n), steps(n)) && states(n + 1) == After(base, states(n), steps(n))
  }

  /** Nobody works for ever: in every infinite sequence of states and steps from a reachable state some step is not a
      worker's. With StuckWorkIsDone: workers working in any order come to an end, and the end is quiet. */
  lemma {:induction false} WorkEnds(base: string, states: nat -> System, steps: nat -> Step, from: nat)
    requires Inv(base, states(from))
    ensures exists n :: n >= from && !WorksAt(base, states, steps, n)
    decreases Backlog(states(from)), CallsLeft(states(from))
  {
    if WorksAt(base, states, steps, from) {
      WorkShrinks(base, states(from), steps(from));
      StepKeepsGraphInv(base, states(from), steps(from));
      StepKeepsKeysInv(base, states(from), steps(from));
      WorkEnds(base, states, steps, from + 1);
      var n :| n >= from + 1 && !WorksAt(base, states, steps, n);
    }
  }

  /** Work can always be finished: from every reachable state there is a work run to a quiet state. */
  lemma {:induction false} WorkConverges(base: string, s: System) returns (states: seq<System>, steps: seq<Step>)
    requires Inv(base, s)
    ensures IsWorkRun(base, states, steps) && states[0] == s
    ensures Quiet(states[|steps|]) && Inv(base, states[|steps|])
    decreases Backlog(s), CallsLeft(s)
  {
    if Quiet(s) {
      states, steps := [s], [];
    } else {
      var step := WorkMakesProgress(base, s);
      WorkShrinks(base, s, step);
      StepKeepsGraphInv(base, s, step);
      StepKeepsKeysInv(base, s, step);
      var laterStates, laterSteps := WorkConverges(base, After(base, s, step));
      StepFirst(base, s, step, laterStates, laterSteps);
      states, steps := [s] + laterStates, [step] + laterSteps;
    }
  }

  lemma StepFirst(base: string, s: System, step: Step, states: seq<System>, steps: seq<Step>)
    requires IsWork(step) && Enabled(base, s, step)
    requires IsWorkRun(base, states, steps) && states[0] == After(base, s, step)
    ensures IsWorkRun(base, [s] + states, [step] + steps)
    ensures ([s] + states)[|[step] + steps|] == states[|steps|]
  {
    RunsConcat(base, [s, states[0]], [step], states, steps);
    assert [s, states[0]][..1] == [s];
  }
}
