/** The translator object: it counts, per subject and cluster, the bindings that name the subject, and calls the
    graph only when such a count leaves or reaches zero. Source: pkg/rbacprovider/translator.go.
    Every public method is one critical section of the translator's lock. `range` over a map is a loop that takes any
    remaining element, so the results hold for every iteration order. */
module Translator {
  import opened Rbac
  import opened GraphSpec
  import opened AccessGraph
  import opened Index
  import opened Publish
  import opened History

  class Translator {
    const g: Graph
    var refs: Refs
    var bindings: Bindings
    ghost var history: seq<Event>

    /** References and graph edges both stand for these claims. */
    ghost predicate Tracks(claims: set<Claim>)
      reads this, g
    {
      g.Valid() && RefsMatch(refs, claims) && GraphMatch(g.State(), claims)
    }

    /** The claims are those of the stored bindings. */
    ghost predicate Consistent()
      reads this, g
    {
      Tracks(Claims(bindings))
    }

    /** Between two events the index is, besides, what the events so far add up to. */
    ghost predicate Valid()
      reads this, g
    {
      Consistent() && State() == Run(history)
    }

    ghost function State(): IndexState
      reads this, g
    {
      IndexState(bindings, g.State())
    }

    constructor (g: Graph)
      ensures this.g == g && refs == map[] && bindings == map[] && history == []
      ensures g.Valid() && g.State() == EMPTY_GRAPH ==> Valid()
    {
      this.g := g;
      refs := map[];
      bindings := map[];
      history := [];
    }

    method Apply(key: BindingKey, subjects: seq<Subject>, endpoint: string)
      requires Valid()
      modifies this, g`access, g`endpoints, g`calls
      ensures Valid() && history == old(history) + [ApplyBinding(key, subjects, endpoint)]
      ensures State() == Settle(old(State()), ApplyBinding(key, subjects, endpoint))
      ensures Published(old(bindings), ApplyBinding(key, subjects, endpoint), old(g.calls), g.calls)
    {
      ghost var before := State();
      ghost var sched := ApplyLocked(key, subjects, endpoint);
      Conclude(before, ApplyBinding(key, subjects, endpoint), sched, old(g.calls));
    }

    /** The end of every event: the calls made are the event's, so the index has settled it. */
    ghost method Conclude(before: IndexState, e: Event, sched: Schedule, from: seq<GraphCall>)
      requires Consistent()
      requires before == Run(history) && before.graph == Replay(EMPTY_GRAPH, from)
      requires LegalSchedule(before.bindings, e, sched)
      requires bindings == Next(before.bindings, e) && g.calls == from + Calls(before.bindings, e, sched)
      modifies this`history
      ensures Valid() && history == old(history) + [e]
      ensures State() == Settle(before, e)
      ensures Published(before.bindings, e, from, g.calls)
    {
      Settles(before, e, sched, from, history, State());
      history := history + [e];
    }

    method ApplyLocked(key: BindingKey, subjects: seq<Subject>, endpoint: string) returns (ghost sched: Schedule)
      requires Consistent()
      modifies this`refs, this`bindings, g`access, g`endpoints, g`calls
      ensures Consistent()
      ensures bindings == Next(old(bindings), ApplyBinding(key, subjects, endpoint))
      ensures LegalSchedule(old(bindings), ApplyBinding(key, subjects, endpoint), sched)
      ensures g.calls == old(g.calls) + Calls(old(bindings), ApplyBinding(key, subjects, endpoint), sched)
    {
      var hasOld := key in bindings;
      var oldState := if hasOld then bindings[key] else BindingState([], "");
      bindings := bindings[key := BindingState(subjects, endpoint)];
      sched := MoveReferences(key, hasOld, oldState.subjects, subjects, endpoint, old(bindings));
      if hasOld && oldState.endpoint != endpoint {
        MoveEndpoint(key.cluster, endpoint);
      }
    }

    method MoveEndpoint(cluster: Cluster, endpoint: string)
      requires Consistent()
      modifies g`endpoints, g`calls
      ensures Consistent()
      ensures g.calls == old(g.calls) + [GraphCall.SetEndpoint(cluster, endpoint)]
    {
      ClosingKeepsMatch(g.State(), Claims(bindings), GraphCall.SetEndpoint(cluster, endpoint));
      g.SetEndpoint(cluster, endpoint);
    }

    /** The two loops of the source's apply. */
    method MoveReferences(key: BindingKey, hasOld: bool, oldSubjects: seq<Subject>, subjects: seq<Subject>,
                          endpoint: string, ghost before: Bindings)
      returns (ghost sched: Schedule)
      requires Tracks(Claims(before))
      requires if hasOld then key in before && before[key].subjects == oldSubjects
               else key !in before && oldSubjects == []
      modifies this`refs, g`access, g`endpoints, g`calls
      ensures Tracks(Claims(Next(before, ApplyBinding(key, subjects, endpoint))))
      ensures LegalSchedule(before, ApplyBinding(key, subjects, endpoint), sched)
      ensures g.calls == old(g.calls) + RevokeCalls(sched.revokes, key.cluster)
              + GrantCalls(sched.grants, key.cluster, endpoint)
    {
      var oldSet := SubjectSet(oldSubjects);
      var newSet := SubjectSet(subjects);
      ghost var claims := Claims(before);
      ghost var kept := claims - ClaimsOf(key, oldSet - newSet);
      ghost var revoked: seq<Subject> := [];
      if hasOld {
        revoked := DropSubjects(key, oldSet, newSet, claims);
      } else {
        assert kept == claims;
      }
      ghost var granted := AddSubjects(key, hasOld, oldSet, newSet, endpoint, kept);
      ApplySplits(before, key, subjects, endpoint);
      sched := Schedule(revoked, granted);
    }

    method Remove(key: BindingKey)
      requires Valid()
      modifies this, g`access, g`endpoints, g`calls
      ensures Valid() && history == old(history) + [RemoveBinding(key)]
      ensures State() == Settle(old(State()), RemoveBinding(key))
      ensures Published(old(bindings), RemoveBinding(key), old(g.calls), g.calls)
    {
      ghost var before := State();
      ghost var revoked := RemoveLocked(key);
      OnlyApplyGains(before.bindings, RemoveBinding(key));
      Conclude(before, RemoveBinding(key), Schedule(revoked, []), old(g.calls));
    }

    method Forget(cluster: Cluster)
      requires Valid()
      modifies this, g`access, g`endpoints, g`calls
      ensures Valid() && history == old(history) + [ForgetCluster(cluster)]
      ensures State() == Settle(old(State()), ForgetCluster(cluster))
      ensures Published(old(bindings), ForgetCluster(cluster), old(g.calls), g.calls)
    {
      ghost var before := State();
      ghost var revoked := RemoveAllIn(cluster);
      OnlyApplyGains(before.bindings, ForgetCluster(cluster));
      ForgetGraph(cluster);
      Conclude(before, ForgetCluster(cluster), Schedule(revoked, []), old(g.calls));
    }

    method ForgetGraph(cluster: Cluster)
      requires Consistent() && SubjectsAt(Claims(bindings), cluster) == {}
      modifies g`access, g`endpoints, g`calls
      ensures Consistent()
      ensures g.calls == old(g.calls) + [GraphCall.Forget(cluster)]
    {
      ClosingKeepsMatch(g.State(), Claims(bindings), GraphCall.Forget(cluster));
      g.Forget(cluster);
    }

    /** Deletes while ranging over the bindings: only the current key goes away, so the keys left to visit stay. */
    method RemoveAllIn(cluster: Cluster) returns (ghost revoked: seq<Subject>)
      requires Consistent()
      modifies this`refs, this`bindings, g`access, g`endpoints, g`calls
      ensures Consistent()
      ensures bindings == Next(old(bindings), ForgetCluster(cluster))
      ensures Enumerates(revoked, Lost(old(bindings), ForgetCluster(cluster)))
      ensures g.calls == old(g.calls) + RevokeCalls(revoked, cluster)
    {
      revoked := [];
      var todo := bindings.Keys;
      while todo != {}
        invariant Consistent()
        invariant todo <= old(bindings).Keys
        invariant bindings == Remaining(old(bindings), cluster, todo)
        invariant Enumerates(revoked,
                             SubjectsAt(Claims(old(bindings)), cluster) - SubjectsAt(Claims(bindings), cluster))
        invariant g.calls == old(g.calls) + RevokeCalls(revoked, cluster)
        decreases |todo|
      {
        var key :| key in todo;
        RemainingStep(old(bindings), cluster, todo, key);
        todo := todo - {key};
        if key.cluster == cluster {
          revoked := RemoveNext(key, old(bindings), revoked, old(g.calls));
        }
      }
    }

    /** One turn of the forgetting loop: `revoked` lists the subjects lost since the bindings it started with. */
    method RemoveNext(key: BindingKey, ghost start: Bindings, ghost revoked: seq<Subject>, ghost from: seq<GraphCall>)
      returns (ghost all: seq<Subject>)
      requires Consistent()
      requires forall k :: k in bindings ==> k in start && bindings[k] == start[k]
      requires Enumerates(revoked, SubjectsAt(Claims(start), key.cluster) - SubjectsAt(Claims(bindings), key.cluster))
      requires g.calls == from + RevokeCalls(revoked, key.cluster)
      modifies this`refs, this`bindings, g`access, g`endpoints, g`calls
      ensures Consistent()
      ensures bindings == old(bindings) - {key}
      ensures Enumerates(all, SubjectsAt(Claims(start), key.cluster) - SubjectsAt(Claims(bindings), key.cluster))
      ensures g.calls == from + RevokeCalls(all, key.cluster)
    {
      ghost var more := RemoveLocked(key);
      LostStep(start, old(bindings), key, revoked, more);
      RevokeCallsConcat(revoked, more, key.cluster);
      all := revoked + more;
    }

    method RemoveLocked(key: BindingKey) returns (ghost revoked: seq<Subject>)
      requires Consistent()
      modifies this`refs, this`bindings, g`access, g`endpoints, g`calls
      ensures Consistent()
      ensures bindings == old(bindings) - {key}
      ensures Enumerates(revoked, Lost(old(bindings), RemoveBinding(key)))
      ensures g.calls == old(g.calls) + RevokeCalls(revoked, key.cluster)
    {
      revoked := [];
      if key !in bindings {
        assert bindings - {key} == bindings;
        return;
      }
      ghost var claims := Claims(bindings);
      var state := bindings[key];
      bindings := bindings - {key};
      ghost var here := claims;
      for i := 0 to |state.subjects|
        invariant bindings == old(bindings) - {key}
        invariant here == claims - ClaimsOf(key, SubjectsIn(state.subjects[..i]))
        invariant Tracks(here)
        invariant Enumerates(revoked, SubjectsAt(claims, key.cluster) - SubjectsAt(here, key.cluster))
        invariant g.calls == old(g.calls) + RevokeCalls(revoked, key.cluster)
      {
        assert state.subjects[..i + 1] == state.subjects[..i] + [state.subjects[i]];
        revoked := Release(state.subjects[i], key, claims, here, revoked, old(g.calls));
        here := here - {Claim(key, state.subjects[i])};
      }
      assert state.subjects[..|state.subjects|] == state.subjects;
      assert claims - ClaimsOf(key, SubjectsIn(state.subjects)) == Claims(bindings);
    }

    /** The first loop of the source's apply: old subjects that are gone lose their reference. */
    method DropSubjects(key: BindingKey, oldSet: set<Subject>, newSet: set<Subject>, ghost claims: set<Claim>)
      returns (ghost revoked: seq<Subject>)
      requires Tracks(claims)
      modifies this`refs, g`access, g`endpoints, g`calls
      ensures Tracks(claims - ClaimsOf(key, oldSet - newSet))
      ensures Enumerates(revoked, SubjectsAt(claims, key.cluster)
                                  - SubjectsAt(claims - ClaimsOf(key, oldSet - newSet), key.cluster))
      ensures g.calls == old(g.calls) + RevokeCalls(revoked, key.cluster)
    {
      revoked := [];
      var todo := oldSet;
      ghost var here := claims;
      while todo != {}
        invariant todo <= oldSet
        invariant here == claims - ClaimsOf(key, oldSet - todo - newSet)
        invariant Tracks(here)
        invariant Enumerates(revoked, SubjectsAt(claims, key.cluster) - SubjectsAt(here, key.cluster))
        invariant g.calls == old(g.calls) + RevokeCalls(revoked, key.cluster)
        decreases |todo|
      {
        var s :| s in todo;
        todo := todo - {s};
        if s !in newSet {
          revoked := Release(s, key, claims, here, revoked, old(g.calls));
          here := here - {Claim(key, s)};
        }
      }
      assert oldSet - todo - newSet == oldSet - newSet;
    }

    /** The second loop of the source's apply: new subjects gain a reference. */
    method AddSubjects(key: BindingKey, hasOld: bool, oldSet: set<Subject>, newSet: set<Subject>, endpoint: string,
                       ghost claims: set<Claim>)
      returns (ghost granted: seq<Subject>)
      requires Tracks(claims)
      requires !hasOld ==> oldSet == {}
      modifies this`refs, g`access, g`endpoints, g`calls
      ensures Tracks(claims + ClaimsOf(key, newSet - oldSet))
      ensures Enumerates(granted, SubjectsAt(claims + ClaimsOf(key, newSet - oldSet), key.cluster)
                                  - SubjectsAt(claims, key.cluster))
      ensures g.calls == old(g.calls) + GrantCalls(granted, key.cluster, endpoint)
    {
      granted := [];
      var todo := newSet;
      ghost var here := claims;
      while todo != {}
        invariant todo <= newSet
        invariant here == claims + ClaimsOf(key, newSet - todo - oldSet)
        invariant Tracks(here)
        invariant Enumerates(granted, SubjectsAt(here, key.cluster) - SubjectsAt(claims, key.cluster))
        invariant g.calls == old(g.calls) + GrantCalls(granted, key.cluster, endpoint)
        decreases |todo|
      {
        var s :| s in todo;
        todo := todo - {s};
        if hasOld {
          if s in oldSet {
            continue;
          }
        }
        granted := Acquire(s, key, endpoint, claims, here, granted, old(g.calls));
        here := here + {Claim(key, s)};
      }
      assert newSet - todo - oldSet == newSet - oldSet;
    }

    /** One turn of a releasing loop: `revoked` lists the subjects lost from the claims the loop started with. */
    method Release(s: Subject, key: BindingKey, ghost claims: set<Claim>, ghost here: set<Claim>,
                   ghost revoked: seq<Subject>, ghost from: seq<GraphCall>)
      returns (ghost all: seq<Subject>)
      requires Tracks(here) && here <= claims
      requires Enumerates(revoked, SubjectsAt(claims, key.cluster) - SubjectsAt(here, key.cluster))
      requires g.calls == from + RevokeCalls(revoked, key.cluster)
      modifies this`refs, g`access, g`endpoints, g`calls
      ensures Tracks(here - {Claim(key, s)})
      ensures Enumerates(all, SubjectsAt(claims, key.cluster) - SubjectsAt(here - {Claim(key, s)}, key.cluster))
      ensures g.calls == from + RevokeCalls(all, key.cluster)
    {
      ghost var more := DecrementRef(s, key.cluster, key, here);
      DroppedStep(claims, here, here - {Claim(key, s)}, key.cluster, revoked, more);
      RevokeCallsConcat(revoked, more, key.cluster);
      all := revoked + more;
    }

    /** One turn of the acquiring loop: `granted` lists the subjects gained over the claims the loop started with. */
    method Acquire(s: Subject, key: BindingKey, endpoint: string, ghost claims: set<Claim>, ghost here: set<Claim>,
                   ghost granted: seq<Subject>, ghost from: seq<GraphCall>)
      returns (ghost all: seq<Subject>)
      requires Tracks(here) && claims <= here
      requires Enumerates(granted, SubjectsAt(here, key.cluster) - SubjectsAt(claims, key.cluster))
      requires g.calls == from + GrantCalls(granted, key.cluster, endpoint)
      modifies this`refs, g`access, g`endpoints, g`calls
      ensures Tracks(here + {Claim(key, s)})
      ensures Enumerates(all, SubjectsAt(here + {Claim(key, s)}, key.cluster) - SubjectsAt(claims, key.cluster))
      ensures g.calls == from + GrantCalls(all, key.cluster, endpoint)
    {
      ghost var more := IncrementRef(s, key.cluster, endpoint, key, here);
      GainedStep(claims, here, here + {Claim(key, s)}, key.cluster, granted, more);
      GrantCallsConcat(granted, more, key.cluster, endpoint);
      all := granted + more;
    }

    method IncrementRef(s: Subject, c: Cluster, endpoint: string, key: BindingKey, ghost claims: set<Claim>)
      returns (ghost granted: seq<Subject>)
      requires Tracks(claims) && key.cluster == c
      modifies this`refs, g`access, g`endpoints, g`calls
      ensures Tracks(claims + {Claim(key, s)})
      ensures Enumerates(granted, SubjectsAt(claims + {Claim(key, s)}, c) - SubjectsAt(claims, c))
      ensures g.calls == old(g.calls) + GrantCalls(granted, c, endpoint)
    {
      RefAdded(refs, claims, key, s);
      EdgeAdded(g.State(), claims, key, s, endpoint);
      granted := [];
      var first := AddRef(s, c, key);
      if first {
        g.Grant(s, c, endpoint);
        granted := [s];
      }
    }

    /** Creates the missing inner maps and adds the key. */
    method AddRef(s: Subject, c: Cluster, key: BindingKey) returns (first: bool)
      modifies this`refs
      ensures refs == WithRef(old(refs), s, c, key)
      ensures first <==> RefsTo(old(refs), s, c) == {}
    {
      ghost var start := refs;
      if s !in refs {
        refs := refs[s := map[]];
      }
      if c !in refs[s] {
        refs := refs[s := refs[s][c := {}]];
      }
      first := |refs[s][c]| == 0;
      refs := refs[s := refs[s][c := refs[s][c] + {key}]];
      assert refs[s] == (if s in start then start[s] else map[])[c := RefsTo(start, s, c) + {key}];
      assert refs == WithRef(start, s, c, key);
    }

    method DecrementRef(s: Subject, c: Cluster, key: BindingKey, ghost claims: set<Claim>)
      returns (ghost revoked: seq<Subject>)
      requires Tracks(claims) && key.cluster == c
      modifies this`refs, g`access, g`endpoints, g`calls
      ensures Tracks(claims - {Claim(key, s)})
      ensures Enumerates(revoked, SubjectsAt(claims, c) - SubjectsAt(claims - {Claim(key, s)}, c))
      ensures g.calls == old(g.calls) + RevokeCalls(revoked, c)
    {
      revoked := [];
      EdgeRemoved(g.State(), claims, key, s);
      if s !in refs || c !in refs[s] {
        assert KeysNaming(claims, s, c) == RefsTo(refs, s, c) == {};
        assert claims - {Claim(key, s)} == claims by {
          assert Claim(key, s) in claims ==> key in KeysNaming(claims, s, c);
        }
        return;
      }
      RefRemoved(refs, claims, key, s);
      var last := DropRef(s, c, key);
      if last {
        g.Revoke(s, c);
        revoked := [s];
      }
    }

    /** Deletes the key, and with it the inner maps it leaves empty. */
    method DropRef(s: Subject, c: Cluster, key: BindingKey) returns (last: bool)
      requires s in refs && c in refs[s]
      modifies this`refs
      ensures refs == WithoutRef(old(refs), s, c, key)
      ensures last <==> old(refs)[s][c] - {key} == {}
    {
      InnerMapsDrop(refs, s, c, key);
      refs := refs[s := refs[s][c := refs[s][c] - {key}]];
      last := |refs[s][c]| == 0;
      if last {
        refs := refs[s := refs[s] - {c}];
        if |refs[s]| == 0 {
          refs := refs - {s};
        }
      }
    }

    method SubjectSet(subjects: seq<Subject>) returns (out: set<Subject>)
      ensures out == SubjectsIn(subjects)
    {
      out := {};
      for i := 0 to |subjects|
        invariant out == SubjectsIn(subjects[..i])
      {
        assert subjects[..i + 1] == subjects[..i] + [subjects[i]];
        out := out + {subjects[i]};
      }
      assert subjects[..|subjects|] == subjects;
    }
  }

  /** The bindings half-way through forgetting a cluster: the keys in `todo` are still to be visited. */
  ghost function Remaining(b: Bindings, c: Cluster, todo: set<BindingKey>): Bindings {
    map k | k in b && (k.cluster != c || k in todo) :: b[k]
  }

  lemma RemainingStep(b: Bindings, c: Cluster, todo: set<BindingKey>, k: BindingKey)
    requires k in todo
    ensures Remaining(b, c, todo - {k}) == if k.cluster == c then Remaining(b, c, todo) - {k} else Remaining(b, c, todo)
  {
  }

  /** The calls recorded meanwhile are those of this event, in an order its loops allow. */
  ghost predicate Published(b: Bindings, e: Event, from: seq<GraphCall>, to: seq<GraphCall>) {
    exists sched :: LegalSchedule(b, e, sched) && to == from + Calls(b, e, sched)
  }

  lemma Settles(before: IndexState, e: Event, sched: Schedule, from: seq<GraphCall>, history: seq<Event>,
                end: IndexState)
    requires before == Run(history) && before.graph == Replay(EMPTY_GRAPH, from)
    requires LegalSchedule(before.bindings, e, sched)
    requires end == IndexState(Next(before.bindings, e), Replay(EMPTY_GRAPH, from + Calls(before.bindings, e, sched)))
    ensures end == Settle(before, e) == Run(history + [e])
  {
    RunInStep(history);
    RunLast(history, e);
    ReplayConcat(EMPTY_GRAPH, from, Calls(before.bindings, e, sched));
    CallsSettle(before, e, sched);
  }

  /** A closing call leaves the edges alone: it moves an endpoint, or forgets a cluster nobody is to reach. */
  lemma ClosingKeepsMatch(g: GraphState, claims: set<Claim>, call: GraphCall)
    requires GraphMatch(g, claims)
    requires call.SetEndpoint? || (call.Forget? && SubjectsAt(claims, call.cluster) == {})
    ensures GraphMatch(Perform(g, call), claims)
  {
    forall s, c ensures Edge(Perform(g, call), s, c) <==> s in SubjectsAt(claims, c) {
      PerformEdges(g, call, s, c);
      assert Edge(g, s, c) <==> s in SubjectsAt(claims, c);
    }
  }

  /** Every translator that started on an empty graph, whatever happened to it since: its reference sets are those of
      the standing bindings, and the graph it drives shows an edge exactly for the entitled. */
  lemma ValidMeansDeclared(t: Translator, s: Subject, c: Cluster)
    requires t.Valid()
    ensures Edge(t.g.State(), s, c) <==> Entitled(t.history, s, c)
    ensures forall k :: k in RefsTo(t.refs, s, c) <==>
                        k.cluster == c && exists n: nat :: StandsSince(t.history, k, n) && s in t.history[n].subjects
    ensures s in t.refs ==> t.refs[s] != map[]
    ensures s in t.refs && c in t.refs[s] ==> t.refs[s][c] != {}
  {
    EdgeIffEntitled(t.history, s, c);
    forall k
      ensures k in RefsTo(t.refs, s, c) <==>
              k.cluster == c && exists n: nat :: StandsSince(t.history, k, n) && s in t.history[n].subjects
    {
      assert RefsTo(t.refs, s, c) == KeysNaming(Claims(t.bindings), s, c);
      assert k in KeysNaming(Claims(t.bindings), s, c) <==> k.cluster == c && Claim(k, s) in Claims(t.bindings);
      StoredIffStands(t.history, k);
    }
  }

  // ---- Claims under one apply ----

  /** Dropping the old subjects and adding the new ones gives the new claims, and no subject is lost and regained. */
  lemma ApplySplits(b: Bindings, key: BindingKey, subjects: seq<Subject>, endpoint: string)
    ensures var e := ApplyBinding(key, subjects, endpoint);
            var oldSet := if key in b then SubjectsIn(b[key].subjects) else {};
            var newSet := SubjectsIn(subjects);
            var kept := Claims(b) - ClaimsOf(key, oldSet - newSet);
            var after := kept + ClaimsOf(key, newSet - oldSet);
            && after == Claims(Next(b, e))
            && Lost(b, e) == SubjectsAt(Claims(b), key.cluster) - SubjectsAt(kept, key.cluster)
            && Gained(b, e) == SubjectsAt(after, key.cluster) - SubjectsAt(kept, key.cluster)
  {
    var oldSet := if key in b then SubjectsIn(b[key].subjects) else {};
    var newSet := SubjectsIn(subjects);
    var kept := Claims(b) - ClaimsOf(key, oldSet - newSet);
    var after := kept + ClaimsOf(key, newSet - oldSet);
    var e := ApplyBinding(key, subjects, endpoint);
    forall x ensures x in after <==> x in Claims(Next(b, e)) {
    }
    assert after == Claims(Next(b, e));
    forall s | s in SubjectsAt(Claims(b), key.cluster) && s !in SubjectsAt(kept, key.cluster)
      ensures s in oldSet - newSet
    {
      var x :| x in Claims(b) && x.key.cluster == key.cluster && x.subject == s;
      assert x !in kept;
    }
    forall s | s in SubjectsAt(after, key.cluster) && s !in SubjectsAt(kept, key.cluster)
      ensures s in newSet - oldSet
    {
      var x :| x in after && x.key.cluster == key.cluster && x.subject == s;
      assert x !in kept;
    }
    SubjectsAtMonotone(kept, Claims(b), key.cluster);
    SubjectsAtMonotone(kept, after, key.cluster);
  }

  lemma ClaimsShrink(b: Bindings, smaller: Bindings)
    requires forall k :: k in smaller ==> k in b && smaller[k] == b[k]
    ensures Claims(smaller) <= Claims(b)
  {
  }

  /** Removing one binding after others adds the subjects lost last to those lost before. */
  lemma LostStep(start: Bindings, here: Bindings, key: BindingKey, revoked: seq<Subject>, more: seq<Subject>)
    requires forall k :: k in here ==> k in start && here[k] == start[k]
    requires Enumerates(revoked, SubjectsAt(Claims(start), key.cluster) - SubjectsAt(Claims(here), key.cluster))
    requires Enumerates(more, Lost(here, RemoveBinding(key)))
    ensures Enumerates(revoked + more,
                       SubjectsAt(Claims(start), key.cluster) - SubjectsAt(Claims(here - {key}), key.cluster))
  {
    ClaimsShrink(start, here);
    ClaimsShrink(here, here - {key});
    DroppedStep(Claims(start), Claims(here), Claims(here - {key}), key.cluster, revoked, more);
  }

  lemma SubjectsAtMonotone(claims: set<Claim>, more: set<Claim>, c: Cluster)
    requires claims <= more
    ensures SubjectsAt(claims, c) <= SubjectsAt(more, c)
  {
  }

  // ---- Enumerations ----

  /** Enumerating a first drop and then a further drop enumerates the whole drop. */
  lemma EnumeratesMore(list: seq<Subject>, more: seq<Subject>, high: set<Subject>, mid: set<Subject>, low: set<Subject>)
    requires low <= mid <= high
    requires Enumerates(list, high - mid) && Enumerates(more, mid - low)
    ensures Enumerates(list + more, high - low)
  {
    var all := list + more;
    forall s ensures s in all <==> s in high - low {
    }
    forall i, j | 0 <= i < j < |all| ensures all[i] != all[j] {
      if i < |list| <= j {
        assert all[i] in list && all[j] in more;
      }
    }
  }

  lemma DroppedStep(claims: set<Claim>, here: set<Claim>, next: set<Claim>, c: Cluster, revoked: seq<Subject>,
                    more: seq<Subject>)
    requires next <= here <= claims
    requires Enumerates(revoked, SubjectsAt(claims, c) - SubjectsAt(here, c))
    requires Enumerates(more, SubjectsAt(here, c) - SubjectsAt(next, c))
    ensures Enumerates(revoked + more, SubjectsAt(claims, c) - SubjectsAt(next, c))
  {
    SubjectsAtMonotone(next, here, c);
    SubjectsAtMonotone(here, claims, c);
    EnumeratesMore(revoked, more, SubjectsAt(claims, c), SubjectsAt(here, c), SubjectsAt(next, c));
  }

  lemma GainedStep(claims: set<Claim>, here: set<Claim>, next: set<Claim>, c: Cluster, granted: seq<Subject>,
                   more: seq<Subject>)
    requires claims <= here <= next
    requires Enumerates(granted, SubjectsAt(here, c) - SubjectsAt(claims, c))
    requires Enumerates(more, SubjectsAt(next, c) - SubjectsAt(here, c))
    ensures Enumerates(granted + more, SubjectsAt(next, c) - SubjectsAt(claims, c))
  {
    SubjectsAtMonotone(claims, here, c);
    SubjectsAtMonotone(here, next, c);
    EnumeratesMore(more, granted, SubjectsAt(next, c), SubjectsAt(here, c), SubjectsAt(claims, c));
    EnumeratesSwap(more, granted, SubjectsAt(next, c) - SubjectsAt(claims, c));
  }

  lemma EnumeratesSwap(list: seq<Subject>, more: seq<Subject>, subjects: set<Subject>)
    requires Enumerates(list + more, subjects)
    ensures Enumerates(more + list, subjects)
  {
    var was, all := list + more, more + list;
    forall i, j | 0 <= i < j < |all| ensures all[i] != all[j] {
      var i' := if i < |more| then i + |list| else i - |more|;
      var j' := if j < |more| then j + |list| else j - |more|;
      assert all[i] == was[i'] && all[j] == was[j'];
    }
    forall s ensures s in all <==> s in was {
    }
  }

  lemma RevokeCallsConcat(list: seq<Subject>, more: seq<Subject>, c: Cluster)
    ensures RevokeCalls(list + more, c) == RevokeCalls(list, c) + RevokeCalls(more, c)
  {
  }

  lemma GrantCallsConcat(list: seq<Subject>, more: seq<Subject>, c: Cluster, endpoint: string)
    ensures GrantCalls(list + more, c, endpoint) == GrantCalls(list, c, endpoint) + GrantCalls(more, c, endpoint)
  {
  }

  // ---- One reference more or less ----

  lemma KeysAfterAdd(claims: set<Claim>, key: BindingKey, s: Subject, t: Subject, d: Cluster)
    ensures KeysNaming(claims + {Claim(key, s)}, t, d) ==
            KeysNaming(claims, t, d) + if t == s && d == key.cluster then {key} else {}
  {
  }

  lemma KeysAfterRemove(claims: set<Claim>, key: BindingKey, s: Subject, t: Subject, d: Cluster)
    ensures KeysNaming(claims - {Claim(key, s)}, t, d) ==
            KeysNaming(claims, t, d) - if t == s && d == key.cluster then {key} else {}
  {
    var less := claims - {Claim(key, s)};
    forall k ensures k in KeysNaming(less, t, d) <==> Claim(k, t) in less && k.cluster == d {
    }
    forall k ensures k in KeysNaming(claims, t, d) <==> Claim(k, t) in claims && k.cluster == d {
    }
  }

  function WithRef(refs: Refs, s: Subject, c: Cluster, key: BindingKey): Refs {
    refs[s := (if s in refs then refs[s] else map[])[c := RefsTo(refs, s, c) + {key}]]
  }

  function WithoutRef(refs: Refs, s: Subject, c: Cluster, key: BindingKey): Refs
    requires s in refs && c in refs[s]
  {
    if refs[s][c] - {key} != {} then refs[s := refs[s][c := refs[s][c] - {key}]]
    else if refs[s] - {c} != map[] then refs[s := refs[s] - {c}]
    else refs - {s}
  }

  /** Writing the smaller set and then deleting it again is deleting it. */
  lemma InnerMapsDrop(refs: Refs, s: Subject, c: Cluster, key: BindingKey)
    requires s in refs && c in refs[s]
    ensures var written := refs[s := refs[s][c := refs[s][c] - {key}]];
            var dropped := written[s := written[s] - {c}];
            && dropped == refs[s := refs[s] - {c}]
            && (dropped[s] == map[] <==> refs[s] - {c} == map[])
            && dropped - {s} == refs - {s}
  {
    var written := refs[s := refs[s][c := refs[s][c] - {key}]];
    assert written[s] - {c} == refs[s] - {c};
  }

  lemma RefAdded(refs: Refs, claims: set<Claim>, key: BindingKey, s: Subject)
    requires RefsMatch(refs, claims)
    ensures RefsMatch(WithRef(refs, s, key.cluster, key), claims + {Claim(key, s)})
    ensures RefsTo(refs, s, key.cluster) == {} <==> s !in SubjectsAt(claims, key.cluster)
  {
    var now, more := WithRef(refs, s, key.cluster, key), claims + {Claim(key, s)};
    EdgeIffReferenced(claims, s, key.cluster);
    forall t, d ensures RefsTo(now, t, d) == KeysNaming(more, t, d) {
      KeysAfterAdd(claims, key, s, t, d);
      assert RefsTo(refs, t, d) == KeysNaming(claims, t, d);
    }
    assert key.cluster in now[s];
  }

  lemma RefRemoved(refs: Refs, claims: set<Claim>, key: BindingKey, s: Subject)
    requires RefsMatch(refs, claims)
    requires s in refs && key.cluster in refs[s]
    ensures RefsMatch(WithoutRef(refs, s, key.cluster, key), claims - {Claim(key, s)})
    ensures s in SubjectsAt(claims, key.cluster)
    ensures refs[s][key.cluster] - {key} == {} <==> s !in SubjectsAt(claims - {Claim(key, s)}, key.cluster)
  {
    var now, less := WithoutRef(refs, s, key.cluster, key), claims - {Claim(key, s)};
    assert RefsTo(refs, s, key.cluster) == KeysNaming(claims, s, key.cluster);
    EdgeIffReferenced(claims, s, key.cluster);
    EdgeIffReferenced(less, s, key.cluster);
    KeysAfterRemove(claims, key, s, s, key.cluster);
    forall t, d ensures RefsTo(now, t, d) == KeysNaming(less, t, d) {
      KeysAfterRemove(claims, key, s, t, d);
      if t == s && d in refs[s] && d != key.cluster {
        assert d in refs[s] - {key.cluster};
      }
      assert RefsTo(refs, t, d) == KeysNaming(claims, t, d);
    }
    assert s in now && refs[s][key.cluster] - {key} != {} ==> key.cluster in now[s];
  }

  lemma EdgeAdded(g: GraphState, claims: set<Claim>, key: BindingKey, s: Subject, endpoint: string)
    requires GraphMatch(g, claims)
    ensures var more := claims + {Claim(key, s)};
            var gained := SubjectsAt(more, key.cluster) - SubjectsAt(claims, key.cluster);
            if s in SubjectsAt(claims, key.cluster)
            then GraphMatch(g, more) && gained == {}
            else GraphMatch(Perform(g, Grant(s, key.cluster, endpoint)), more) && gained == {s}
  {
    var more := claims + {Claim(key, s)};
    forall d ensures SubjectsAt(more, d) == SubjectsAt(claims, d) + if d == key.cluster then {s} else {} {
      assert forall x :: x in more <==> x in claims || x == Claim(key, s);
    }
    forall t, d { PerformEdges(g, Grant(s, key.cluster, endpoint), t, d); }
  }

  lemma EdgeRemoved(g: GraphState, claims: set<Claim>, key: BindingKey, s: Subject)
    requires GraphMatch(g, claims)
    ensures var less := claims - {Claim(key, s)};
            var lost := SubjectsAt(claims, key.cluster) - SubjectsAt(less, key.cluster);
            if s !in SubjectsAt(claims, key.cluster) || s in SubjectsAt(less, key.cluster)
            then GraphMatch(g, less) && lost == {}
            else GraphMatch(Perform(g, Revoke(s, key.cluster)), less) && lost == {s}
  {
    var less := claims - {Claim(key, s)};
    forall t, d | t != s || d != key.cluster
      ensures t in SubjectsAt(less, d) <==> t in SubjectsAt(claims, d)
    {
      if t in SubjectsAt(claims, d) {
        var x :| x in claims && x.key.cluster == d && x.subject == t;
        assert x in less;
      }
    }
    SubjectsAtMonotone(less, claims, key.cluster);
    forall t, d { PerformEdges(g, Revoke(s, key.cluster), t, d); }
  }
}
