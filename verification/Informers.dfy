/** The single-shard mode: two informers notify the handlers of every object they watch.
    Source: pkg/rbacprovider/informers.go. The two handlers run side by side; an object's own notifications come in
    order, so any sequence that keeps that order stands for what the translator sees. */
module Informers {
  import opened Wrappers
  import opened Rbac
  import opened GraphSpec
  import opened Endpoint
  import opened Index
  import opened Publish
  import opened History
  import opened Provider

  /** A call of the ClusterRoleBinding handler or of the RoleBinding handler. */
  datatype Notification = ToCRB(payload: Payload, deleted: bool) | ToRB(payload: Payload, deleted: bool)

  /** The object the notification is about, if it can be resolved. */
  function About(note: Notification): Option<Meta> {
    match note.payload
    case Typed(obj) => Some(obj)
    case Tombstone(last) => last
    case Foreign => None
  }

  function IdIn(note: Notification, obj: Meta): ObjectId {
    if note.ToCRB? then CrbId(obj) else RbId(obj)
  }

  predicate Concerns(note: Notification, id: ObjectId) {
    About(note).Some? && IdIn(note, About(note).value) == id
  }

  /** An add or update; a deletion is told by the flag or by a tombstone. */
  predicate Delivers(note: Notification) {
    note.payload.Typed? && !note.deleted
  }

  /** The notification is about the same kind and name, in whatever cluster. */
  predicate SameObject(note: Notification, id: ObjectId) {
    About(note).Some? && IdIn(note, About(note).value).(cluster := id.cluster) == id
  }

  /** The informers' store has the object, in this cluster, as the n-th notification delivered it: nothing came for it
      since. The store knows objects by kind and name, not by cluster. */
  ghost predicate Stored(notes: seq<Notification>, id: ObjectId, n: nat) {
    && n < |notes| && Concerns(notes[n], id) && Delivers(notes[n])
    && forall m :: n < m < |notes| ==> !SameObject(notes[m], id)
  }

  /** The n-th notification delivered the object and nothing came for it since that had it in the same cluster. */
  ghost predicate LastIn(notes: seq<Notification>, id: ObjectId, n: nat) {
    && n < |notes| && Concerns(notes[n], id) && Delivers(notes[n])
    && forall m :: n < m < |notes| ==> !Concerns(notes[m], id)
  }

  /** The object was delivered in this cluster, and what came for it since had it in other clusters only. */
  ghost predicate MovedAway(notes: seq<Notification>, id: ObjectId, n: nat) {
    LastIn(notes, id, n) && exists m :: n < m < |notes| && SameObject(notes[m], id)
  }

  lemma LastInIff(notes: seq<Notification>, id: ObjectId, n: nat)
    ensures LastIn(notes, id, n) <==> Stored(notes, id, n) || MovedAway(notes, id, n)
    ensures !(Stored(notes, id, n) && MovedAway(notes, id, n))
  {
  }

  /** Informers hand out RoleBindings with their namespace. */
  ghost predicate AllWellNamed(notes: seq<Notification>) {
    forall n :: 0 <= n < |notes| && About(notes[n]).Some? ==> WellNamed(IdIn(notes[n], About(notes[n]).value))
  }

  function NoteEvent(base: string, note: Notification): Option<Event> {
    if note.ToCRB? then HandlerEvent(base, CrbId, note.payload, note.deleted)
    else HandlerEvent(base, RbId, note.payload, note.deleted)
  }

  /** What the handlers make of the notifications, one after the other. */
  function EventsOf(base: string, notes: seq<Notification>): seq<Event> {
    if notes == [] then []
    else EventsOf(base, notes[..|notes| - 1]) + ListOf(NoteEvent(base, notes[|notes| - 1]))
  }

  lemma {:induction false} EventsOfAreFromBase(base: string, notes: seq<Notification>)
    ensures AllFromBase(base, EventsOf(base, notes))
  {
    if notes != [] {
      EventsOfAreFromBase(base, notes[..|notes| - 1]);
    }
  }

  /** The bindings after one more notification. */
  function NextIfSome(b: Bindings, e: Option<Event>): Bindings {
    match e
    case None => b
    case Some(event) => Next(b, event)
  }

  /** These bindings have the object as its last notification in the cluster has it. */
  ghost predicate Follows(base: string, b: Bindings, notes: seq<Notification>, id: ObjectId) {
    && (KeyOf(id) in b <==> exists n: nat :: LastIn(notes, id, n))
    && (KeyOf(id) in b ==> forall n: nat :: LastIn(notes, id, n) ==>
          b[KeyOf(id)] == StateFor(base, id, About(notes[n]).value.subjects))
  }

  /** Every object is indexed, per cluster, as the last notification that had it there said. */
  lemma {:induction false} IndexFollowsNotes(base: string, notes: seq<Notification>, id: ObjectId)
    requires AllWellNamed(notes) && WellNamed(id)
    ensures Follows(base, Run(EventsOf(base, notes)).bindings, notes, id)
  {
    if notes != [] {
      var front, last := notes[..|notes| - 1], notes[|notes| - 1];
      IndexFollowsNotes(base, front, id);
      assert notes == front + [last];
      NoteSettles(base, front, last);
      NoteKeepsFollowing(base, Run(EventsOf(base, front)).bindings, front, last, id);
    }
  }

  lemma NoteKeepsFollowing(base: string, b: Bindings, front: seq<Notification>, last: Notification, id: ObjectId)
    requires AllWellNamed(front + [last]) && WellNamed(id) && Follows(base, b, front, id)
    ensures Follows(base, NextIfSome(b, NoteEvent(base, last)), front + [last], id)
  {
    var notes := front + [last];
    assert notes[|front|] == last;
    if Concerns(last, id) {
      OwnNote(base, b, last, id);
      assert Delivers(last) ==> LastIn(notes, id, |front|);
    } else {
      OtherNote(base, b, last, id);
      forall n: nat ensures LastIn(notes, id, n) <==> LastIn(front, id, n)
                    ensures n < |front| ==> notes[n] == front[n] {
        LastInOn(front, last, id, n);
      }
    }
  }

  /** A notification about the object stores what it delivers, or else removes the object. */
  lemma OwnNote(base: string, b: Bindings, note: Notification, id: ObjectId)
    requires Concerns(note, id)
    ensures var c := NextIfSome(b, NoteEvent(base, note));
            if Delivers(note) then KeyOf(id) in c && c[KeyOf(id)] == StateFor(base, id, About(note).value.subjects)
            else KeyOf(id) !in c
  {
  }

  lemma NoteSettles(base: string, front: seq<Notification>, last: Notification)
    ensures Run(EventsOf(base, front + [last])).bindings ==
            NextIfSome(Run(EventsOf(base, front)).bindings, NoteEvent(base, last))
  {
    assert (front + [last])[..|front|] == front;
    match NoteEvent(base, last)
    case None => assert EventsOf(base, front) + [] == EventsOf(base, front);
    case Some(e) => RunLast(EventsOf(base, front), e);
  }

  /** What one more notification does: the binding of the object's cluster, namespace and name becomes what was
      delivered, or goes, and no other binding changes. ClusterRoleBindings have no namespace, and an object without a
      cluster annotation is taken to be in root. A tombstone tells of a deletion, whatever the flag says. */
  lemma NoteTells(base: string, notes: seq<Notification>, note: Notification)
    ensures var before, after := Run(EventsOf(base, notes)).bindings, Run(EventsOf(base, notes + [note])).bindings;
            match note.payload
            case Typed(obj) =>
              var cluster := if obj.clusterAnnotation == "" then "root" else obj.clusterAnnotation;
              var namespace := if note.ToCRB? then "" else obj.namespace;
              var k := BindingKey(cluster, namespace, obj.name);
              after == if note.deleted then before - {k} else
                         before[k := BindingState(Translation(obj.subjects, namespace), EndpointFor(base, cluster))]
            case Tombstone(Some(obj)) =>
              var cluster := if obj.clusterAnnotation == "" then "root" else obj.clusterAnnotation;
              after == before - {BindingKey(cluster, if note.ToCRB? then "" else obj.namespace, obj.name)}
            case _ => after == before
  {
    NoteSettles(base, notes, note);
  }

  /** A notification about another object leaves this one's binding alone. */
  lemma OtherNote(base: string, b: Bindings, note: Notification, id: ObjectId)
    requires WellNamed(id) && !Concerns(note, id)
    requires About(note).Some? ==> WellNamed(IdIn(note, About(note).value))
    ensures var c := NextIfSome(b, NoteEvent(base, note));
            && (KeyOf(id) in c <==> KeyOf(id) in b)
            && (KeyOf(id) in b ==> c[KeyOf(id)] == b[KeyOf(id)])
  {
    if About(note).Some? {
      KeysCorrespond(id, IdIn(note, About(note).value), KeyOf(id));
    }
  }

  lemma LastInOn(front: seq<Notification>, last: Notification, id: ObjectId, n: nat)
    requires !Concerns(last, id)
    ensures LastIn(front + [last], id, n) <==> LastIn(front, id, n)
  {
    var notes := front + [last];
    assert forall m :: 0 <= m < |front| ==> notes[m] == front[m];
  }

  /** So the index is the informers' store, object by object with the stored subjects, if and only if no object was
      delivered in one cluster and then in another without being deleted in the first. */
  lemma IndexIsTheStoreIff(base: string, notes: seq<Notification>)
    requires AllWellNamed(notes)
    ensures var b := Run(EventsOf(base, notes)).bindings;
            && ((forall id :: WellNamed(id) ==> (KeyOf(id) in b <==> exists n: nat :: Stored(notes, id, n))) <==>
                forall id, n: nat :: !MovedAway(notes, id, n))
            && (forall id, n: nat :: Stored(notes, id, n) ==>
                  KeyOf(id) in b && b[KeyOf(id)] == StateFor(base, id, About(notes[n]).value.subjects))
  {
    var b := Run(EventsOf(base, notes)).bindings;
    forall id | WellNamed(id) ensures Follows(base, b, notes, id) {
      IndexFollowsNotes(base, notes, id);
    }
    StoreIff(base, b, notes);
  }

  lemma StoreIff(base: string, b: Bindings, notes: seq<Notification>)
    requires AllWellNamed(notes) && forall id :: WellNamed(id) ==> Follows(base, b, notes, id)
    ensures (forall id :: WellNamed(id) ==> (KeyOf(id) in b <==> exists n: nat :: Stored(notes, id, n))) <==>
            forall id, n: nat :: !MovedAway(notes, id, n)
    ensures forall id, n: nat :: Stored(notes, id, n) ==>
              KeyOf(id) in b && b[KeyOf(id)] == StateFor(base, id, About(notes[n]).value.subjects)
  {
    forall id, n: nat | Stored(notes, id, n)
      ensures KeyOf(id) in b && b[KeyOf(id)] == StateFor(base, id, About(notes[n]).value.subjects)
    {
      LastInIff(notes, id, n);
    }
    forall id, n: nat | MovedAway(notes, id, n)
      ensures WellNamed(id) && KeyOf(id) in b && forall m: nat :: !Stored(notes, id, m)
    {
      MovedIsNotStored(notes, id, n);
    }
    forall id | WellNamed(id) && KeyOf(id) in b
      ensures exists n: nat :: Stored(notes, id, n) || MovedAway(notes, id, n)
    {
      var n: nat :| LastIn(notes, id, n);
      LastInIff(notes, id, n);
    }
  }

  lemma MovedIsNotStored(notes: seq<Notification>, id: ObjectId, n: nat)
    requires MovedAway(notes, id, n)
    ensures forall m: nat :: !Stored(notes, id, m)
  {
    forall m: nat ensures !Stored(notes, id, m) {
      if Stored(notes, id, m) {
        LastInIff(notes, id, m);
        LastInIff(notes, id, n);
        assert false;
      }
    }
  }

  ghost predicate Names(note: Notification, id: ObjectId, s: Subject) {
    About(note).Some? && s in Resolved(About(note).value.subjects, KeyOf(id).namespace)
  }

  /** Some stored object of the cluster grants the subject access. */
  ghost predicate StoreEntitles(notes: seq<Notification>, s: Subject, c: Cluster) {
    exists id: ObjectId, n: nat :: id.cluster == c && Stored(notes, id, n) && Names(notes[n], id, s)
  }

  /** Some object did so before it moved to another cluster. */
  ghost predicate OldClusterEntitles(notes: seq<Notification>, s: Subject, c: Cluster) {
    exists id: ObjectId, n: nat :: id.cluster == c && MovedAway(notes, id, n) && Names(notes[n], id, s)
  }

  /** A provider whose handlers have been given these notifications shows exactly what the informers' store grants and
      what moved objects granted where they were, at the clusters' URLs, however often objects were delivered again and
      whatever else arrived. */
  lemma GraphFollowsStore(p: Provider, notes: seq<Notification>, s: Subject, c: Cluster)
    requires p.Valid() && p.translator.history == EventsOf(p.endpointBaseURL, notes) && AllWellNamed(notes)
    ensures Edge(p.translator.g.State(), s, c) <==> StoreEntitles(notes, s, c) || OldClusterEntitles(notes, s, c)
    ensures c in p.translator.g.endpoints ==> p.translator.g.endpoints[c] == EndpointFor(p.endpointBaseURL, c)
  {
    RunServes(p.endpointBaseURL, p.translator.history);
    EdgesFollowStore(p.endpointBaseURL, notes, s, c);
  }

  lemma EdgesFollowStore(base: string, notes: seq<Notification>, s: Subject, c: Cluster)
    requires AllWellNamed(notes)
    ensures Edge(Run(EventsOf(base, notes)).graph, s, c) <==>
            StoreEntitles(notes, s, c) || OldClusterEntitles(notes, s, c)
  {
    var i := Run(EventsOf(base, notes));
    RunInStep(EventsOf(base, notes));
    forall id | WellNamed(id) ensures Follows(base, i.bindings, notes, id) {
      IndexFollowsNotes(base, notes, id);
    }
    if s in SubjectsAt(Claims(i.bindings), c) {
      ClaimedIsGranted(base, i.bindings, notes, s, c);
    }
    if StoreEntitles(notes, s, c) || OldClusterEntitles(notes, s, c) {
      GrantedIsClaimed(base, i.bindings, notes, s, c);
    }
  }

  lemma ClaimedIsGranted(base: string, b: Bindings, notes: seq<Notification>, s: Subject, c: Cluster)
    requires forall id :: WellNamed(id) ==> Follows(base, b, notes, id)
    requires s in SubjectsAt(Claims(b), c)
    ensures StoreEntitles(notes, s, c) || OldClusterEntitles(notes, s, c)
  {
    var x :| x in Claims(b) && x.key.cluster == c && x.subject == s;
    var id := IdOf(x.key);
    KeysCorrespond(id, id, x.key);
    assert Follows(base, b, notes, id);
    var n: nat :| LastIn(notes, id, n);
    LastInIff(notes, id, n);
    TranslationIsResolved(About(notes[n]).value.subjects, KeyOf(id).namespace);
    assert Names(notes[n], id, s);
  }

  lemma GrantedIsClaimed(base: string, b: Bindings, notes: seq<Notification>, s: Subject, c: Cluster)
    requires AllWellNamed(notes) && forall id :: WellNamed(id) ==> Follows(base, b, notes, id)
    requires StoreEntitles(notes, s, c) || OldClusterEntitles(notes, s, c)
    ensures s in SubjectsAt(Claims(b), c)
  {
    var id: ObjectId, n: nat :|
      id.cluster == c && (Stored(notes, id, n) || MovedAway(notes, id, n)) && Names(notes[n], id, s);
    LastInIff(notes, id, n);
    assert About(notes[n]).Some? && IdIn(notes[n], About(notes[n]).value) == id;
    LastIsClaimed(base, b, notes, id, n, s);
  }

  lemma LastIsClaimed(base: string, b: Bindings, notes: seq<Notification>, id: ObjectId, n: nat, s: Subject)
    requires Follows(base, b, notes, id) && LastIn(notes, id, n) && Names(notes[n], id, s)
    ensures s in SubjectsAt(Claims(b), id.cluster)
  {
    TranslationIsResolved(About(notes[n]).value.subjects, KeyOf(id).namespace);
    assert Claim(KeyOf(id), s) in Claims(b);
  }

  /** It happens: an object is delivered in one cluster, then in another, then deleted there. The store has nothing, and
      the user keeps access to the first cluster. */
  lemma MovedObjectStays(base: string, c: Cluster, d: Cluster, name: string, user: string)
    requires c != d && c != "" && d != ""
    ensures var subjects := [RbacSubject(USER_KIND, user, "")];
            var here, there := Typed(Meta(c, "", name, subjects)), Typed(Meta(d, "", name, subjects));
            var notes := [ToCRB(here, false), ToCRB(there, false), ToCRB(there, true)];
            && Edge(Run(EventsOf(base, notes)).graph, User(user), c)
            && forall id, n: nat :: !Stored(notes, id, n)
  {
    var rs := RbacSubject(USER_KIND, user, "");
    var here, there := Typed(Meta(c, "", name, [rs])), Typed(Meta(d, "", name, [rs]));
    var notes := [ToCRB(here, false), ToCRB(there, false), ToCRB(there, true)];
    var id := ClusterRoleBinding(c, name);
    forall other, n: nat ensures !Stored(notes, other, n) {
      assert SameObject(notes[2], ClusterRoleBinding(other.cluster, name));
    }
    assert SameObject(notes[1], id) && MovedAway(notes, id, 0);
    assert rs in [rs] && TranslateSubject(rs, "") == Some(User(user));
    assert Names(notes[0], id, User(user));
    assert OldClusterEntitles(notes, User(user), c);
    EdgesFollowStore(base, notes, User(user), c);
  }
}
