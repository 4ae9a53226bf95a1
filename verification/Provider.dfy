/** From cluster objects to index events: the two reconcilers, the informer handlers, and the cluster lifecycle hooks.
    Source: pkg/rbacprovider/multicluster.go, pkg/rbacprovider/informers.go, pkg/rbacprovider/provider.go. */
module Provider {
  import opened Wrappers
  import opened Rbac
  import opened GraphSpec
  import opened Endpoint
  import AccessGraph
  import opened Index
  import opened Publish
  import opened History
  import opened Translator

  /** A binding object's identity in the fleet. */
  datatype ObjectId =
    | ClusterRoleBinding(cluster: Cluster, name: string)
    | RoleBinding(cluster: Cluster, namespace: string, name: string)

  /** RoleBindings are namespaced objects. */
  predicate WellNamed(id: ObjectId) {
    id.RoleBinding? ==> id.namespace != ""
  }

  function KeyOf(id: ObjectId): BindingKey {
    match id
    case ClusterRoleBinding(cluster, name) => BindingKey(cluster, "", name)
    case RoleBinding(cluster, namespace, name) => BindingKey(cluster, namespace, name)
  }

  function IdOf(k: BindingKey): ObjectId {
    if k.namespace == "" then ClusterRoleBinding(k.cluster, k.name) else RoleBinding(k.cluster, k.namespace, k.name)
  }

  /** Objects and keys correspond one to one. Without the naming rule they do not: a RoleBinding with no namespace would
      share its key with the ClusterRoleBinding of the same name, and no other pair of objects shares one. */
  lemma KeysCorrespond(id: ObjectId, other: ObjectId, k: BindingKey)
    ensures WellNamed(IdOf(k)) && KeyOf(IdOf(k)) == k
    ensures IdOf(KeyOf(id)) == id <==> WellNamed(id)
    ensures id != other ==> (KeyOf(id) == KeyOf(other) <==>
                             id.cluster == other.cluster && id.name == other.name
                             && ((id.ClusterRoleBinding? && other.RoleBinding? && other.namespace == "")
                                 || (other.ClusterRoleBinding? && id.RoleBinding? && id.namespace == "")))
  {
    assert IdOf(KeyOf(id)) == id <==> !(id.RoleBinding? && id.namespace == "");
  }

  /** What a read of one object tells. */
  datatype Observation = Present(subjects: seq<RbacSubject>) | Absent
  datatype ReadResult = Observed(observation: Observation) | ReadFailed

  /** The event a worker publishes for what it read. */
  function EventFor(base: string, id: ObjectId, observation: Observation): Event {
    match observation
    case Present(subjects) =>
      ApplyBinding(KeyOf(id), Translation(subjects, KeyOf(id).namespace), EndpointFor(base, id.cluster))
    case Absent => RemoveBinding(KeyOf(id))
  }

  /** What the index stores for an object with these subjects. */
  function StateFor(base: string, id: ObjectId, subjects: seq<RbacSubject>): BindingState {
    BindingState(Translation(subjects, KeyOf(id).namespace), EndpointFor(base, id.cluster))
  }

  function ListOf(e: Option<Event>): seq<Event> {
    match e
    case None => []
    case Some(event) => [event]
  }

  // ---- Informer payloads ----

  datatype Meta = Meta(clusterAnnotation: string, namespace: string, name: string, subjects: seq<RbacSubject>)

  /** What an informer hands to a handler: an object of the expected type, the tombstone of a missed deletion (holding
      the last known object, if that has the expected type), or something else. */
  datatype Payload = Typed(obj: Meta) | Tombstone(last: Option<Meta>) | Foreign

  const FALLBACK_CLUSTER: Cluster := "root"

  function TypedFromEvent(payload: Payload, deleted: bool): Option<(Meta, bool)> {
    match payload
    case Typed(obj) => Some((obj, deleted))
    case Tombstone(Some(obj)) => Some((obj, true))
    case Tombstone(None) => None
    case Foreign => None
  }

  function ClusterOf(obj: Meta): Cluster {
    if obj.clusterAnnotation == "" then FALLBACK_CLUSTER else obj.clusterAnnotation
  }

  function HandlerEvent(base: string, id: Meta -> ObjectId, payload: Payload, deleted: bool): Option<Event> {
    match payload
    case Typed(obj) => Some(EventFor(base, id(obj), if deleted then Absent else Present(obj.subjects)))
    case Tombstone(Some(obj)) => Some(EventFor(base, id(obj), Absent))
    case _ => None
  }

  function CrbId(obj: Meta): ObjectId {
    ClusterRoleBinding(ClusterOf(obj), obj.name)
  }

  function RbId(obj: Meta): ObjectId {
    RoleBinding(ClusterOf(obj), obj.namespace, obj.name)
  }

  class Provider {
    const endpointBaseURL: string
    const translator: Translator
    var engaged: set<Cluster>

    /** The translator is sound, and every event it has seen came with the provider's own URLs. */
    ghost predicate Valid()
      reads this, translator, translator.g
    {
      translator.Valid() && AllFromBase(endpointBaseURL, translator.history)
    }

    /** A provider started on a graph: it builds its own translator. */
    constructor (endpointBaseURL: string, g: AccessGraph.Graph)
      ensures this.endpointBaseURL == endpointBaseURL && translator.g == g && engaged == {} && fresh(translator)
      ensures g.Valid() && g.State() == EMPTY_GRAPH ==> Valid()
    {
      this.endpointBaseURL := endpointBaseURL;
      var t := new Translator(g);
      translator := t;
      engaged := {};
    }

    /** The event has been published and settled, and it is all that happened. */
    twostate predicate Handled(e: Event)
      reads this, translator, translator.g
    {
      && translator.State() == Settle(old(translator.State()), e)
      && translator.history == old(translator.history) + [e]
      && Published(old(translator.bindings), e, old(translator.g.calls), translator.g.calls)
    }

    /** Nothing has happened: no binding, no edge, no endpoint changed, no graph call was made. */
    twostate predicate Untouched()
      reads this, translator, translator.g
    {
      && translator.State() == old(translator.State())
      && translator.history == old(translator.history)
      && translator.g.calls == old(translator.g.calls)
    }

    method ApplyObject(id: ObjectId, subjects: seq<RbacSubject>)
      requires Valid()
      modifies translator, translator.g`access, translator.g`endpoints, translator.g`calls
      ensures Valid()
      ensures Handled(EventFor(endpointBaseURL, id, Present(subjects)))
    {
      var translated := TranslateSubjects(subjects, if id.RoleBinding? then id.namespace else "");
      ghost var e := ApplyBinding(KeyOf(id), translated, EndpointFor(endpointBaseURL, id.cluster));
      assert e == EventFor(endpointBaseURL, id, Present(subjects)) && FromBase(endpointBaseURL, e);
      translator.Apply(KeyOf(id), translated, EndpointFor(endpointBaseURL, id.cluster));
    }

    /** One reconcile of either controller: look the cluster up, read the object, publish. Only an object that was
        looked for and found missing is removed; a cluster that is not known and a read that fails change nothing. */
    method Reconcile(id: ObjectId, clusterKnown: bool, read: ReadResult) returns (failed: bool)
      requires Valid()
      modifies translator, translator.g`access, translator.g`endpoints, translator.g`calls
      ensures Valid()
      ensures failed <==> !clusterKnown || read.ReadFailed?
      ensures failed ==> Untouched()
      ensures clusterKnown && read == Observed(Absent) ==> Handled(RemoveBinding(KeyOf(id)))
      ensures clusterKnown && read.Observed? && read.observation.Present? ==>
                var namespace := if id.RoleBinding? then id.namespace else "";
                Handled(ApplyBinding(KeyOf(id), Translation(read.observation.subjects, namespace),
                                     EndpointFor(endpointBaseURL, id.cluster)))
    {
      if !clusterKnown || read.ReadFailed? {
        return true;
      }
      match read.observation
      case Absent =>
        translator.Remove(KeyOf(id));
        failed := false;
      case Present(subjects) =>
        ApplyObject(id, subjects);
        failed := false;
    }

    method OnCRB(payload: Payload, deleted: bool)
      requires Valid()
      modifies translator, translator.g`access, translator.g`endpoints, translator.g`calls
      ensures Valid()
      ensures match payload
              case Typed(obj) =>
                var cluster := if obj.clusterAnnotation == "" then "root" else obj.clusterAnnotation;
                if deleted then Handled(RemoveBinding(BindingKey(cluster, "", obj.name)))
                else Handled(ApplyBinding(BindingKey(cluster, "", obj.name),
                                          Translation(obj.subjects, ""),
                                          EndpointFor(endpointBaseURL, cluster)))
              case Tombstone(Some(obj)) =>
                var cluster := if obj.clusterAnnotation == "" then "root" else obj.clusterAnnotation;
                Handled(RemoveBinding(BindingKey(cluster, "", obj.name)))
              case _ => Untouched()
      ensures translator.history ==
              old(translator.history) + ListOf(HandlerEvent(endpointBaseURL, CrbId, payload, deleted))
    {
      var typed := TypedFromEvent(payload, deleted);
      if typed.None? {
        return;
      }
      var (crb, gone) := typed.value;
      var cluster := ClusterOf(crb);
      if gone {
        translator.Remove(KeyOf(ClusterRoleBinding(cluster, crb.name)));
        return;
      }
      ApplyObject(ClusterRoleBinding(cluster, crb.name), crb.subjects);
    }

    method OnRB(payload: Payload, deleted: bool)
      requires Valid()
      modifies translator, translator.g`access, translator.g`endpoints, translator.g`calls
      ensures Valid()
      ensures match payload
              case Typed(obj) =>
                var cluster := if obj.clusterAnnotation == "" then "root" else obj.clusterAnnotation;
                if deleted then Handled(RemoveBinding(BindingKey(cluster, obj.namespace, obj.name)))
                else Handled(ApplyBinding(BindingKey(cluster, obj.namespace, obj.name),
                                          Translation(obj.subjects, obj.namespace),
                                          EndpointFor(endpointBaseURL, cluster)))
              case Tombstone(Some(obj)) =>
                var cluster := if obj.clusterAnnotation == "" then "root" else obj.clusterAnnotation;
                Handled(RemoveBinding(BindingKey(cluster, obj.namespace, obj.name)))
              case _ => Untouched()
      ensures translator.history ==
              old(translator.history) + ListOf(HandlerEvent(endpointBaseURL, RbId, payload, deleted))
    {
      var typed := TypedFromEvent(payload, deleted);
      if typed.None? {
        return;
      }
      var (rb, gone) := typed.value;
      var cluster := ClusterOf(rb);
      if gone {
        translator.Remove(KeyOf(RoleBinding(cluster, rb.namespace, rb.name)));
        return;
      }
      ApplyObject(RoleBinding(cluster, rb.namespace, rb.name), rb.subjects);
    }

    method OnAdd(cluster: Cluster)
      modifies this`engaged
      ensures engaged == old(engaged) + if cluster == "" then {} else {cluster}
    {
      if cluster == "" {
        return;
      }
      engaged := engaged + {cluster};
    }

    method OnDelete(cluster: Cluster)
      requires Valid()
      modifies this`engaged, translator, translator.g`access, translator.g`endpoints, translator.g`calls
      ensures Valid()
      ensures engaged == old(engaged) - if cluster == "" then {} else {cluster}
      ensures if cluster == "" then Untouched() else Handled(ForgetCluster(cluster))
    {
      if cluster == "" {
        return;
      }
      engaged := engaged - {cluster};
      translator.Forget(cluster);
    }

    /** Once the caches have synced, or at once when there is nothing to watch, queries are let through. */
    method MarkReady()
      requires Valid()
      modifies translator.g`ready
      ensures Valid() && translator.g.ready && translator.State() == old(translator.State())
    {
      translator.g.SetReady();
    }
  }
}
