/** RBAC subjects as they appear in bindings, and the identities they are indexed under.
    Source: pkg/rbacprovider/translator.go, pkg/graph/graph.go (Subject). */
module Rbac {
  import opened Wrappers

  /** An identity in the access graph. The kind is a plain string, as in the source. */
  datatype Subject = Subject(kind: string, name: string)

  /** A subject as written in a ClusterRoleBinding or RoleBinding. */
  datatype RbacSubject = RbacSubject(kind: string, name: string, namespace: string)

  const USER_KIND: string := "User"
  const GROUP_KIND: string := "Group"
  const SERVICE_ACCOUNT_KIND: string := "ServiceAccount"
  const SERVICE_ACCOUNT_PREFIX: string := "system:serviceaccount:"

  function User(name: string): Subject {
    Subject(USER_KIND, name)
  }

  function Group(name: string): Subject {
    Subject(GROUP_KIND, name)
  }

  /** The namespace a service-account subject resolves in. */
  function EffectiveNamespace(rs: RbacSubject, defaultNamespace: string): string {
    if rs.namespace == "" then defaultNamespace else rs.namespace
  }

  function TranslateSubject(rs: RbacSubject, defaultNamespace: string): Option<Subject> {
    if rs.kind == USER_KIND then
      Some(User(rs.name))
    else if rs.kind == GROUP_KIND then
      Some(Group(rs.name))
    else if rs.kind == SERVICE_ACCOUNT_KIND then
      var namespace := EffectiveNamespace(rs, defaultNamespace);
      if namespace == "" then None
      else Some(User(SERVICE_ACCOUNT_PREFIX + namespace + ":" + rs.name))
    else
      None
  }

  /** The subject, written in a binding of this namespace ("" for none), stands for the identity: the texts by which
      callers and bindings agree on who is meant. */
  ghost predicate Denotes(rs: RbacSubject, bindingNamespace: string, s: Subject) {
    || (rs.kind == "User" && s == Subject("User", rs.name))
    || (rs.kind == "Group" && s == Subject("Group", rs.name))
    || (rs.kind == "ServiceAccount" && s.kind == "User"
        && exists namespace: string ::
             && namespace != "" && (rs.namespace == namespace || (rs.namespace == "" && bindingNamespace == namespace))
             && s.name == "system:serviceaccount:" + namespace + ":" + rs.name)
  }

  /** Resolution by kind. Users and groups keep their name in every namespace; an account is named by its own namespace,
      whatever the binding's, and by the binding's where it leaves its own out; nothing else stands for anybody. */
  lemma ResolutionByKind(name: string, namespace: string, bindingNamespace: string, kind: string)
    ensures TranslateSubject(RbacSubject("User", name, namespace), bindingNamespace) == Some(Subject("User", name))
    ensures TranslateSubject(RbacSubject("Group", name, namespace), bindingNamespace) == Some(Subject("Group", name))
    ensures namespace != "" ==>
              TranslateSubject(RbacSubject("ServiceAccount", name, namespace), bindingNamespace) ==
              Some(Subject("User", "system:serviceaccount:" + namespace + ":" + name))
    ensures TranslateSubject(RbacSubject("ServiceAccount", name, ""), bindingNamespace) ==
            TranslateSubject(RbacSubject("ServiceAccount", name, bindingNamespace), bindingNamespace)
    ensures TranslateSubject(RbacSubject("ServiceAccount", name, ""), "") == None
    ensures kind !in {"User", "Group", "ServiceAccount"} ==>
              TranslateSubject(RbacSubject(kind, name, namespace), bindingNamespace) == None
  {
  }

  lemma ResolvesIffDenotes(rs: RbacSubject, bindingNamespace: string, s: Subject)
    ensures TranslateSubject(rs, bindingNamespace) == Some(s) <==> Denotes(rs, bindingNamespace, s)
  {
    ResolutionByKind(rs.name, rs.namespace, bindingNamespace, rs.kind);
    if rs.kind == "ServiceAccount" && rs.namespace == "" && bindingNamespace != "" {
      ResolutionByKind(rs.name, bindingNamespace, bindingNamespace, rs.kind);
    }
  }

  ghost predicate NoDuplicates<T>(s: seq<T>) {
    forall i, j :: 0 <= i < j < |s| ==> s[i] != s[j]
  }

  /** The identities a subject list resolves to, as a set: no order, no multiplicity. */
  ghost function Resolved(input: seq<RbacSubject>, defaultNamespace: string): set<Subject> {
    set rs | rs in input && TranslateSubject(rs, defaultNamespace).Some? :: TranslateSubject(rs, defaultNamespace).value
  }

  /** The translated list: first occurrences of the resolvable identities, in input order. */
  function Translation(input: seq<RbacSubject>, defaultNamespace: string): seq<Subject> {
    if input == [] then
      []
    else
      var before := Translation(input[..|input| - 1], defaultNamespace);
      match TranslateSubject(input[|input| - 1], defaultNamespace)
      case None => before
      case Some(s) => if s in before then before else before + [s]
  }

  method TranslateSubjects(input: seq<RbacSubject>, defaultNamespace: string) returns (out: seq<Subject>)
    ensures out == Translation(input, defaultNamespace)
    ensures NoDuplicates(out)
    ensures forall s :: s in out <==> exists rs :: rs in input && Denotes(rs, defaultNamespace, s)
  {
    var seen: set<Subject> := {};
    out := [];
    var i := 0;
    while i < |input|
      invariant 0 <= i <= |input|
      invariant out == Translation(input[..i], defaultNamespace)
      invariant forall s :: s in seen <==> s in out
    {
      assert input[..i + 1][..i] == input[..i];
      var t := TranslateSubject(input[i], defaultNamespace);
      i := i + 1;
      if t.None? {
        continue;
      }
      if t.value in seen {
        continue;
      }
      seen := seen + {t.value};
      out := out + [t.value];
    }
    assert input[..|input|] == input;
    TranslationIsResolved(input, defaultNamespace);
    ResolvedAreDenoted(input, defaultNamespace);
  }

  /** A list resolves to whoever one of its subjects denotes. */
  lemma ResolvedAreDenoted(input: seq<RbacSubject>, bindingNamespace: string)
    ensures forall s ::
              s in Resolved(input, bindingNamespace) <==> exists rs :: rs in input && Denotes(rs, bindingNamespace, s)
  {
    forall rs, s
      ensures TranslateSubject(rs, bindingNamespace) == Some(s) <==> Denotes(rs, bindingNamespace, s)
    {
      ResolvesIffDenotes(rs, bindingNamespace, s);
    }
  }

  /** Identities come in the order in which the subjects first name them: more subjects only add at the end. */
  lemma {:induction false} TranslationExtends(input: seq<RbacSubject>, more: seq<RbacSubject>, bindingNamespace: string)
    ensures Translation(input, bindingNamespace) <= Translation(input + more, bindingNamespace)
  {
    if more == [] {
      assert input + more == input;
    } else {
      var front := more[..|more| - 1];
      assert (input + more)[..|input + more| - 1] == input + front;
      TranslationExtends(input, front, bindingNamespace);
    }
  }

  /** Translation drops exactly the unresolvable subjects and the repetitions. */
  lemma {:induction false} TranslationIsResolved(input: seq<RbacSubject>, defaultNamespace: string)
    ensures NoDuplicates(Translation(input, defaultNamespace))
    ensures forall s :: s in Translation(input, defaultNamespace) <==> s in Resolved(input, defaultNamespace)
  {
    if input != [] {
      var front, last := input[..|input| - 1], input[|input| - 1];
      assert input == front + [last];
      TranslationIsResolved(front, defaultNamespace);
      assert forall rs :: rs in input <==> rs in front || rs == last;
    }
  }

  predicate KnownKind(s: Subject) {
    s.kind == USER_KIND || s.kind == GROUP_KIND
  }

  /** Whatever kinds a binding mentions, only users and groups are indexed. */
  lemma TranslationKinds(input: seq<RbacSubject>, defaultNamespace: string)
    ensures forall s :: s in Translation(input, defaultNamespace) ==> KnownKind(s)
  {
    TranslationIsResolved(input, defaultNamespace);
  }

  /** Two texts cut at their first separator agree only if both parts agree. */
  lemma {:induction false} FirstSeparatorSplits(a: string, x: string, b: string, y: string)
    requires ':' !in a && ':' !in b
    requires a + ":" + x == b + ":" + y
    ensures a == b && x == y
  {
    assert (a + ":" + x)[|a|] == ':' && (b + ":" + y)[|b|] == ':';
    assert a == (a + ":" + x)[..|a|] == (b + ":" + y)[..|b|] == b;
    assert x == (a + ":" + x)[|a| + 1..] == (b + ":" + y)[|b| + 1..] == y;
  }

  /** Service accounts share an identity exactly when "namespace:name" reads the same, which for namespaces without a
      colon means the same account. None is indexed without a namespace, and the identity with an empty namespace is
      taken only by a namespace that begins with a colon. */
  lemma ServiceAccountIdentity(p: RbacSubject, q: RbacSubject, defaultP: string, defaultQ: string)
    requires p.kind == SERVICE_ACCOUNT_KIND && q.kind == SERVICE_ACCOUNT_KIND
    ensures TranslateSubject(p, defaultP).None? <==> EffectiveNamespace(p, defaultP) == ""
    ensures TranslateSubject(p, defaultP).Some? && TranslateSubject(q, defaultQ).Some? ==>
              (TranslateSubject(p, defaultP) == TranslateSubject(q, defaultQ) <==>
               EffectiveNamespace(p, defaultP) + ":" + p.name == EffectiveNamespace(q, defaultQ) + ":" + q.name)
    ensures && TranslateSubject(p, defaultP).Some?
            && ':' !in EffectiveNamespace(p, defaultP) && ':' !in EffectiveNamespace(q, defaultQ) ==>
              (TranslateSubject(p, defaultP) == TranslateSubject(q, defaultQ) <==>
               EffectiveNamespace(p, defaultP) == EffectiveNamespace(q, defaultQ) && p.name == q.name)
    ensures TranslateSubject(p, defaultP).Some? ==>
              ((exists name :: TranslateSubject(p, defaultP).value == UnresolvedAccount(name)) <==>
               EffectiveNamespace(p, defaultP)[0] == ':')
  {
    var np, nq := EffectiveNamespace(p, defaultP), EffectiveNamespace(q, defaultQ);
    var prefix := SERVICE_ACCOUNT_PREFIX;
    assert prefix + np + ":" + p.name == prefix + (np + ":" + p.name);
    assert prefix + nq + ":" + q.name == prefix + (nq + ":" + q.name);
    PrefixCancels(prefix, np + ":" + p.name, nq + ":" + q.name);
    if ':' !in np && ':' !in nq && np + ":" + p.name == nq + ":" + q.name {
      FirstSeparatorSplits(np, p.name, nq, q.name);
    }
    if np != "" {
      if np[0] == ':' {
        var name := np[1..] + ":" + p.name;
        assert np == ":" + np[1..];
        assert prefix + np + ":" + p.name == prefix + ":" + name;
        assert TranslateSubject(p, defaultP).value == UnresolvedAccount(name);
      } else {
        forall name ensures TranslateSubject(p, defaultP).value != UnresolvedAccount(name) {
          assert (prefix + ":" + name)[|prefix|] == ':';
          assert (prefix + np + ":" + p.name)[|prefix|] == np[0];
        }
      }
    }
  }

  /** The identity a service account without a namespace would have: nobody can authenticate as it. */
  function UnresolvedAccount(name: string): Subject {
    User(SERVICE_ACCOUNT_PREFIX + ":" + name)
  }

  lemma PrefixCancels(prefix: string, x: string, y: string)
    ensures prefix + x == prefix + y <==> x == y
  {
    assert (prefix + x)[|prefix|..] == x && (prefix + y)[|prefix|..] == y;
  }

  /** With a colon in a namespace two accounts can share an identity. */
  lemma AccountsCanCollide()
    ensures TranslateSubject(RbacSubject(SERVICE_ACCOUNT_KIND, "c", "a:b"), "") ==
            TranslateSubject(RbacSubject(SERVICE_ACCOUNT_KIND, "b:c", "a"), "")
  {
    var prefix := SERVICE_ACCOUNT_PREFIX;
    assert "a:b" + ":" + "c" == "a:b:c" == "a" + ":" + "b:c";
    assert prefix + "a:b" + ":" + "c" == prefix + ("a:b" + ":" + "c");
    assert prefix + "a" + ":" + "b:c" == prefix + ("a" + ":" + "b:c");
  }
}
