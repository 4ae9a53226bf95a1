/** The reference sets hold one entry for each binding and distinct subject it names, no more and no less.
    Source: pkg/rbacprovider/translator.go (refs, bindings). */
module Conservation {
  import opened Rbac
  import opened GraphSpec
  import opened Index

  /** Every (subject, cluster, key) entry of the nested reference sets. */
  function RefEntries(refs: Refs): set<(Subject, Cluster, BindingKey)> {
    set s, c, k | s in refs && c in refs[s] && k in refs[s][c] :: (s, c, k)
  }

  /** The distinct subjects of every binding, counted binding by binding. */
  ghost function SubjectsCounted(b: Bindings): nat
    decreases |b|
  {
    if b == map[] then 0
    else
      var k :| k in b;
      |SubjectsIn(b[k].subjects)| + SubjectsCounted(b - {k})
  }

  lemma {:induction false} ClaimsOfSize(key: BindingKey, subjects: set<Subject>)
    ensures |ClaimsOf(key, subjects)| == |subjects|
  {
    if subjects == {} {
      assert ClaimsOf(key, subjects) == {};
    } else {
      var s :| s in subjects;
      ClaimsOfSize(key, subjects - {s});
      assert ClaimsOf(key, subjects) == ClaimsOf(key, subjects - {s}) + {Claim(key, s)};
    }
  }

  lemma {:induction false} ClaimsCounted(b: Bindings)
    ensures |Claims(b)| == SubjectsCounted(b)
    decreases |b|
  {
    if b == map[] {
      assert Claims(b) == {};
    } else {
      var k :| k in b && SubjectsCounted(b) == |SubjectsIn(b[k].subjects)| + SubjectsCounted(b - {k});
      ClaimsCounted(b - {k});
      var own := ClaimsOf(k, SubjectsIn(b[k].subjects));
      ClaimsOfSize(k, SubjectsIn(b[k].subjects));
      assert Claims(b) == Claims(b - {k}) + own;
      assert Claims(b - {k}) !! own;
    }
  }

  function EntryOf(x: Claim): (Subject, Cluster, BindingKey) {
    (x.subject, x.key.cluster, x.key)
  }

  lemma {:induction false} EntriesCounted(claims: set<Claim>)
    ensures |set x | x in claims :: EntryOf(x)| == |claims|
  {
    if claims != {} {
      var x :| x in claims;
      EntriesCounted(claims - {x});
      assert (set y | y in claims :: EntryOf(y)) == (set y | y in claims - {x} :: EntryOf(y)) + {EntryOf(x)};
    }
  }

  /** References are conserved: as many entries as the bindings have distinct subjects, so none is left once no
      binding is. */
  lemma ReferencesConserved(refs: Refs, b: Bindings)
    requires RefsMatch(refs, Claims(b))
    ensures |RefEntries(refs)| == SubjectsCounted(b)
    ensures b == map[] ==> refs == map[]
  {
    var claims := Claims(b);
    forall s, c, k ensures (s, c, k) in RefEntries(refs) <==> k.cluster == c && Claim(k, s) in claims {
      assert RefsTo(refs, s, c) == KeysNaming(claims, s, c);
      assert (s, c, k) in RefEntries(refs) <==> k in RefsTo(refs, s, c);
      assert k in KeysNaming(claims, s, c) <==> k.cluster == c && Claim(k, s) in claims;
    }
    assert RefEntries(refs) == set x | x in claims :: EntryOf(x);
    EntriesCounted(claims);
    ClaimsCounted(b);
    if b == map[] {
      assert claims == {};
      assert RefsMatch(map[], {});
      RefsAreDetermined(refs, map[], {});
    }
  }
}
