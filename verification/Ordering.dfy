/** The order the source sorts by: Go compares strings lexicographically.
    Source: the sort calls in pkg/graph/graph.go and pkg/graph/query.go. */
module Ordering {

  /** Strict lexicographic order on strings. */
  predicate Less(a: string, b: string) {
    b != [] && (a == [] || a[0] < b[0] || (a[0] == b[0] && Less(a[1..], b[1..])))
  }

  /** The order as Go defines it: at the first difference the smaller character, or the shorter of two texts that differ
      nowhere else. */
  lemma {:induction false} LessIff(a: string, b: string)
    ensures Less(a, b) <==>
            exists k :: 0 <= k <= |a| && k < |b| && a[..k] == b[..k] && (k == |a| || a[k] < b[k])
  {
    if Less(a, b) {
      var k := FirstDifference(a, b);
    }
    if k: int :| 0 <= k <= |a| && k < |b| && a[..k] == b[..k] && (k == |a| || a[k] < b[k]) {
      DifferenceDecides(a, b, k);
    }
  }

  lemma {:induction false} FirstDifference(a: string, b: string) returns (k: nat)
    requires Less(a, b)
    ensures k <= |a| && k < |b| && a[..k] == b[..k] && (k == |a| || a[k] < b[k])
  {
    if a == [] || a[0] < b[0] {
      k := 0;
    } else {
      k := FirstDifference(a[1..], b[1..]);
      k := k + 1;
      assert a[..k] == [a[0]] + a[1..][..k - 1] && b[..k] == [b[0]] + b[1..][..k - 1];
    }
  }

  lemma {:induction false} DifferenceDecides(a: string, b: string, k: nat)
    requires k <= |a| && k < |b| && a[..k] == b[..k] && (k == |a| || a[k] < b[k])
    ensures Less(a, b)
  {
    if k > 0 {
      assert a[0] == a[..k][0] == b[..k][0] == b[0];
      assert a[1..][..k - 1] == a[..k][1..] == b[..k][1..] == b[1..][..k - 1];
      DifferenceDecides(a[1..], b[1..], k - 1);
    }
  }

  lemma LessIrreflexive(a: string)
    ensures !Less(a, a)
  {
  }

  lemma {:induction false} LessTransitive(a: string, b: string, c: string)
    requires Less(a, b) && Less(b, c)
    ensures Less(a, c)
  {
    if a != [] && a[0] == b[0] && b[0] == c[0] {
      LessTransitive(a[1..], b[1..], c[1..]);
    }
  }

  lemma {:induction false} LessTotal(a: string, b: string)
    ensures a == b || Less(a, b) || Less(b, a)
  {
    if a != [] && b != [] && a[0] == b[0] {
      LessTotal(a[1..], b[1..]);
      assert a == [a[0]] + a[1..] && b == [b[0]] + b[1..];
    }
  }

  /** Strictly increasing along a key: sorted and without repetition. */
  ghost predicate Increasing<T>(key: T -> string, s: seq<T>) {
    forall i, j :: 0 <= i < j < |s| ==> Less(key(s[i]), key(s[j]))
  }

  /** Insertion into a list that stays increasing when the new key is not in it yet. */
  function Insert<T>(key: T -> string, x: T, s: seq<T>): seq<T> {
    if s == [] || Less(key(x), key(s[0])) then [x] + s
    else [s[0]] + Insert(key, x, s[1..])
  }

  /** A stand-in for the library sort. Distinct keys leave only one sorted order (IncreasingUnique), so which
      algorithm sorts does not matter. */
  function SortBy<T>(key: T -> string, s: seq<T>): seq<T> {
    if s == [] then [] else Insert(key, s[0], SortBy(key, s[1..]))
  }

  ghost predicate DistinctKeys<T>(key: T -> string, s: seq<T>) {
    forall i, j :: 0 <= i < j < |s| ==> key(s[i]) != key(s[j])
  }

  lemma {:induction false} InsertKeepsIncreasing<T(!new)>(key: T -> string, x: T, s: seq<T>)
    requires Increasing(key, s)
    requires forall y :: y in s ==> key(y) != key(x)
    ensures Increasing(key, Insert(key, x, s))
    ensures forall y :: y in Insert(key, x, s) <==> y == x || y in s
    ensures |Insert(key, x, s)| == |s| + 1
  {
    if s == [] {
    } else if Less(key(x), key(s[0])) {
      forall j | 0 < j < |s| ensures Less(key(x), key(s[j])) {
        LessTransitive(key(x), key(s[0]), key(s[j]));
      }
    } else {
      InsertKeepsIncreasing(key, x, s[1..]);
      var rest := Insert(key, x, s[1..]);
      assert s[0] in s;
      LessTotal(key(x), key(s[0]));
      forall j | 0 <= j < |rest| ensures Less(key(s[0]), key(rest[j])) {
        assert rest[j] in rest;
        if rest[j] != x {
          assert rest[j] in s[1..];
          var k :| 0 <= k < |s[1..]| && s[1..][k] == rest[j];
          assert s[k + 1] == rest[j];
        }
      }
      assert s == [s[0]] + s[1..];
    }
  }

  /** Sorting by distinct keys gives the same elements in strictly increasing order. */
  lemma {:induction false} SortByIncreasing<T(!new)>(key: T -> string, s: seq<T>)
    requires DistinctKeys(key, s)
    ensures Increasing(key, SortBy(key, s))
    ensures forall y :: y in SortBy(key, s) <==> y in s
    ensures |SortBy(key, s)| == |s|
  {
    if s != [] {
      SortByIncreasing(key, s[1..]);
      forall y | y in SortBy(key, s[1..]) ensures key(y) != key(s[0]) {
        assert y in s[1..];
        var k :| 0 <= k < |s[1..]| && s[1..][k] == y;
        assert s[k + 1] == y;
      }
      InsertKeepsIncreasing(key, s[0], SortBy(key, s[1..]));
      assert s == [s[0]] + s[1..];
    }
  }

  /** A set of elements has at most one increasing enumeration. */
  lemma {:induction false} IncreasingUnique<T(!new)>(key: T -> string, s: seq<T>, t: seq<T>)
    requires Increasing(key, s) && Increasing(key, t)
    requires forall x :: x in s <==> x in t
    ensures s == t
  {
    assert forall k :: 0 <= k < |s| ==> s[k] in t;
    assert forall k :: 0 <= k < |t| ==> t[k] in s;
    if s != [] && t != [] {
      HeadIsLeast(key, s, t);
      HeadIsLeast(key, t, s);
      if s[0] != t[0] {
        LessTransitive(key(s[0]), key(t[0]), key(s[0]));
        LessIrreflexive(key(s[0]));
        assert false;
      }
      TailHasTheRest(key, s);
      TailHasTheRest(key, t);
      IncreasingUnique(key, s[1..], t[1..]);
      assert s == [s[0]] + s[1..] && t == [t[0]] + t[1..];
    }
  }

  lemma TailHasTheRest<T(!new)>(key: T -> string, s: seq<T>)
    requires Increasing(key, s) && s != []
    ensures forall x :: x in s[1..] <==> x in s && x != s[0]
  {
    LessIrreflexive(key(s[0]));
    assert s == [s[0]] + s[1..];
    assert forall k :: 0 <= k < |s[1..]| ==> s[1..][k] == s[k + 1];
  }

  lemma HeadIsLeast<T(!new)>(key: T -> string, s: seq<T>, t: seq<T>)
    requires Increasing(key, s) && s != [] && t != []
    requires forall x :: x in t ==> x in s
    ensures s[0] == t[0] || Less(key(s[0]), key(t[0]))
  {
    assert t[0] in t;
    var k :| 0 <= k < |s| && s[k] == t[0];
  }
}
