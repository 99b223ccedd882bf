/**
 * Sorting a slice in place by a string key, as sort.Slice does with a
 * comparator `key(s[i]) < key(s[j])`, and why the outcome is unique when the
 * keys are distinct.
 */
module Sorting {
  import opened Strings

  /** Ascending by key, in Go's string order. */
  ghost predicate SortedBy<T>(s: seq<T>, key: T -> string)
  {
    forall i, j :: 0 <= i < j < |s| ==> LessEq(key(s[i]), key(s[j]))
  }

  /** No two elements share a key. */
  ghost predicate DistinctKeys<T>(s: seq<T>, key: T -> string)
  {
    forall i, j :: 0 <= i < j < |s| ==> key(s[i]) != key(s[j])
  }

  /** The position of an element with the least key in a[lo..]. */
  method IndexOfMin<T>(a: array<T>, key: T -> string, lo: nat) returns (m: nat)
    requires lo < a.Length
    ensures lo <= m < a.Length
    ensures forall q :: lo <= q < a.Length ==> LessEq(key(a[m]), key(a[q]))
  {
    m := lo;
    LessIrreflexive(key(a[lo]));
    var q := lo + 1;
    while q < a.Length
      invariant lo <= m < q <= a.Length
      invariant forall r :: lo <= r < q ==> LessEq(key(a[m]), key(a[r]))
    {
      if Less(key(a[q]), key(a[m])) {
        var x, y := key(a[q]), key(a[m]);
        LessAsymmetric(x, y);
        forall r | lo <= r < q
          ensures LessEq(x, key(a[r]))
        {
          LessEqTransitive(x, y, key(a[r]));
        }
        LessIrreflexive(x);
        m := q;
      }
      q := q + 1;
    }
  }

  /** Reorders a in place so that it is sorted by key. */
  method SortByKey<T>(a: array<T>, key: T -> string)
    modifies a
    ensures SortedBy(a[..], key)
    ensures multiset(a[..]) == old(multiset(a[..]))
  {
    var i := 0;
    while i < a.Length
      invariant 0 <= i <= a.Length
      invariant forall p, q :: 0 <= p < q < i ==> LessEq(key(a[p]), key(a[q]))
      invariant forall p, q :: 0 <= p < i <= q < a.Length ==> LessEq(key(a[p]), key(a[q]))
      invariant multiset(a[..]) == old(multiset(a[..]))
    {
      var m := IndexOfMin(a, key, i);
      a[i], a[m] := a[m], a[i];
      i := i + 1;
    }
  }

  /** Two sorted permutations of one sequence whose keys are distinct are the
      same sequence: the sorted order does not depend on the input order. */
  lemma {:induction false} SortedPermutationUnique<T>(s: seq<T>, t: seq<T>, key: T -> string)
    requires SortedBy(s, key) && SortedBy(t, key)
    requires multiset(s) == multiset(t)
    requires DistinctKeys(s, key)
    ensures s == t
  {
    assert |s| == |multiset(s)| == |multiset(t)| == |t|;
    if |s| > 0 {
      assert s[0] in multiset(t);
      var k :| 0 <= k < |t| && t[k] == s[0];
      assert t[0] in multiset(s);
      var m :| 0 <= m < |s| && s[m] == t[0];
      LessIrreflexive(key(s[0]));
      assert LessEq(key(t[0]), key(s[0]));
      assert LessEq(key(s[0]), key(t[0]));
      LessEqAntisymmetric(key(s[0]), key(t[0]));
      assert m == 0 && s[0] == t[0];
      MultisetOfTail(s);
      MultisetOfTail(t);
      SortedPermutationUnique(s[1..], t[1..], key);
    }
  }

  lemma MultisetOfTail<T>(s: seq<T>)
    requires |s| > 0
    ensures multiset(s[1..]) == multiset(s) - multiset{s[0]}
  {
    assert s == [s[0]] + s[1..];
  }

  /** The same for two sorted sequences without repeated keys that hold the
      same elements. */
  lemma {:induction false} SortedSameElementsUnique<T>(s: seq<T>, t: seq<T>, key: T -> string)
    requires SortedBy(s, key) && SortedBy(t, key)
    requires DistinctKeys(s, key) && DistinctKeys(t, key)
    requires forall x :: x in s <==> x in t
    ensures s == t
  {
    assert |s| > 0 ==> s[0] in t;
    assert |t| > 0 ==> t[0] in s;
    if |s| > 0 {
      assert s[0] in t;
      var k :| 0 <= k < |t| && t[k] == s[0];
      assert t[0] in s;
      var m :| 0 <= m < |s| && s[m] == t[0];
      LessIrreflexive(key(s[0]));
      assert LessEq(key(t[0]), key(s[0]));
      assert LessEq(key(s[0]), key(t[0]));
      LessEqAntisymmetric(key(s[0]), key(t[0]));
      assert m == 0;
      forall x
        ensures x in s[1..] <==> x in t[1..]
      {
        if x in s[1..] {
          var i :| 1 <= i < |s| && s[i] == x;
          assert x != t[0];
          assert x in t;
        }
        if x in t[1..] {
          var j :| 1 <= j < |t| && t[j] == x;
          assert x != s[0];
          assert x in s;
        }
      }
      SortedSameElementsUnique(s[1..], t[1..], key);
      assert s == [s[0]] + s[1..] && t == [t[0]] + t[1..];
    }
  }

  /** Reordering keeps the keys distinct. */
  lemma DistinctKeysPermutation<T>(s: seq<T>, t: seq<T>, key: T -> string)
    requires DistinctKeys(s, key)
    requires multiset(s) == multiset(t)
    ensures DistinctKeys(t, key)
  {
    forall i, j | 0 <= i < j < |t| ensures key(t[i]) != key(t[j]) {
      if key(t[i]) == key(t[j]) {
        assert t[i] in multiset(s) && t[j] in multiset(s);
        var p :| 0 <= p < |s| && s[p] == t[i];
        var q :| 0 <= q < |s| && s[q] == t[j];
        if t[i] == t[j] {
          MultisetCountTwo(t, i, j);
          CountOneInDistinct(s, t[i], key);
        }
      }
    }
  }

  lemma MultisetCountTwo<T>(s: seq<T>, i: nat, j: nat)
    requires i < j < |s| && s[i] == s[j]
    ensures multiset(s)[s[i]] >= 2
  {
    var x := s[i];
    assert s == s[..i] + [x] + s[i+1..j] + [x] + s[j+1..];
    assert multiset(s) == multiset(s[..i]) + multiset{x} + multiset(s[i+1..j]) + multiset{x} + multiset(s[j+1..]);
  }

  lemma {:induction false} CountOneInDistinct<T>(s: seq<T>, x: T, key: T -> string)
    requires DistinctKeys(s, key)
    ensures multiset(s)[x] <= 1
  {
    if |s| > 0 {
      assert s == [s[0]] + s[1..];
      assert multiset(s) == multiset{s[0]} + multiset(s[1..]);
      CountOneInDistinct(s[1..], x, key);
      if x == s[0] {
        assert x !in s[1..];
        assert multiset(s[1..])[x] == 0;
      }
    }
  }
}
