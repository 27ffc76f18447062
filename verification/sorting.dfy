/** Sorting by an integer key, standing for the library's unstable in-place sort. */
module Sorting {

  ghost predicate SortedBy<A>(s: seq<A>, key: A -> int) {
    forall i, j | 0 <= i < j < |s| :: key(s[i]) <= key(s[j])
  }

  ghost predicate DistinctKeys<A>(s: seq<A>, key: A -> int) {
    forall i, j | 0 <= i < j < |s| :: key(s[i]) != key(s[j])
  }

  lemma SameMembers<A>(a: seq<A>, b: seq<A>)
    requires multiset(a) == multiset(b)
    ensures forall x :: x in a <==> x in b
  {
    forall x
      ensures x in a <==> x in b
    {
      assert x in a <==> x in multiset(a);
    }
  }

  function InsertByKey<A>(x: A, s: seq<A>, key: A -> int): (r: seq<A>)
    ensures multiset(r) == multiset{x} + multiset(s) && |r| == |s| + 1
  {
    if s == [] || key(x) <= key(s[0]) then [x] + s
    else
      assert s == [s[0]] + s[1..];
      [s[0]] + InsertByKey(x, s[1..], key)
  }

  lemma {:induction false} InsertKeepsSorted<A>(x: A, s: seq<A>, key: A -> int, least: int)
    requires SortedBy(s, key) && least <= key(x) && forall i | 0 <= i < |s| :: least <= key(s[i])
    ensures SortedBy(InsertByKey(x, s, key), key)
    ensures forall i | 0 <= i <= |s| :: least <= key(InsertByKey(x, s, key)[i])
  {
    if s != [] && key(x) > key(s[0]) {
      InsertKeepsSorted(x, s[1..], key, key(s[0]));
    }
  }

  function SortByKey<A>(s: seq<A>, key: A -> int): (r: seq<A>)
    ensures SortedBy(r, key) && multiset(r) == multiset(s) && |r| == |s|
  {
    if s == [] then []
    else
      assert s == [s[0]] + s[1..];
      var rest := SortByKey(s[1..], key);
      InsertKeepsSorted(s[0], rest, key, if rest == [] || key(s[0]) <= key(rest[0]) then key(s[0]) else key(rest[0]));
      InsertByKey(s[0], rest, key)
  }

  lemma SameLeast<A>(a: seq<A>, b: seq<A>, key: A -> int)
    requires SortedBy(a, key) && SortedBy(b, key) && multiset(a) == multiset(b) && DistinctKeys(a, key) && a != []
    ensures b != [] && a[0] == b[0]
  {
    SameMembers(a, b);
    assert a[0] in a;
    var i :| 0 <= i < |b| && b[i] == a[0];
    assert b[0] in b;
    var j :| 0 <= j < |a| && a[j] == b[0];
  }

  lemma NoMembers<A>(s: seq<A>)
    requires multiset(s) == multiset{}
    ensures s == []
  {
    assert |multiset(s)| == |s|;
  }

  lemma SameTails<A>(a: seq<A>, b: seq<A>)
    requires a != [] && b != [] && a[0] == b[0] && multiset(a) == multiset(b)
    ensures multiset(a[1..]) == multiset(b[1..])
  {
    assert a == [a[0]] + a[1..] && b == [b[0]] + b[1..];
    assert multiset(a) == multiset{a[0]} + multiset(a[1..]) && multiset(b) == multiset{b[0]} + multiset(b[1..]);
    assert multiset(a[1..]) == multiset(a) - multiset{a[0]} && multiset(b[1..]) == multiset(b) - multiset{b[0]};
  }

  lemma TailKeys<A>(s: seq<A>, key: A -> int)
    requires s != []
    ensures SortedBy(s, key) ==> SortedBy(s[1..], key)
    ensures DistinctKeys(s, key) ==> DistinctKeys(s[1..], key)
  {}

  /** With distinct keys there is only one sorted permutation, so it does not matter which sorting
      algorithm produced it or how it treats ties. */
  lemma {:induction false} SortedPermutationIsUnique<A>(a: seq<A>, b: seq<A>, key: A -> int)
    requires SortedBy(a, key) && SortedBy(b, key) && multiset(a) == multiset(b) && DistinctKeys(a, key)
    ensures a == b
  {
    hide SortedBy, DistinctKeys;
    if a == [] {
      NoMembers(b);
    } else {
      SameLeast(a, b, key);
      SameTails(a, b);
      TailKeys(a, key);
      TailKeys(b, key);
      SortedPermutationIsUnique(a[1..], b[1..], key);
      assert a == [a[0]] + a[1..] && b == [b[0]] + b[1..];
    }
  }

  /** A permutation of a sequence with distinct keys has distinct keys. */
  lemma DistinctPermutation<A>(a: seq<A>, b: seq<A>, key: A -> int)
    requires multiset(a) == multiset(b) && DistinctKeys(a, key)
    ensures DistinctKeys(b, key)
  {
    SameMembers(a, b);
    forall i, j | 0 <= i < j < |b|
      ensures key(b[i]) != key(b[j])
    {
      if key(b[i]) == key(b[j]) {
        assert b[i] in a && b[j] in a by { assert b[i] in b && b[j] in b; }
        var p :| 0 <= p < |a| && a[p] == b[i];
        var q :| 0 <= q < |a| && a[q] == b[j];
        assert p == q && b[i] == b[j];
        DistinctOnce(a, p, key);
        TwiceThere(b, i, j);
      }
    }
  }

  lemma DistinctOnce<A>(a: seq<A>, p: nat, key: A -> int)
    requires p < |a| && DistinctKeys(a, key)
    ensures multiset(a)[a[p]] == 1
  {
    assert a == a[..p] + [a[p]] + a[p + 1..];
    assert a[p] !in a[..p] && a[p] !in a[p + 1..];
  }

  lemma TwiceThere<A>(b: seq<A>, i: nat, j: nat)
    requires i < j < |b| && b[i] == b[j]
    ensures multiset(b)[b[i]] >= 2
  {
    assert b == b[..i] + [b[i]] + b[i + 1..j] + [b[j]] + b[j + 1..];
  }
}
