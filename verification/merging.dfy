/** Sorting claims on shared things and merging those on the same thing: the Core ML provider does
    this to the buffers of a submission and to the feature slots of a program. */
module Merging {
  import opened Sorting

  /** One claim on `key`; merged claims have the union of the access modes. */
  datatype Claim = Claim(key: nat, read: bool, write: bool)

  function KeyOf(c: Claim): int { c.key }

  ghost predicate Names(s: seq<Claim>, key: nat) { exists i | 0 <= i < |s| :: s[i].key == key }

  ghost predicate Reads(s: seq<Claim>, key: nat) { exists i | 0 <= i < |s| :: s[i].key == key && s[i].read }

  ghost predicate Writes(s: seq<Claim>, key: nat) { exists i | 0 <= i < |s| :: s[i].key == key && s[i].write }

  ghost predicate Strict(s: seq<Claim>) { forall i, j | 0 <= i < j < |s| :: s[i].key < s[j].key }

  /** The same access to the same keys. */
  ghost predicate SameClaims(a: seq<Claim>, b: seq<Claim>) {
    && (forall key: nat :: Names(a, key) <==> Names(b, key))
    && (forall key: nat :: Reads(a, key) <==> Reads(b, key))
    && (forall key: nat :: Writes(a, key) <==> Writes(b, key))
  }

  /** Strictly sorted, one claim per key that was claimed, each with every access anyone asked for. */
  ghost predicate MergeOf(claims: seq<Claim>, r: seq<Claim>) { Strict(r) && SameClaims(claims, r) }

  lemma SamePermutation(a: seq<Claim>, b: seq<Claim>)
    requires multiset(a) == multiset(b)
    ensures SameClaims(a, b)
  {
    SameMembers(a, b);
    Contained(a, b);
    Contained(b, a);
  }

  lemma Contained(a: seq<Claim>, b: seq<Claim>)
    requires forall c | c in a :: c in b
    ensures forall key: nat :: Names(a, key) ==> Names(b, key)
    ensures forall key: nat :: Reads(a, key) ==> Reads(b, key)
    ensures forall key: nat :: Writes(a, key) ==> Writes(b, key)
  {
    forall i | 0 <= i < |a|
      ensures exists j :: 0 <= j < |b| && b[j] == a[i]
    {
      assert a[i] in b;
    }
  }

  lemma Extended(s: seq<Claim>, c: Claim)
    ensures forall key: nat :: Names(s + [c], key) <==> Names(s, key) || c.key == key
    ensures forall key: nat :: Reads(s + [c], key) <==> Reads(s, key) || (c.key == key && c.read)
    ensures forall key: nat :: Writes(s + [c], key) <==> Writes(s, key) || (c.key == key && c.write)
  {
    var t := s + [c];
    assert t[|s|] == c && forall i | 0 <= i < |s| :: t[i] == s[i];
  }

  /** The retained claims after meeting `current`: merged into the last one if it has the same key. */
  function MergeInto(r: seq<Claim>, current: Claim): (s: seq<Claim>)
    ensures s != [] && s[|s| - 1].key == current.key && |s| <= |r| + 1
  {
    if r != [] && r[|r| - 1].key == current.key then
      var previous := r[|r| - 1];
      r[..|r| - 1] + [Claim(previous.key, previous.read || current.read, previous.write || current.write)]
    else r + [current]
  }

  lemma MergeNext(s: seq<Claim>, r: seq<Claim>, c: Claim)
    requires MergeOf(s, r) && (r == [] || r[|r| - 1].key <= c.key)
    ensures MergeOf(s + [c], MergeInto(r, c))
  {
    hide Names, Reads, Writes;
    Extended(s, c);
    if r != [] && r[|r| - 1].key == c.key {
      var rest, previous := r[..|r| - 1], r[|r| - 1];
      assert r == rest + [previous];
      Extended(rest, previous);
      Extended(rest, Claim(previous.key, previous.read || c.read, previous.write || c.write));
    } else {
      Extended(r, c);
    }
  }

  method SortAndMerge(claims: seq<Claim>) returns (r: seq<Claim>)
    ensures MergeOf(claims, r) && |r| <= |claims|
  {
    hide SameClaims, Strict, SortByKey, MergeInto;
    var sorted := SortByKey(claims, KeyOf);
    SamePermutation(claims, sorted);
    r := [];
    Nothing(sorted[..0], r);
    for i := 0 to |sorted|
      invariant MergeOf(sorted[..i], r) && (r == [] <==> i == 0) && (i > 0 ==> r[|r| - 1].key == sorted[i - 1].key)
                && |r| <= i
    {
      assert sorted[..i + 1] == sorted[..i] + [sorted[i]];
      assert i > 0 ==> KeyOf(sorted[i - 1]) <= KeyOf(sorted[i]);
      MergeNext(sorted[..i], r, sorted[i]);
      r := MergeInto(r, sorted[i]);
    }
    assert sorted[..|sorted|] == sorted;
    SameTransitive(claims, sorted, r);
  }

  lemma SameTransitive(a: seq<Claim>, b: seq<Claim>, c: seq<Claim>)
    requires SameClaims(a, b) && SameClaims(b, c)
    ensures SameClaims(a, c)
  {
    hide Names, Reads, Writes;
  }

  lemma Nothing(a: seq<Claim>, b: seq<Claim>)
    requires a == [] && b == []
    ensures MergeOf(a, b)
  {}

  /** The last claim of a strict sequence is its greatest key, with its own flags. */
  lemma LastOfStrict(r: seq<Claim>)
    requires Strict(r) && r != []
    ensures var last, rest := r[|r| - 1], r[..|r| - 1];
            && Strict(rest) && !Names(rest, last.key) && Names(r, last.key)
            && (forall key: nat :: Names(r, key) ==> key <= last.key)
            && (Reads(r, last.key) <==> last.read) && (Writes(r, last.key) <==> last.write)
            && (forall key: nat | key != last.key ::
                  && (Names(rest, key) <==> Names(r, key))
                  && (Reads(rest, key) <==> Reads(r, key))
                  && (Writes(rest, key) <==> Writes(r, key)))
  {
    var last, rest := r[|r| - 1], r[..|r| - 1];
    assert r == rest + [last];
    Extended(rest, last);
    assert forall i | 0 <= i < |rest| :: rest[i] == r[i] && r[i].key < last.key;
  }

  /** A merge is determined by what it merges. */
  lemma {:induction false} MergeIsUnique(a: seq<Claim>, b: seq<Claim>)
    requires Strict(a) && Strict(b) && SameClaims(a, b)
    ensures a == b
  {
    if a == [] || b == [] {
      if a != [] { LastOfStrict(a); }
      if b != [] { LastOfStrict(b); }
    } else {
      hide Names, Reads, Writes;
      LastOfStrict(a);
      LastOfStrict(b);
      var x, y := a[|a| - 1], b[|b| - 1];
      assert Names(b, x.key) && Names(a, y.key);
      assert x == y;
      OutsideReads(a, x.key);
      OutsideReads(b, x.key);
      MergeIsUnique(a[..|a| - 1], b[..|b| - 1]);
    }
  }

  lemma OutsideReads(r: seq<Claim>, key: nat)
    requires r != [] && Strict(r) && r[|r| - 1].key == key
    ensures !Reads(r[..|r| - 1], key) && !Writes(r[..|r| - 1], key)
  {}
}
