/** Reordering a sequence: members, pairs of positions and sums carry over. */
module Permutation {

  lemma SameMembers<T>(a: seq<T>, b: seq<T>)
    requires multiset(a) == multiset(b)
    ensures |a| == |b| && forall x :: x in a <==> x in b
  {
    assert |multiset(a)| == |a| && |multiset(b)| == |b|;
    forall x
      ensures x in a <==> x in b
    {
      assert x in a <==> x in multiset(a);
      assert x in b <==> x in multiset(b);
    }
  }

  /** Two positions of `b` come from two different positions of `a`. */
  lemma PairFrom<T>(a: seq<T>, b: seq<T>, i: nat, k: nat) returns (x: nat, y: nat)
    requires multiset(a) == multiset(b) && i < k < |b|
    ensures x < |a| && y < |a| && x != y && a[x] == b[i] && a[y] == b[k]
  {
    SameMembers(a, b);
    if b[i] == b[k] {
      assert b == b[..i] + [b[i]] + b[i + 1..k] + [b[k]] + b[k + 1..];
      assert multiset(b)[b[i]] >= 2;
      x, y := TwoOccurrences(a, b[i]);
    } else {
      assert b[i] in a && b[k] in a;
      x :| 0 <= x < |a| && a[x] == b[i];
      y :| 0 <= y < |a| && a[y] == b[k];
    }
  }

  lemma {:induction false} TwoOccurrences<T>(a: seq<T>, s: T) returns (x: nat, y: nat)
    requires multiset(a)[s] >= 2
    ensures x < y < |a| && a[x] == s && a[y] == s
  {
    var n := |a| - 1;
    assert a == a[..n] + [a[n]];
    if a[n] == s {
      assert multiset(a[..n])[s] >= 1;
      x :| 0 <= x < n && a[x] == s;
      y := n;
    } else {
      x, y := TwoOccurrences(a[..n], s);
    }
  }

  function Without<T>(a: seq<T>, i: nat): (r: seq<T>)
    requires i < |a|
    ensures |r| == |a| - 1
  {
    a[..i] + a[i + 1..]
  }

  lemma WithoutMultiset<T>(a: seq<T>, i: nat)
    requires i < |a|
    ensures multiset(a) == multiset(Without(a, i)) + multiset{a[i]}
  {
    assert a == a[..i] + [a[i]] + a[i + 1..];
  }
}
