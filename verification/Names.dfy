/** Names in canonical order: code-point order, as Python sorts strings. */
module Names {

  predicate NameLess(a: string, b: string) {
    if b == "" then false
    else if a == "" then true
    else a[0] < b[0] || (a[0] == b[0] && NameLess(a[1..], b[1..]))
  }

  /** A proper prefix, or smaller where the two first differ. */
  ghost predicate Precedes(a: string, b: string) {
    a < b || exists i :: 0 <= i < |a| && i < |b| && a[..i] == b[..i] && a[i] < b[i]
  }

  lemma {:induction false} NameLessMeans(a: string, b: string)
    ensures NameLess(a, b) <==> Precedes(a, b)
  {
    if a != "" && b != "" {
      if a[0] == b[0] {
        NameLessMeans(a[1..], b[1..]);
        if i :| 0 <= i < |a[1..]| && i < |b[1..]| && a[1..][..i] == b[1..][..i] && a[1..][i] < b[1..][i] {
          assert a[..i + 1] == [a[0]] + a[1..][..i] && b[..i + 1] == [b[0]] + b[1..][..i];
          assert a[i + 1] < b[i + 1];
        }
        if i :| 0 <= i < |a| && i < |b| && a[..i] == b[..i] && a[i] < b[i] {
          assert a[1..][..i - 1] == a[..i][1..] && b[1..][..i - 1] == b[..i][1..];
          assert a[1..][i - 1] < b[1..][i - 1];
        }
        assert a < b <==> a[1..] < b[1..] by {
          if a[1..] < b[1..] {
            assert b == [b[0]] + b[1..] && a == [a[0]] + a[1..];
          }
        }
      } else {
        assert a[..0] == b[..0];
        assert forall i :: 0 < i <= |a| ==> a[..i][0] == a[0];
        assert forall i :: 0 < i <= |b| ==> b[..i][0] == b[0];
      }
    }
  }

  lemma {:induction false} NameLessIrreflexive(a: string)
    ensures !NameLess(a, a)
  {
    if a != "" {
      NameLessIrreflexive(a[1..]);
    }
  }

  lemma {:induction false} NameLessTotal(a: string, b: string)
    ensures a == b || NameLess(a, b) || NameLess(b, a)
  {
    if a != "" && b != "" && a[0] == b[0] {
      NameLessTotal(a[1..], b[1..]);
      assert a == [a[0]] + a[1..] && b == [b[0]] + b[1..];
    }
  }

  lemma {:induction false} NameLessTransitive(a: string, b: string, c: string)
    requires NameLess(a, b) && NameLess(b, c)
    ensures NameLess(a, c)
  {
    if a != "" && a[0] == b[0] == c[0] {
      NameLessTransitive(a[1..], b[1..], c[1..]);
    }
  }

  /** Sorted without repeats, as `tuple(sorted(set(names)))` demands. */
  predicate Canonical(names: seq<string>) {
    forall i, j :: 0 <= i < j < |names| ==> NameLess(names[i], names[j])
  }

  lemma CanonicalDistinct(names: seq<string>, i: nat, j: nat)
    requires Canonical(names) && i < |names| && j < |names| && names[i] == names[j]
    ensures i == j
  {
    NameLessIrreflexive(names[i]);
  }
}
