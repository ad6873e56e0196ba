/** Elements of a sequence at chosen positions, in the order of the sequence. */
module Selection {
  ghost predicate Increasing(positions: seq<nat>) {
    forall i, j :: 0 <= i < j < |positions| ==> positions[i] < positions[j]
  }

  /** `picked` is what `source` has at exactly the chosen positions, walked upwards. */
  ghost predicate Selects<T(!new)>(source: seq<T>, chosen: set<nat>, picked: seq<T>) {
    exists positions: seq<nat> :: Walks(source, chosen, picked, positions)
  }

  ghost predicate Walks<T>(source: seq<T>, chosen: set<nat>, picked: seq<T>, positions: seq<nat>) {
    && Increasing(positions) && |positions| == |picked|
    && (forall i :: i in positions <==> i in chosen)
    && forall k :: 0 <= k < |positions| ==> positions[k] < |source| && picked[k] == source[positions[k]]
  }

  lemma SelectsNothing<T(!new)>(chosen: set<nat>)
    requires chosen == {}
    ensures Selects<T>([], chosen, [])
  {
    assert Walks<T>([], chosen, [], []);
  }

  /** One more element at the end, chosen or not. */
  lemma SelectsOneMore<T(!new)>(source: seq<T>, chosen: set<nat>, picked: seq<T>, last: T, keep: bool, more: set<nat>)
    requires Selects(source, chosen, picked)
    requires more == if keep then chosen + {|source|} else chosen
    ensures Selects(source + [last], more, picked + if keep then [last] else [])
  {
    var positions: seq<nat> :| Walks(source, chosen, picked, positions);
    if keep {
      var next: seq<nat> := positions + [|source|];
      assert Walks(source + [last], more, picked + [last], next);
    } else {
      assert picked + [] == picked;
      assert Walks(source + [last], more, picked, positions);
    }
  }

  /** There is only one selection of the same positions. */
  lemma {:induction false} SelectsOne<T(!new)>(source: seq<T>, chosen: set<nat>, a: seq<T>, b: seq<T>)
    requires Selects(source, chosen, a) && Selects(source, chosen, b)
    ensures a == b
  {
    var p: seq<nat> :| Walks(source, chosen, a, p);
    var q: seq<nat> :| Walks(source, chosen, b, q);
    SameWalk(p, q);
  }

  lemma {:induction false} SameWalk(p: seq<nat>, q: seq<nat>)
    requires Increasing(p) && Increasing(q) && forall i :: i in p <==> i in q
    ensures p == q
  {
    if p != [] {
      assert p[0] in q;
    }
    if q != [] {
      assert q[0] in p;
    }
    if p != [] && q != [] {
      var m, n := |p| - 1, |q| - 1;
      assert p[m] in q && q[n] in p;
      assert p[m] == q[n];
      forall i
        ensures i in p[..m] <==> i in q[..n]
      {
        assert i in p <==> i in p[..m] || i == p[m];
        assert i in q <==> i in q[..n] || i == q[n];
        assert p[m] !in p[..m] && q[n] !in q[..n];
      }
      SameWalk(p[..m], q[..n]);
      assert p == p[..m] + [p[m]] && q == q[..n] + [q[n]];
    }
  }
}
