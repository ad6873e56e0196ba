/** Padding an existing import statement with aliases nobody needs. */
module ProjectionWidening {
  import opened Outcome
  import opened Projection

  function DropAliases(names: seq<Alias>, extra: set<Alias>): seq<Alias> {
    if names == [] then []
    else
      var a := names[|names| - 1];
      DropAliases(names[..|names| - 1], extra) + if a in extra then [] else [a]
  }

  /** `wide` is `node`, or the same import with aliases of `extra` added anywhere. */
  predicate Wider(node: Stmt, wide: Stmt, extra: set<Alias>) {
    || node == wide
    || (node.Import? && wide.Import? && node.names == DropAliases(wide.names, extra))
    || (node.ImportFrom? && wide.ImportFrom? && !node.IsFuture()
        && node.source == wide.source && node.level == wide.level
        && node.names == DropAliases(wide.names, extra))
  }

  predicate Widens(body: Body, wide: Body, extra: set<Alias>) {
    |wide| == |body| && forall i :: 0 <= i < |body| ==> Wider(body[i], wide[i], extra)
  }

  /** No added alias is a wildcard or binds a name of `names`. */
  predicate Unrelated(extra: set<Alias>, names: set<string>) {
    forall a :: a in extra ==> a.name != "*" && ImportBinds(a) !in names && FromBinds(a) !in names
  }

  /** The names the projection of `d` loads. */
  ghost function Loaded(body: Body, d: nat): set<string> {
    set i, name | i in Selected(body, d) && i < |body| && name in body[i].Loads() :: name
  }

  lemma {:induction false} DropMembers(names: seq<Alias>, extra: set<Alias>, a: Alias)
    ensures a in DropAliases(names, extra) <==> a in names && a !in extra
  {
    if names != [] {
      DropMembers(names[..|names| - 1], extra, a);
      assert names == names[..|names| - 1] + [names[|names| - 1]];
    }
  }

  /** Widening changes neither the loads nor the binding of a name in `names`. */
  lemma WiderBinds(node: Stmt, wide: Stmt, extra: set<Alias>, names: set<string>, name: string)
    requires Wider(node, wide, extra) && Unrelated(extra, names) && name in names
    ensures name in node.Bound() <==> name in wide.Bound()
    ensures node.Loads() == wide.Loads() && node.IsFuture() == wide.IsFuture() && node.Define? == wide.Define?
  {
    if node != wide {
      forall a: Alias
        ensures a in node.names ==> a in wide.names
        ensures a in wide.names && a !in node.names ==> a in extra
      {
        DropMembers(wide.names, extra, a);
      }
    }
  }

  lemma WiderShape(node: Stmt, wide: Stmt, extra: set<Alias>)
    requires Wider(node, wide, extra)
    ensures node.Loads() == wide.Loads() && node.IsFuture() == wide.IsFuture() && node.Define? == wide.Define?
  {
  }

  lemma {:induction false} BinderStays(body: Body, wide: Body, extra: set<Alias>, names: set<string>, name: string)
    requires Widens(body, wide, extra) && Unrelated(extra, names) && name in names
    ensures Binder(wide, name) == Binder(body, name)
  {
    hide Wider, Unrelated;
    if body != [] {
      var n := |body| - 1;
      WiderBinds(body[n], wide[n], extra, names, name);
      BinderStays(body[..n], wide[..n], extra, names, name);
    }
  }

  lemma FuturesStay(body: Body, wide: Body, extra: set<Alias>)
    requires Widens(body, wide, extra)
    ensures Futures(wide) == Futures(body)
  {
    hide Wider;
    forall i: nat | i < |body|
      ensures body[i].IsFuture() == wide[i].IsFuture()
    {
      WiderShape(body[i], wide[i], extra);
    }
  }

  /** The projection selects the same statements. */
  lemma SelectionStays(body: Body, wide: Body, extra: set<Alias>, d: nat)
    requires d < |body| && Widens(body, wide, extra) && Unrelated(extra, Loaded(body, d))
    ensures Selected(wide, d) == Selected(body, d)
  {
    hide Wider, Unrelated, Binder, InEvery;
    var s := Selected(body, d);
    SelectedIsLeast(body, d);
    FuturesStay(body, wide, extra);
    hide Selected, Futures;
    forall i, name | i in s && name in wide[i].Loads()
      ensures Has(s, Binder(wide, name))
    {
      WiderShape(body[i], wide[i], extra);
      assert name in Loaded(body, d) && Has(s, Binder(body, name));
      BinderStays(body, wide, extra, Loaded(body, d), name);
    }
    assert Closed(wide, s, d);
    forall t: set<nat> | Closed(wide, t, d)
      ensures s <= t
    {
      forall i, name | i in s * t && name in body[i].Loads()
        ensures Has(s * t, Binder(body, name))
      {
        WiderShape(body[i], wide[i], extra);
        assert name in Loaded(body, d) && Has(s, Binder(body, name)) && Has(t, Binder(wide, name));
        BinderStays(body, wide, extra, Loaded(body, d), name);
      }
      assert Closed(body, s * t, d);
    }
    LeastIsSelected(wide, d, s);
  }

  lemma {:induction false} KeptAliasesStay(names: seq<Alias>, extra: set<Alias>, used: set<string>, whole: bool)
    requires Unrelated(extra, used)
    ensures KeepAliases(names, used, whole) == KeepAliases(DropAliases(names, extra), used, whole)
  {
    if names != [] {
      var front, last := names[..|names| - 1], names[|names| - 1];
      KeptAliasesStay(front, extra, used, whole);
      var kept := DropAliases(front, extra);
      assert (kept + [last])[..|kept|] == kept && kept + [] == kept;
    }
  }

  lemma PrunedStays(node: Stmt, wide: Stmt, extra: set<Alias>, used: set<string>)
    requires Wider(node, wide, extra) && Unrelated(extra, used)
    ensures Pruned(wide, used) == Pruned(node, used)
  {
    if node != wide {
      KeptAliasesStay(wide.names, extra, used, node.Import?);
    }
  }

  lemma {:induction false} PruneAllStays(body: Body, wide: Body, extra: set<Alias>, s: set<nat>, used: set<string>)
    requires Widens(body, wide, extra) && Unrelated(extra, used)
    ensures PruneAll(Pick(wide, s), used) == PruneAll(Pick(body, s), used)
  {
    hide Wider, Unrelated, Pruned;
    if body != [] {
      var n := |body| - 1;
      PruneAllStays(body[..n], wide[..n], extra, s, used);
      PrunedStays(body[n], wide[n], extra, used);
      PruneLast(Pick(body[..n], s), body[n], used);
      PruneLast(Pick(wide[..n], s), wide[n], used);
    }
  }

  lemma PruneLast(front: Body, last: Stmt, used: set<string>)
    ensures PruneAll(front + [last], used) ==
            PruneAll(front, used) + match Pruned(last, used) case None => [] case Some(node) => [node]
    ensures front + [] == front
  {
    assert (front + [last])[..|front|] == front;
  }

  /** Aliases added to an import, if they bind nothing the projection loads, leave the standalone and
      the pruned view of a definition as they were. */
  lemma PrunedViewSurvives(body: Body, wide: Body, extra: set<Alias>, d: nat)
    requires d < |body| && body[d].Define? && Widens(body, wide, extra) && Unrelated(extra, Loaded(body, d))
    ensures wide[d] == body[d] && Views(wide, d)[0] == Views(body, d)[0] && Views(wide, d)[2] == Views(body, d)[2]
  {
    hide Unrelated, Pruned;
    SelectionStays(body, wide, extra, d);
    SelectedIsLeast(body, d);
    var s := Selected(body, d);
    PickedLoads(body, s);
    PickedLoads(wide, s);
    assert Wider(body[d], wide[d], extra);
    hide Selected, PruneAll, Wider, Used;
    SameUse(body, wide, extra, s, d);
    PruneAllStays(body, wide, extra, s, Used(Pick(body, s)));
    PickOne(body, d);
    PickOne(wide, d);
  }

  lemma SameUse(body: Body, wide: Body, extra: set<Alias>, s: set<nat>, d: nat)
    requires Widens(body, wide, extra) && s == Selected(body, d) && forall i :: i in s ==> i < |body|
    ensures Used(Pick(wide, s)) == Used(Pick(body, s)) == Loaded(body, d)
  {
    hide Wider, Selected;
    PickedLoads(body, s);
    PickedLoads(wide, s);
    hide Used, Pick;
    forall i | i in s
      ensures body[i].Loads() == wide[i].Loads()
    {
      WiderShape(body[i], wide[i], extra);
    }
  }

  lemma {:induction false} PickOne(body: Body, d: nat)
    ensures Pick(body, {d}) == if d < |body| then [body[d]] else []
  {
    if body != [] {
      PickOne(body[..|body| - 1], d);
    }
  }

  /** Such aliases lose neither fingerprint. */
  lemma PrunedFingerprintSurvives(body: Body, wide: Body, extra: set<Alias>, d: nat, k: nat, norm: Rendering,
                                  fp: string)
    requires d < |body| && body[d].Define? && Widens(body, wide, extra) && Unrelated(extra, Loaded(body, d))
    requires k in {0, 2} && Shows(body, norm, fp, d, k)
    ensures IsFingerprint(wide, norm, fp)
  {
    hide Views, Wider;
    PrunedViewSurvives(body, wide, extra, d);
    assert Shows(wide, norm, fp, d, k);
  }
}
