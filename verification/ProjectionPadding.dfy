/** Padding a module with other statements, anywhere and any number of times. */
module ProjectionPadding {
  import opened Outcome
  import opened Projection

  /** `padded` is `body` with other statements put between: statement `i` now stands at `e[i]`. */
  ghost predicate Embeds(body: Body, padded: Body, e: seq<nat>) {
    && |e| == |body|
    && (forall i, j :: 0 <= i < j < |e| ==> e[i] < e[j])
    && (forall i :: 0 <= i < |e| ==> e[i] < |padded| && padded[e[i]] == body[i])
  }

  ghost function Image(e: seq<nat>, s: set<nat>): set<nat> {
    set i | i in s && i < |e| :: e[i]
  }

  ghost predicate Needed(body: Body, d: nat, name: string) {
    exists i :: i in Selected(body, d) && name in body[i].Loads()
  }

  /** An original statement after position `q` binds `name` again. */
  ghost predicate ReboundAfter(body: Body, e: seq<nat>, q: nat, name: string)
    requires |e| == |body|
  {
    exists i :: 0 <= i < |body| && e[i] > q && name in body[i].Bound()
  }

  /** No added statement is a future import or the last binder of a name the projection loads. */
  ghost predicate Harmless(body: Body, padded: Body, e: seq<nat>, d: nat)
    requires |e| == |body|
  {
    forall q :: 0 <= q < |padded| && q !in e ==> HarmlessAt(body, padded[q], e, d, q)
  }

  ghost predicate HarmlessAt(body: Body, pad: Stmt, e: seq<nat>, d: nat, q: nat)
    requires |e| == |body|
  {
    && !pad.IsFuture()
    && forall name :: name in pad.Bound() && Needed(body, d, name) ==> ReboundAfter(body, e, q, name)
  }

  function Moved(e: seq<nat>, i: Option<nat>): Option<nat> {
    if i.Some? && i.value < |e| then Some(e[i.value]) else None
  }

  /** The last binder of a loaded name moves with the module. */
  lemma BinderMoves(body: Body, padded: Body, e: seq<nat>, d: nat, name: string)
    requires Embeds(body, padded, e) && Harmless(body, padded, e, d) && Needed(body, d, name)
    ensures Binder(padded, name) == Moved(e, Binder(body, name))
  {
    hide Binder, Needed;
    var b, c := Binder(body, name), Binder(padded, name);
    if b.Some? {
      assert padded[e[b.value]] == body[b.value];
    }
    if c.Some? {
      if c.value !in e {
        assert false;
      }
      var k :| 0 <= k < |e| && e[k] == c.value;
      assert name in body[k].Bound();
      assert k == b.value;
    }
  }

  /** The moved selection is closed in the padded module. */
  lemma MovedIsClosed(body: Body, padded: Body, e: seq<nat>, d: nat)
    requires d < |body| && Embeds(body, padded, e) && Harmless(body, padded, e, d)
    ensures Closed(padded, Image(e, Selected(body, d)), e[d])
  {
    hide Selected, Binder, Needed, InEvery;
    SelectedIsLeast(body, d);
    var s := Selected(body, d);
    var t := Image(e, s);
    forall j | j in Futures(padded)
      ensures j in t
    {
      if j !in e {
        assert false;
      }
      var i :| 0 <= i < |e| && e[i] == j;
      assert i in Futures(body);
    }
    forall j, name | j in t && name in padded[j].Loads()
      ensures Has(t, Binder(padded, name))
    {
      var i :| i in s && i < |e| && e[i] == j;
      assert name in body[i].Loads() && Has(s, Binder(body, name));
      LoadedIsNeeded(body, d, i, name);
      BinderMoves(body, padded, e, d, name);
    }
  }

  lemma LoadedIsNeeded(body: Body, d: nat, i: nat, name: string)
    requires i in Selected(body, d) && name in body[i].Loads()
    ensures Needed(body, d, name)
  {
  }

  /** Every closed set of the padded module contains the moved selection. */
  lemma MovedIsLeast(body: Body, padded: Body, e: seq<nat>, d: nat, t: set<nat>)
    requires d < |body| && Embeds(body, padded, e) && Harmless(body, padded, e, d) && Closed(padded, t, e[d])
    ensures Image(e, Selected(body, d)) <= t
  {
    hide Selected, Binder, Needed, InEvery;
    SelectedIsLeast(body, d);
    var s := Selected(body, d);
    var back := set i | i in s && e[i] in t;
    forall i | i in Futures(body)
      ensures i in back
    {
      assert padded[e[i]] == body[i] && e[i] in Futures(padded);
    }
    forall i, name | i in back && name in body[i].Loads()
      ensures Has(back, Binder(body, name))
    {
      assert padded[e[i]] == body[i];
      assert Has(t, Binder(padded, name)) && Has(s, Binder(body, name));
      LoadedIsNeeded(body, d, i, name);
      BinderMoves(body, padded, e, d, name);
    }
    assert Closed(body, back, d);
  }

  lemma PadIsOutside(body: Body, padded: Body, e: seq<nat>, s: set<nat>, q: nat)
    requires Embeds(body, padded, e) && q !in e
    ensures q !in Image(e, s)
  {
  }

  /** A pad that binds a name no original statement binds later hides every original binder. */
  lemma LastBinderIsPad(body: Body, padded: Body, e: seq<nat>, q: nat, name: string)
    requires Embeds(body, padded, e) && q < |padded| && q !in e
    requires name in padded[q].Bound() && !ReboundAfter(body, e, q, name)
    ensures Binder(padded, name).Some? && Binder(padded, name).value !in e
  {
    hide Binder;
    var last := Binder(padded, name);
    forall k | 0 <= k < |e|
      ensures e[k] != last.value
    {
      assert e[k] != q && padded[e[k]] == body[k];
    }
  }

  /** A harmful pad gets into the selection. */
  lemma HarmfulIsSelected(body: Body, padded: Body, e: seq<nat>, d: nat, q: nat)
    requires d < |body| && Embeds(body, padded, e) && q < |padded| && q !in e && !HarmlessAt(body, padded[q], e, d, q)
    ensures Selected(padded, e[d]) != Image(e, Selected(body, d))
  {
    hide Selected, Binder, InEvery;
    var s, t := Selected(body, d), Selected(padded, e[d]);
    SelectedIsLeast(body, d);
    SelectedIsLeast(padded, e[d]);
    if padded[q].IsFuture() {
      assert q in Futures(padded);
      PadIsOutside(body, padded, e, s, q);
    } else {
      var name :| name in padded[q].Bound() && Needed(body, d, name) && !ReboundAfter(body, e, q, name);
      var i :| i in s && name in body[i].Loads();
      assert e[i] in Image(e, s) && padded[e[i]] == body[i];
      if e[i] in t {
        LastBinderIsPad(body, padded, e, q, name);
        assert Has(t, Binder(padded, name));
        PadIsOutside(body, padded, e, s, Binder(padded, name).value);
      }
    }
  }

  /** The projection follows the definition through padding exactly when the padding adds no
      future import and no last binder of a loaded name. */
  lemma PaddingInvariance(body: Body, padded: Body, e: seq<nat>, d: nat)
    requires d < |body| && Embeds(body, padded, e)
    ensures Selected(padded, e[d]) == Image(e, Selected(body, d)) <==> Harmless(body, padded, e, d)
  {
    hide Selected, Binder, Needed, InEvery, Closed;
    if Harmless(body, padded, e, d) {
      MovedIsClosed(body, padded, e, d);
      forall t: set<nat> | Closed(padded, t, e[d])
        ensures Image(e, Selected(body, d)) <= t
      {
        MovedIsLeast(body, padded, e, d, t);
      }
      LeastIsSelected(padded, e[d], Image(e, Selected(body, d)));
    } else {
      var q :| 0 <= q < |padded| && q !in e && !HarmlessAt(body, padded[q], e, d, q);
      HarmfulIsSelected(body, padded, e, d, q);
    }
  }

  /** Disjoint names are enough. */
  lemma DisjointPaddingIsHarmless(body: Body, padded: Body, e: seq<nat>, d: nat)
    requires d < |body| && |e| == |body|
    requires forall q :: 0 <= q < |padded| && q !in e ==> !padded[q].IsFuture()
    requires forall q, name :: 0 <= q < |padded| && q !in e && name in padded[q].Bound() ==> !Needed(body, d, name)
    ensures Harmless(body, padded, e, d)
  {
  }

  // ---- The projected statements and the fingerprints ----

  lemma {:induction false} PickEmbedded(body: Body, padded: Body, e: seq<nat>, s: set<nat>, t: set<nat>)
    requires Embeds(body, padded, e)
    requires forall i :: 0 <= i < |e| ==> (i in s <==> e[i] in t)
    requires forall q :: q in t ==> q in e
    ensures Pick(padded, t) == Pick(body, s)
  {
    PickPrefix(body, padded, e, |e|, |padded|, s, t);
    assert body[..|body|] == body && padded[..|padded|] == padded;
  }

  /** The same for the first `m` positions of the padded module, which hold the first `n` originals. */
  lemma {:induction false} PickPrefix(body: Body, padded: Body, e: seq<nat>, n: nat, m: nat, s: set<nat>, t: set<nat>)
    requires Embeds(body, padded, e) && n <= |e| && m <= |padded|
    requires (n > 0 ==> e[n - 1] < m) && (n < |e| ==> m <= e[n])
    requires forall i :: 0 <= i < |e| ==> (i in s <==> e[i] in t)
    requires forall q :: q in t ==> q in e
    ensures Pick(padded[..m], t) == Pick(body[..n], s)
    decreases m
  {
    if m > 0 {
      assert padded[..m][..m - 1] == padded[..m - 1];
      if n > 0 && e[n - 1] == m - 1 {
        assert body[..n][..n - 1] == body[..n - 1];
        PickPrefix(body, padded, e, n - 1, m - 1, s, t);
      } else {
        forall k | 0 <= k < |e|
          ensures e[k] != m - 1
        {
          if k < n - 1 {
            assert e[k] < e[n - 1];
          } else if k > n {
            assert e[n] < e[k];
          }
        }
        PickPrefix(body, padded, e, n, m - 1, s, t);
      }
    }
  }

  /** All three views of the definition survive harmless padding. */
  lemma ViewsSurvive(body: Body, padded: Body, e: seq<nat>, d: nat)
    requires d < |body| && Embeds(body, padded, e) && Harmless(body, padded, e, d)
    ensures Views(padded, e[d]) == Views(body, d)
  {
    hide Selected, Pick, PruneAll, Used;
    PaddingInvariance(body, padded, e, d);
    SelectedIsLeast(body, d);
    var s := Selected(body, d);
    PickEmbedded(body, padded, e, s, Image(e, s));
    PickEmbedded(body, padded, e, {d}, {e[d]});
  }

  /** Padding that is harmless to every definition loses no fingerprint, whatever the rendering. */
  lemma FingerprintsSurvive(body: Body, padded: Body, e: seq<nat>, norm: Rendering, fp: string)
    requires Embeds(body, padded, e) && IsFingerprint(body, norm, fp)
    requires forall d: nat :: d < |body| && body[d].Define? ==> Harmless(body, padded, e, d)
    ensures IsFingerprint(padded, norm, fp)
  {
    hide Harmless, Views;
    var d: nat, k :| d < |body| && body[d].Define? && 0 <= k < 3 && Shows(body, norm, fp, d, k);
    ViewsSurvive(body, padded, e, d);
    assert padded[e[d]].Define? && Shows(padded, norm, fp, e[d], k);
  }
}
