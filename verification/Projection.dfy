/** Dependency projection of top-level definitions, and its invariance under padding.

    A module is a sequence of statements, each with the names it binds and the names it loads.
    A rendering of statements to normalized source is a parameter; digests are the identity. */
module Projection {
  import opened Outcome
  import opened Selection

  const SUBSTANTIAL := 80 // normalized length below which a projection is boilerplate

  datatype Alias = Alias(name: string, asname: Option<string>)

  datatype Stmt =
    | Import(names: seq<Alias>)
    | ImportFrom(source: Option<string>, level: nat, names: seq<Alias>)
    | Define(name: string, text: string, loaded: set<string>)
    | Other(text: string, targets: set<string>, loaded: set<string>)
  {
    function Bound(): set<string> {
      match this
      case Import(names) => set a | a in names :: ImportBinds(a)
      case ImportFrom(_, _, names) => set a | a in names && a.name != "*" :: FromBinds(a)
      case Define(name, _, _) => {name}
      case Other(_, targets, _) => targets
    }

    /** Import statements load no name. */
    function Loads(): set<string> {
      if Define? || Other? then loaded else {}
    }

    predicate IsFuture() {
      ImportFrom? && source == Some("__future__")
    }
  }

  function Head(name: string): string {
    if name == "" || name[0] == '.' then "" else [name[0]] + Head(name[1..])
  }

  function ImportBinds(a: Alias): string {
    if a.asname.Some? && a.asname.value != "" then a.asname.value else Head(a.name)
  }

  function FromBinds(a: Alias): string {
    if a.asname.Some? && a.asname.value != "" then a.asname.value else a.name
  }

  // ---- What imports bind ----

  /** The part of a dotted name before its first dot. */
  ghost predicate FirstPart(name: string, x: string) {
    x <= name && '.' !in x && (x == name || name[|x|] == '.')
  }

  /** `import name [as x]` binds `x`, or the first part of the name. */
  ghost predicate ImportsAs(a: Alias, x: string) {
    match a.asname
    case Some(n) => if n == "" then FirstPart(a.name, x) else x == n
    case None => FirstPart(a.name, x)
  }

  /** `from m import name [as x]` binds `x`, or the name; a star binds nothing known. */
  ghost predicate ImportsFrom(a: Alias, x: string) {
    a.name != "*" && match a.asname case Some(n) => x == (if n == "" then a.name else n) case None => x == a.name
  }

  lemma {:induction false} HeadIsFirstPart(name: string, x: string)
    ensures x == Head(name) <==> FirstPart(name, x)
    ensures |Head(name)| <= |name|
  {
    if name != "" && name[0] != '.' {
      HeadIsFirstPart(name[1..], Head(name[1..]));
      if FirstPart(name, x) {
        HeadIsFirstPart(name[1..], x[1..]);
      }
    }
  }

  lemma AliasBinds(a: Alias, x: string)
    ensures x == ImportBinds(a) <==> ImportsAs(a, x)
    ensures a.name != "*" ==> (x == FromBinds(a) <==> ImportsFrom(a, x))
  {
    HeadIsFirstPart(a.name, x);
  }

  /** The names each statement binds, and that an import loads none. */
  lemma BoundNames(node: Stmt, x: string)
    ensures x in node.Bound() <==>
              match node
              case Import(names) => exists i :: 0 <= i < |names| && ImportsAs(names[i], x)
              case ImportFrom(_, _, names) => exists i :: 0 <= i < |names| && ImportsFrom(names[i], x)
              case Define(name, _, _) => x == name
              case Other(_, targets, _) => x in targets
    ensures node.Import? || node.ImportFrom? ==> node.Loads() == {}
    ensures node.Define? || node.Other? ==> node.Loads() == node.loaded
    ensures node.IsFuture() <==> exists level, names :: node == ImportFrom(Some("__future__"), level, names)
  {
    hide ImportBinds, FromBinds, ImportsAs, ImportsFrom;
    if node.Import? || node.ImportFrom? {
      forall i | 0 <= i < |node.names|
        ensures x == ImportBinds(node.names[i]) <==> ImportsAs(node.names[i], x)
        ensures node.names[i].name != "*" ==> (x == FromBinds(node.names[i]) <==> ImportsFrom(node.names[i], x))
        ensures node.names[i].name == "*" ==> !ImportsFrom(node.names[i], x)
      {
        AliasBinds(node.names[i], x);
        StarBindsNothing(node.names[i], x);
      }
    }
    if node.ImportFrom? && x in node.Bound() {
      var a :| a in node.names && a.name != "*" && FromBinds(a) == x;
      var i :| 0 <= i < |node.names| && node.names[i] == a;
    }
    if node.Import? && x in node.Bound() {
      var a :| a in node.names && ImportBinds(a) == x;
      var i :| 0 <= i < |node.names| && node.names[i] == a;
    }
    assert node.IsFuture() ==> node == ImportFrom(Some("__future__"), node.level, node.names);
  }

  lemma StarBindsNothing(a: Alias, x: string)
    ensures a.name == "*" ==> !ImportsFrom(a, x)
  {
  }

  type Body = seq<Stmt>

  /** The last statement that binds `name`. */
  function Binder(body: Body, name: string): (r: Option<nat>)
    ensures r.Some? ==> r.value < |body| && name in body[r.value].Bound()
    ensures r.Some? ==> forall j :: r.value < j < |body| ==> name !in body[j].Bound()
    ensures r.None? ==> forall j :: 0 <= j < |body| ==> name !in body[j].Bound()
  {
    if body == [] then None
    else if name in body[|body| - 1].Bound() then Some(|body| - 1)
    else Binder(body[..|body| - 1], name)
  }

  function Futures(body: Body): set<nat> {
    set i: nat | i < |body| && body[i].IsFuture()
  }

  // ---- The least closed set ----

  /** Contains `d` and the future imports, and every statement that one of its members needs. */
  ghost predicate Closed(body: Body, t: set<nat>, d: nat) {
    && d in t && Futures(body) <= t && (forall i :: i in t ==> i < |body|)
    && forall i, name :: i in t && name in body[i].Loads() ==> Has(t, Binder(body, name))
  }

  predicate Has(t: set<nat>, i: Option<nat>) {
    i.Some? ==> i.value in t
  }

  ghost function Selected(body: Body, d: nat): set<nat> {
    set i: nat | i < |body| && InEvery(body, d, i)
  }

  ghost predicate InEvery(body: Body, d: nat, i: nat) {
    forall t: set<nat> :: Closed(body, t, d) ==> i in t
  }

  /** The selection is itself closed, so it is the least closed set. */
  lemma SelectedIsLeast(body: Body, d: nat)
    requires d < |body|
    ensures Closed(body, Selected(body, d), d)
    ensures forall t: set<nat> :: Closed(body, t, d) ==> Selected(body, d) <= t
  {
    var s := Selected(body, d);
    forall i, name | i in s && name in body[i].Loads()
      ensures Has(s, Binder(body, name))
    {
      if Binder(body, name).Some? {
        forall t: set<nat> | Closed(body, t, d)
          ensures Binder(body, name).value in t
        {
          assert i in t;
        }
      }
    }
  }

  lemma LeastIsSelected(body: Body, d: nat, s: set<nat>)
    requires d < |body| && Closed(body, s, d) && forall t: set<nat> :: Closed(body, t, d) ==> s <= t
    ensures s == Selected(body, d)
  {
    SelectedIsLeast(body, d);
  }

  // ---- The program ----

  /** One pass over the module: last binders and future imports. */
  method Scan(body: Body) returns (boundAt: map<string, nat>, futures: set<nat>)
    ensures futures == Futures(body)
    ensures forall name :: Lookup(boundAt, name) == Binder(body, name)
  {
    boundAt, futures := map[], {};
    for index := 0 to |body|
      invariant futures == Futures(body[..index])
      invariant forall name :: Lookup(boundAt, name) == Binder(body[..index], name)
    {
      var node := body[index];
      assert body[..index + 1][..index] == body[..index];
      boundAt := boundAt + map name | name in node.Bound() :: index;
      if node.IsFuture() {
        futures := futures + {index};
      }
    }
    assert body[..|body|] == body;
  }

  function Lookup(boundAt: map<string, nat>, name: string): Option<nat> {
    if name in boundAt then Some(boundAt[name]) else None
  }

  /** Every need of statement `i` is met, except for the names still to visit. */
  ghost predicate Met(body: Body, selected: set<nat>, i: nat, names: set<string>)
    requires i < |body|
  {
    forall name :: name in body[i].Loads() && name !in names ==> Has(selected, Binder(body, name))
  }

  /** Every selected statement has its needs met, except the ones still open. */
  ghost predicate Settled(body: Body, selected: set<nat>, open: set<nat>)
    requires forall i :: i in selected ==> i < |body|
  {
    forall i :: i in selected && i !in open ==> Met(body, selected, i, {})
  }

  ghost function Members(pending: seq<nat>): set<nat> {
    set i | i in pending
  }

  /** What every turn of the worklist keeps. */
  ghost predicate Progress(body: Body, d: nat, selected: set<nat>, open: set<nat>) {
    && Futures(body) + {d} <= selected <= Selected(body, d) && open <= selected
    && (forall i :: i in selected ==> i < |body|) && Settled(body, selected, open)
  }

  /** Visit the names one statement loads. */
  method Expand(body: Body, ghost d: nat, boundAt: map<string, nat>, current: nat, selected0: set<nat>,
                pending0: seq<nat>)
    returns (selected: set<nat>, pending: seq<nat>)
    requires d < |body| && forall name :: Lookup(boundAt, name) == Binder(body, name)
    requires current < |body| && Progress(body, d, selected0, Members(pending0) + {current})
    ensures Progress(body, d, selected, Members(pending))
    ensures (selected == selected0 && pending == pending0) || selected0 < selected
  {
    selected, pending := selected0, pending0;
    var names := body[current].Loads();
    NothingVisited(body, selected, current);
    hide Progress, Met, Stmt.Loads, Binder;
    while names != {}
      invariant Progress(body, d, selected, Members(pending) + {current})
      invariant names <= body[current].Loads() && Met(body, selected, current, names)
      invariant (selected == selected0 && pending == pending0) || selected0 < selected
      decreases names
    {
      var name :| name in names;
      var dependency := Lookup(boundAt, name);
      ExpandStep(body, d, selected, pending, current, names, name);
      if dependency.Some? && dependency.value !in selected {
        selected := selected + {dependency.value};
        pending := pending + [dependency.value];
      }
      names := names - {name};
    }
    FinishStatement(body, d, selected, pending, current);
  }

  lemma FinishStatement(body: Body, d: nat, selected: set<nat>, pending: seq<nat>, current: nat)
    requires Progress(body, d, selected, Members(pending) + {current})
    requires current < |body| && Met(body, selected, current, {})
    ensures Progress(body, d, selected, Members(pending))
  {
    hide Selected, Met, Settled, Futures;
    Settle(body, selected, Members(pending), current);
  }

  /** One visited name. */
  lemma ExpandStep(body: Body, d: nat, selected: set<nat>, pending: seq<nat>, current: nat, names: set<string>,
                   name: string)
    requires d < |body| && Progress(body, d, selected, Members(pending) + {current})
    requires current < |body| && Met(body, selected, current, names) && name in body[current].Loads()
    ensures var need := Binder(body, name);
            if need.Some? && need.value !in selected then
              && Progress(body, d, selected + {need.value}, Members(pending + [need.value]) + {current})
              && Met(body, selected + {need.value}, current, names - {name})
            else Met(body, selected, current, names - {name})
  {
    hide Selected, Met, Settled, Futures, Stmt.Loads;
    var need := Binder(body, name);
    if need.Some? && need.value !in selected {
      NeededIsSelected(body, d, current, name);
      Grow(body, selected, Members(pending) + {current}, current, names, need.value);
      assert Members(pending + [need.value]) + {current} == Members(pending) + {current} + {need.value};
      Visit(body, selected + {need.value}, current, names, name);
    } else {
      Visit(body, selected, current, names, name);
    }
  }

  /** The worklist: it computes the least closed set. */
  method Dependencies(body: Body, d: nat, boundAt: map<string, nat>, futures: set<nat>) returns (selected: set<nat>)
    requires d < |body| && futures == Futures(body)
    requires forall name :: Lookup(boundAt, name) == Binder(body, name)
    ensures selected == Selected(body, d)
  {
    hide Selected, Settled, Closed, Futures;
    selected := futures + {d};
    var pending := [d];
    SeedsSelected(body, d);
    while pending != []
      invariant Progress(body, d, selected, Members(pending))
      decreases |Selected(body, d) - selected|, |pending|
    {
      var current := pending[|pending| - 1];
      ghost var before, popped := selected, pending[..|pending| - 1];
      assert pending == popped + [current] && Members(pending) == Members(popped) + {current};
      selected, pending := Expand(body, d, boundAt, current, selected, pending[..|pending| - 1]);
      if before < selected {
        Fewer(Selected(body, d) - selected, Selected(body, d) - before);
      }
    }
    assert Members(pending) == {};
    MetIsClosed(body, selected, d);
    SelectedIsLeast(body, d);
  }

  lemma SeedsSelected(body: Body, d: nat)
    requires d < |body|
    ensures Futures(body) + {d} <= Selected(body, d) && forall i :: i in Selected(body, d) ==> i < |body|
    ensures Members([d]) == {d} && Settled(body, Futures(body) + {d}, {d})
  {
  }

  lemma NothingVisited(body: Body, selected: set<nat>, i: nat)
    requires i < |body|
    ensures Met(body, selected, i, body[i].Loads())
  {
  }

  /** A larger selection meets no fewer needs; the newcomer is open. */
  lemma Grow(body: Body, selected: set<nat>, open: set<nat>, i: nat, names: set<string>, dependency: nat)
    requires (forall j :: j in selected ==> j < |body|) && i < |body| && dependency < |body|
    requires Settled(body, selected, open) && Met(body, selected, i, names)
    ensures Settled(body, selected + {dependency}, open + {dependency})
    ensures Met(body, selected + {dependency}, i, names)
  {
    forall j | j in selected && j !in open
      ensures Met(body, selected + {dependency}, j, {})
    {
      assert Met(body, selected, j, {});
    }
  }

  lemma Visit(body: Body, selected: set<nat>, i: nat, names: set<string>, name: string)
    requires i < |body| && Met(body, selected, i, names) && Has(selected, Binder(body, name))
    ensures Met(body, selected, i, names - {name})
  {
  }

  lemma Settle(body: Body, selected: set<nat>, open: set<nat>, i: nat)
    requires (forall j :: j in selected ==> j < |body|) && i < |body|
    requires Settled(body, selected, open + {i}) && Met(body, selected, i, {})
    ensures Settled(body, selected, open)
  {
  }

  lemma NeededIsSelected(body: Body, d: nat, i: nat, name: string)
    requires d < |body| && i in Selected(body, d) && name in body[i].Loads()
    ensures Has(Selected(body, d), Binder(body, name))
  {
    SelectedIsLeast(body, d);
  }

  lemma MetIsClosed(body: Body, selected: set<nat>, d: nat)
    requires Futures(body) + {d} <= selected && forall i :: i in selected ==> i < |body|
    requires Settled(body, selected, {})
    ensures Closed(body, selected, d)
  {
    forall i, name | i in selected && name in body[i].Loads()
      ensures Has(selected, Binder(body, name))
    {
      assert Met(body, selected, i, {});
    }
  }

  lemma Fewer(a: set<nat>, b: set<nat>)
    requires a < b
    ensures |a| < |b|
  {
    assert b == a + (b - a);
  }

  // ---- Projected statements ----

  /** The selected statements in module order. */
  function Pick(body: Body, s: set<nat>): Body {
    if body == [] then []
    else Pick(body[..|body| - 1], s) + if |body| - 1 in s then [body[|body| - 1]] else []
  }

  function Used(body: Body): set<string> {
    set i, name | 0 <= i < |body| && name in body[i].Loads() :: name
  }

  function KeepAliases(names: seq<Alias>, used: set<string>, whole: bool): seq<Alias> {
    if names == [] then []
    else
      var a := names[|names| - 1];
      KeepAliases(names[..|names| - 1], used, whole) +
      if (if whole then ImportBinds(a) in used else a.name == "*" || FromBinds(a) in used) then [a] else []
  }

  /** An import keeps the aliases in use and is dropped when none is left. */
  function Pruned(node: Stmt, used: set<string>): Option<Stmt> {
    match node
    case Import(names) =>
      var kept := KeepAliases(names, used, true);
      if kept == [] then None else Some(Import(kept))
    case ImportFrom(source, level, names) =>
      if node.IsFuture() then Some(node) else
      var kept := KeepAliases(names, used, false);
      if kept == [] then None else Some(ImportFrom(source, level, kept))
    case _ => Some(node)
  }

  function PruneAll(body: Body, used: set<string>): Body {
    if body == [] then []
    else
      PruneAll(body[..|body| - 1], used) +
      match Pruned(body[|body| - 1], used) case None => [] case Some(node) => [node]
  }

  // ---- What a projection keeps ----

  /** An alias stays if it binds a name in use, and a star always does. */
  ghost predicate Stays(a: Alias, used: set<string>, whole: bool) {
    if whole then exists x :: x in used && ImportsAs(a, x)
    else a.name == "*" || exists x :: x in used && ImportsFrom(a, x)
  }

  ghost function Staying(names: seq<Alias>, used: set<string>, whole: bool): set<nat> {
    set i: nat | i < |names| && Stays(names[i], used, whole)
  }

  lemma {:induction false} KeptAliases(names: seq<Alias>, used: set<string>, whole: bool)
    ensures Selects(names, Staying(names, used, whole), KeepAliases(names, used, whole))
  {
    if names == [] {
      SelectsNothing<Alias>(Staying(names, used, whole));
    } else {
      hide Selects, ImportBinds, FromBinds;
      var n := |names| - 1;
      var front, last := names[..n], names[n];
      KeptAliases(front, used, whole);
      AliasStays(last, used, whole);
      assert front + [last] == names;
      var keep := Stays(last, used, whole);
      assert Staying(names, used, whole) ==
             if keep then Staying(front, used, whole) + {n} else Staying(front, used, whole);
      SelectsOneMore(front, Staying(front, used, whole), KeepAliases(front, used, whole), last, keep,
                     Staying(names, used, whole));
    }
  }

  lemma AliasStays(a: Alias, used: set<string>, whole: bool)
    ensures Stays(a, used, whole) <==>
              if whole then ImportBinds(a) in used else a.name == "*" || FromBinds(a) in used
  {
    forall x
      ensures x == ImportBinds(a) <==> ImportsAs(a, x)
      ensures a.name != "*" ==> (x == FromBinds(a) <==> ImportsFrom(a, x))
    {
      AliasBinds(a, x);
    }
    hide ImportBinds, FromBinds, ImportsAs, ImportsFrom;
    assert ImportsAs(a, ImportBinds(a));
    assert a.name != "*" ==> ImportsFrom(a, FromBinds(a));
  }

  /** Pruning keeps of an import the aliases in use, in order, drops it if none is left, and touches
      neither future imports nor anything else. */
  ghost predicate PrunesTo(node: Stmt, used: set<string>, kept: Option<Stmt>) {
    match node
    case Import(names) =>
      (match kept
       case None => Staying(names, used, true) == {}
       case Some(k) => k.Import? && k.names != [] && Selects(names, Staying(names, used, true), k.names))
    case ImportFrom(source, level, names) =>
      if source == Some("__future__") then kept == Some(node)
      else
        (match kept
         case None => Staying(names, used, false) == {}
         case Some(k) =>
           && k.ImportFrom? && k.source == source && k.level == level && k.names != []
           && Selects(names, Staying(names, used, false), k.names))
    case _ => kept == Some(node)
  }

  lemma PrunedIs(node: Stmt, used: set<string>)
    ensures PrunesTo(node, used, Pruned(node, used))
  {
    hide Stays;
    if node.Import? || node.ImportFrom? {
      var whole := node.Import?;
      KeptAliases(node.names, used, whole);
      if KeepAliases(node.names, used, whole) == [] {
        NothingStays(node.names, Staying(node.names, used, whole));
      }
    }
  }

  lemma NothingStays(names: seq<Alias>, chosen: set<nat>)
    requires Selects(names, chosen, [])
    ensures chosen == {}
  {
    var positions: seq<nat> :| Walks(names, chosen, [], positions);
    assert forall i :: i in chosen ==> i in positions;
  }

  ghost function Chosen(body: Body, s: set<nat>): set<nat> {
    set i | i in s && i < |body|
  }

  lemma {:induction false} PickSelects(body: Body, s: set<nat>)
    ensures Selects(body, Chosen(body, s), Pick(body, s))
  {
    var chosen := Chosen(body, s);
    if body == [] {
      SelectsNothing<Stmt>(chosen);
    } else {
      hide Selects;
      var n := |body| - 1;
      var front := body[..n];
      PickSelects(front, s);
      assert front + [body[n]] == body;
      var before := Chosen(front, s);
      assert chosen == if n in s then before + {n} else before;
      SelectsOneMore(front, before, Pick(front, s), body[n], n in s, chosen);
    }
  }

  /** Pruning a body is pruning its statements, one by one and in order. */
  lemma {:induction false} PruneAllSplits(a: Body, b: Body, used: set<string>)
    ensures PruneAll(a + b, used) == PruneAll(a, used) + PruneAll(b, used)
  {
    hide Pruned;
    if b == [] {
      assert a + b == a;
    } else {
      var n := |b| - 1;
      assert (a + b)[..|a| + n] == a + b[..n];
      PruneAllSplits(a, b[..n], used);
    }
  }

  lemma PruneAllOne(node: Stmt, used: set<string>)
    ensures PruneAll([node], used) == match Pruned(node, used) case None => [] case Some(k) => [k]
  {
    hide Pruned;
    assert [node][..0] == [];
  }

  /** The loop that assembles one projection. */
  method Project(body: Body, indexes: set<nat>, prune: bool) returns (projected: Body)
    requires forall i :: i in indexes ==> i < |body|
    ensures projected == if prune then PruneAll(Pick(body, indexes), Used(Pick(body, indexes))) else Pick(body, indexes)
    ensures !prune ==> Selects(body, indexes, projected)
    ensures prune ==> exists picked :: Selects(body, indexes, picked) && projected == PruneAll(picked, Used(picked))
  {
    hide Pruned, Selects;
    PickSelects(body, indexes);
    assert indexes == Chosen(body, indexes);
    var used := set i, name | i in indexes && name in body[i].Loads() :: name;
    PickedLoads(body, indexes);
    projected := [];
    for index := 0 to |body|
      invariant projected ==
                if prune then PruneAll(Pick(body[..index], indexes), used) else Pick(body[..index], indexes)
    {
      ghost var front := body[..index];
      assert body[..index + 1][..index] == front;
      ghost var picked := Pick(front, indexes);
      assert index !in indexes ==> Pick(body[..index + 1], indexes) == picked;
      if index in indexes {
        assert Pick(body[..index + 1], indexes) == picked + [body[index]];
        assert (picked + [body[index]])[..|picked|] == picked;
        if prune {
          var node := Pruned(body[index], used);
          if node.Some? {
            projected := projected + [node.value];
          }
        } else {
          projected := projected + [body[index]];
        }
      }
    }
    assert body[..|body|] == body;
  }

  lemma {:induction false} PickMembers(body: Body, s: set<nat>, node: Stmt)
    ensures node in Pick(body, s) <==> exists i :: 0 <= i < |body| && i in s && body[i] == node
  {
    if body != [] {
      var front := body[..|body| - 1];
      PickMembers(front, s, node);
      if i :| 0 <= i < |front| && i in s && front[i] == node {
        assert body[i] == node;
      }
    }
  }

  lemma PickedLoads(body: Body, s: set<nat>)
    requires forall i :: i in s ==> i < |body|
    ensures Used(Pick(body, s)) == set i, name | i in s && name in body[i].Loads() :: name
  {
    var picked := Pick(body, s);
    forall i | i in s
      ensures body[i] in picked
    {
      PickMembers(body, s, body[i]);
    }
    forall k | 0 <= k < |picked|
      ensures exists i :: 0 <= i < |body| && i in s && body[i] == picked[k]
    {
      PickMembers(body, s, picked[k]);
    }
  }

  // ---- Fingerprints ----

  type Rendering = Body -> string

  /** The three views of a definition: alone, with its dependencies, with pruned imports. */
  ghost function Views(body: Body, d: nat): seq<Body>
    requires d < |body|
  {
    var whole := Pick(body, Selected(body, d));
    [Pick(body, {d}), whole, PruneAll(whole, Used(whole))]
  }

  ghost predicate IsFingerprint(body: Body, norm: Rendering, fp: string) {
    exists d: nat, k :: d < |body| && body[d].Define? && 0 <= k < 3 && Shows(body, norm, fp, d, k)
  }

  ghost predicate Shows(body: Body, norm: Rendering, fp: string, d: nat, k: nat)
    requires d < |body| && k < 3
  {
    |fp| >= SUBSTANTIAL && norm(Views(body, d)[k]) == fp
  }

  method Fingerprints(body: Body, norm: Rendering) returns (fingerprints: set<string>)
    ensures forall fp :: fp in fingerprints <==> IsFingerprint(body, norm, fp)
  {
    hide Selected;
    var boundAt, futures := Scan(body);
    fingerprints := {};
    for d := 0 to |body|
      invariant forall fp :: fp in fingerprints <==>
                  exists e: nat, k :: e < d && body[e].Define? && 0 <= k < 3 && Shows(body, norm, fp, e, k)
    {
      if body[d].Define? {
        var own := OwnFingerprints(body, d, norm, boundAt, futures);
        fingerprints := fingerprints + own;
      }
    }
  }

  method OwnFingerprints(body: Body, d: nat, norm: Rendering, boundAt: map<string, nat>, futures: set<nat>)
    returns (own: set<string>)
    requires d < |body| && futures == Futures(body)
    requires forall name :: Lookup(boundAt, name) == Binder(body, name)
    ensures forall fp :: fp in own <==> exists k :: 0 <= k < 3 && Shows(body, norm, fp, d, k)
  {
    hide Selected, Pick, PruneAll;
    SelectedIsLeast(body, d);
    var alone := Project(body, {d}, false);
    var selected := Dependencies(body, d, boundAt, futures);
    var whole := Project(body, selected, false);
    var pruned := Project(body, selected, true);
    var views := [alone, whole, pruned];
    assert views == Views(body, d);
    own := set k | 0 <= k < 3 && |norm(views[k])| >= SUBSTANTIAL :: norm(views[k]);
    forall fp
      ensures fp in own <==> exists k :: 0 <= k < 3 && Shows(body, norm, fp, d, k)
    {
      if k :| 0 <= k < 3 && Shows(body, norm, fp, d, k) {
        assert norm(views[k]) == fp;
      }
      if fp in own {
        var k :| 0 <= k < 3 && |norm(views[k])| >= SUBSTANTIAL && norm(views[k]) == fp;
        assert Shows(body, norm, fp, d, k);
      }
    }
  }
}
