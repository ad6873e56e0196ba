/** The shared budget with entries running on different threads.

    Each entry has its own lock, so between its reservation and its commit or cancellation every
    other entry may act.  A run is any sequence of actions; one that is not enabled changes
    nothing. */
module BudgetThreads {
  import opened Outcome
  import opened AllocationBudget
  import opened Shapes
  import opened EntryState

  type Key = CacheKey

  /** One entry as its own lock protects it: committed frames, its counters, and a reservation
      whose allocation is still under way. */
  datatype Holder = Holder(frames: map<Key, Charge>, bytes: int, keys: int, pending: Option<Key>, charge: Charge)

  datatype State = State(limits: Limits, ledger: Ledger<Key>, holders: map<nat, Holder>) {
    function Of(owner: nat): Holder {
      if owner in holders then holders[owner] else Holder(map[], 0, 0, None, Charge(0, 0))
    }
  }

  datatype Action =
    | Reserve(owner: nat, key: Key, charge: Charge)
    | Commit(owner: nat)
    | Cancel(owner: nat)
    | Release(owner: nat)

  /** The two tests of an entry against its own counters, then those of the budget. */
  ghost predicate EntryAdmits(s: State, owner: nat, c: Charge) {
    s.Of(owner).keys + c.keys <= s.limits.maxKeys && s.Of(owner).bytes + c.bytes <= s.limits.maxBytes
  }

  ghost predicate BudgetAdmits(s: State, c: Charge) {
    Total(s.ledger).keys + c.keys <= s.limits.maxKeys && Total(s.ledger).bytes + c.bytes <= s.limits.maxBytes
  }

  ghost predicate Enabled(s: State, a: Action) {
    var h := s.Of(a.owner);
    match a
    case Reserve(o, k, c) =>
      h.pending.None? && k !in h.frames && c.bytes >= 0 && c.keys >= 1 &&
      EntryAdmits(s, o, c) && Identity(o, k) !in s.ledger && BudgetAdmits(s, c)
    case Commit(_) => h.pending.Some?
    case Cancel(_) => h.pending.Some?
    case Release(_) => h.pending.None?
  }

  ghost function Next(s: State, a: Action): State {
    if !Enabled(s, a) then s else
    var h := s.Of(a.owner);
    match a
    case Reserve(o, k, c) =>
      s.(ledger := s.ledger[Identity(o, k) := c], holders := s.holders[o := h.(pending := Some(k), charge := c)])
    case Commit(o) =>
      s.(holders := s.holders[o := Holder(h.frames[h.pending.value := h.charge], h.bytes + h.charge.bytes,
                                          h.keys + h.charge.keys, None, h.charge)])
    case Cancel(o) =>
      s.(ledger := s.ledger - {Identity(o, h.pending.value)}, holders := s.holders[o := h.(pending := None)])
    case Release(o) =>
      s.(ledger := s.ledger - Owned(s.ledger, o).Keys, holders := s.holders[o := Holder(map[], 0, 0, None, h.charge)])
  }

  ghost function Exec(s: State, actions: seq<Action>): State {
    if actions == [] then s else Next(Exec(s, actions[..|actions| - 1]), actions[|actions| - 1])
  }

  ghost function InFlight(h: Holder): Charge {
    if h.pending.Some? then h.charge else Charge(0, 0)
  }

  /** An owner's reservations are its committed frames and its pending one, at their charges. */
  ghost predicate Agrees(h: Holder, ledger: Ledger<Key>, owner: nat) {
    && (forall k: Key :: Identity(owner, k) in ledger <==> k in h.frames || h.pending == Some(k))
    && (forall k :: k in h.frames ==> Identity(owner, k) in ledger && ledger[Identity(owner, k)] == h.frames[k])
    && (h.pending.Some? ==> h.pending.value !in h.frames && Identity(owner, h.pending.value) in ledger &&
                            ledger[Identity(owner, h.pending.value)] == h.charge)
    && h.bytes + InFlight(h).bytes == Total(Owned(ledger, owner)).bytes
    && h.keys + InFlight(h).keys == Total(Owned(ledger, owner)).keys
  }

  ghost predicate Inv(s: State) {
    && NonNegative(s.ledger)
    && Total(s.ledger).bytes <= s.limits.maxBytes && Total(s.ledger).keys <= s.limits.maxKeys
    && forall o: nat :: Agrees(s.Of(o), s.ledger, o)
  }

  lemma ReserveKeeps(s: State, o: nat, k: Key, c: Charge)
    requires Inv(s) && Enabled(s, Reserve(o, k, c))
    ensures Inv(Next(s, Reserve(o, k, c)))
  {
    hide Total, Owned;
    var id, n := Identity(o, k), Next(s, Reserve(o, k, c));
    TotalInsert(s.ledger, id, c);
    OwnedInsert(s.ledger, id, c);
    forall p: nat
      ensures Agrees(n.Of(p), n.ledger, p)
    {
      assert Agrees(s.Of(p), s.ledger, p);
      OtherKeeps(s, n, o, p);
    }
  }

  /** An action of `actor` leaves what another owner holds alone. */
  lemma OtherKeeps(s: State, n: State, actor: nat, p: nat)
    requires Agrees(s.Of(p), s.ledger, p) && OnlyOwner(actor, s.ledger, n.ledger) && (n.Of(p) == s.Of(p) || p == actor)
    ensures p != actor ==> Agrees(n.Of(p), n.ledger, p)
  {
    if p != actor {
      OnlyOwnerKeepsOthers(actor, p, s.ledger, n.ledger);
    }
  }

  lemma CommitKeeps(s: State, o: nat)
    requires Inv(s) && Enabled(s, Commit(o))
    ensures Inv(Next(s, Commit(o)))
  {
    hide Total, Owned;
    var n := Next(s, Commit(o));
    forall p: nat
      ensures Agrees(n.Of(p), n.ledger, p)
    {
      assert Agrees(s.Of(p), s.ledger, p);
    }
  }

  lemma CancelKeeps(s: State, o: nat)
    requires Inv(s) && Enabled(s, Cancel(o))
    ensures Inv(Next(s, Cancel(o)))
  {
    hide Total, Owned;
    var n := Next(s, Cancel(o));
    assert Agrees(s.Of(o), s.ledger, o);
    var id := Identity(o, s.Of(o).pending.value);
    TotalRemove(s.ledger, id);
    OwnedRemove(s.ledger, id);
    forall p: nat
      ensures Agrees(n.Of(p), n.ledger, p)
    {
      assert Agrees(s.Of(p), s.ledger, p);
      OtherKeeps(s, n, o, p);
    }
  }

  lemma OwnedRemove(m: Ledger<Key>, id: Identity<Key>)
    requires id in m
    ensures Total(Owned(m, id.owner)).bytes == m[id].bytes + Total(Owned(m - {id}, id.owner)).bytes
    ensures Total(Owned(m, id.owner)).keys == m[id].keys + Total(Owned(m - {id}, id.owner)).keys
  {
    TotalRemove(Owned(m, id.owner), id);
    assert Owned(m, id.owner) - {id} == Owned(m - {id}, id.owner);
  }

  lemma ReleaseKeeps(s: State, o: nat)
    requires Inv(s) && Enabled(s, Release(o))
    ensures Inv(Next(s, Release(o)))
  {
    hide Total;
    var n := Next(s, Release(o));
    OwnerShare(s.ledger, o);
    var rest := WithoutOwner(s.ledger, o);
    assert Owned(n.ledger, o) == map[];
    NothingTotalsZero();
    forall p: nat
      ensures Agrees(n.Of(p), n.ledger, p)
    {
      assert Agrees(s.Of(p), s.ledger, p);
      OtherKeeps(s, n, o, p);
    }
  }

  lemma NothingTotalsZero()
    ensures Total<Identity<Key>>(map[]) == Charge(0, 0)
  {
  }

  lemma StepKeeps(s: State, a: Action)
    requires Inv(s)
    ensures Inv(Next(s, a))
  {
    hide Inv, Enabled;
    if Enabled(s, a) {
      match a
      case Reserve(o, k, c) => ReserveKeeps(s, o, k, c);
      case Commit(o) => CommitKeeps(s, o);
      case Cancel(o) => CancelKeeps(s, o);
      case Release(o) => ReleaseKeeps(s, o);
    }
  }

  /** Every interleaving: the budget holds exactly the committed frames and the allocations under
      way, each entry's counters lag its share by its one pending charge, and the limits hold. */
  lemma {:induction false} EveryRun(limits: Limits, actions: seq<Action>)
    requires limits.maxBytes >= 0 && limits.maxKeys >= 0
    ensures Inv(Exec(State(limits, map[], map[]), actions))
  {
    if actions == [] {
      NothingTotalsZero();
      assert forall o: nat :: Owned<Key>(map[], o) == map[];
    } else {
      hide Inv;
      var n := |actions| - 1;
      EveryRun(limits, actions[..n]);
      StepKeeps(Exec(State(limits, map[], map[]), actions[..n]), actions[n]);
    }
  }

  /** Whatever the other threads are doing: a key that is not cached is not reserved, and an
      entry's own limit checks refuse nothing the budget would accept. */
  lemma GuardsAreRedundant(s: State, o: nat, k: Key, c: Charge)
    requires Inv(s) && s.Of(o).pending.None?
    ensures k !in s.Of(o).frames ==> Identity(o, k) !in s.ledger
    ensures BudgetAdmits(s, c) ==> EntryAdmits(s, o, c)
  {
    hide Total;
    assert Agrees(s.Of(o), s.ledger, o);
    OwnerShare(s.ledger, o);
  }

  // ---- The entries' own steps ----

  /** An entry between two of its steps, as the machine sees it. */
  ghost function HolderOf(b: Books, ledger: Ledger<Key>): Holder {
    Holder(map k | k in b.frames && Identity(b.owner, k) in ledger :: ledger[Identity(b.owner, k)],
           b.bytes, b.keys, None, Charge(0, 0))
  }

  /** Balanced books are a holder in agreement with the ledger. */
  lemma BalancedBooksAgree(b: Books, ledger: Ledger<Key>)
    requires BooksBalance(b, ledger)
    ensures Agrees(HolderOf(b, ledger), ledger, b.owner) && HolderOf(b, ledger).frames.Keys == b.frames.Keys
  {
    hide Total, Owned, FrameFits, CostBytes, FrameBooked;
  }

  /** The machine holds the entry: same ledger, same frames and counters, nothing pending. */
  ghost predicate Mirrors(s: State, b: Books, ledger: Ledger<Key>) {
    s.ledger == ledger && s.Of(b.owner).(charge := Charge(0, 0)) == HolderOf(b, ledger)
  }

  /** What an allocation does to the books is Reserve and then Commit. */
  lemma AllocationIsReserveCommit(s: State, b: Books, b': Books, k: Key, frame: Frame, cost: Charge)
    requires BooksBalance(b, s.ledger) && Mirrors(s, b, s.ledger)
    requires k !in b.frames && cost.bytes >= 0 && cost.keys >= 1
    requires EntryAdmits(s, b.owner, cost) && BudgetAdmits(s, cost)
    requires b' == Books(b.owner, b.config, b.frames[k := frame], b.bytes + cost.bytes, b.keys + cost.keys)
    ensures var ledger := s.ledger[Identity(b.owner, k) := cost];
            Mirrors(Exec(s, [Reserve(b.owner, k, cost), Commit(b.owner)]), b', ledger)
  {
    hide Total, Owned, BooksBalance, FrameBooked;
    BalancedBooksAgree(b, s.ledger);
    BookedHolder(b, b', s.ledger, k, frame, cost);
    var reserve, commit := Reserve(b.owner, k, cost), Commit(b.owner);
    TwoSteps(s, reserve, commit);
    assert Enabled(s, reserve) && Enabled(Next(s, reserve), commit);
    hide HolderOf, Exec, Agrees;
  }

  lemma BookedHolder(b: Books, b': Books, ledger: Ledger<Key>, k: Key, frame: Frame, cost: Charge)
    requires HolderOf(b, ledger).frames.Keys == b.frames.Keys && k !in b.frames
    requires b' == Books(b.owner, b.config, b.frames[k := frame], b.bytes + cost.bytes, b.keys + cost.keys)
    ensures HolderOf(b', ledger[Identity(b.owner, k) := cost]) ==
            Holder(HolderOf(b, ledger).frames[k := cost], b.bytes + cost.bytes, b.keys + cost.keys, None, Charge(0, 0))
  {
    var before := HolderOf(b, ledger).frames[k := cost];
    var after := HolderOf(b', ledger[Identity(b.owner, k) := cost]).frames;
    forall j | j in b.frames
      ensures Identity(b.owner, j) in ledger
    {
      assert j in HolderOf(b, ledger).frames;
    }
    assert before.Keys == after.Keys;
    assert forall j :: j in before ==> before[j] == after[j];
  }

  /** A failed allocation is Reserve and then Cancel, and leaves everything as it was. */
  lemma RollbackIsReserveCancel(s: State, b: Books, k: Key, cost: Charge)
    requires BooksBalance(b, s.ledger) && Mirrors(s, b, s.ledger)
    requires k !in b.frames && cost.bytes >= 0 && cost.keys >= 1
    requires EntryAdmits(s, b.owner, cost) && BudgetAdmits(s, cost)
    ensures Mirrors(Exec(s, [Reserve(b.owner, k, cost), Cancel(b.owner)]), b, s.ledger)
  {
    hide Total, Owned;
    BalancedBooksAgree(b, s.ledger);
    var reserve, cancel := Reserve(b.owner, k, cost), Cancel(b.owner);
    TwoSteps(s, reserve, cancel);
    assert Enabled(s, reserve) && Enabled(Next(s, reserve), cancel);
    assert s.ledger[Identity(b.owner, k) := cost] - {Identity(b.owner, k)} == s.ledger;
  }

  /** A successful close is Release. */
  lemma CloseIsRelease(s: State, b: Books)
    requires Mirrors(s, b, s.ledger)
    ensures var ledger := s.ledger - Owned(s.ledger, b.owner).Keys;
            Mirrors(Next(s, Release(b.owner)), Books(b.owner, b.config, map[], 0, 0), ledger)
  {
    hide Total;
  }

  lemma TwoSteps(s: State, first: Action, second: Action)
    ensures Exec(s, [first, second]) == Next(Next(s, first), second)
  {
    assert [first, second][..1] == [first] && [first][..0] == [];
    assert Exec(s, [first]) == Next(Exec(s, []), first);
  }
}
