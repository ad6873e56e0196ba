/** The process-wide reservation authority shared by every artifact entry. */
module AllocationBudget {
  import opened Outcome

  /** What one reservation holds: backing bytes and number of allocations. */
  datatype Charge = Charge(bytes: int, keys: int)

  datatype Limits = Limits(maxBytes: int, maxKeys: int)

  /** A reservation is identified by its owner object and the owner's cache key. */
  datatype Identity<K> = Identity(owner: nat, key: K)

  type Ledger<K(==)> = map<Identity<K>, Charge>

  // ---- Sums over a ledger ----

  ghost function Total<K>(m: map<K, Charge>): Charge {
    if m == map[] then Charge(0, 0)
    else
      var k := Pick(m);
      var rest := Total(m - {k});
      Charge(m[k].bytes + rest.bytes, m[k].keys + rest.keys)
  }

  ghost function Pick<K>(m: map<K, Charge>): (k: K)
    requires m != map[]
    ensures k in m
  {
    var k :| k in m;
    k
  }

  lemma {:induction false} TotalRemove<K>(m: map<K, Charge>, k: K)
    requires k in m
    ensures Total(m).bytes == m[k].bytes + Total(m - {k}).bytes
    ensures Total(m).keys == m[k].keys + Total(m - {k}).keys
    decreases |m|
  {
    var j := Pick(m);
    if j != k {
      TotalRemove(m - {j}, k);
      TotalRemove(m - {k}, j);
      assert (m - {j}) - {k} == (m - {k}) - {j};
      assert (m - {j})[k] == m[k] && (m - {k})[j] == m[j];
    }
  }

  lemma TotalInsert<K>(m: map<K, Charge>, k: K, c: Charge)
    requires k !in m
    ensures Total(m[k := c]).bytes == c.bytes + Total(m).bytes
    ensures Total(m[k := c]).keys == c.keys + Total(m).keys
  {
    TotalRemove(m[k := c], k);
    assert m[k := c] - {k} == m;
  }

  lemma {:induction false} TotalUnion<K>(a: map<K, Charge>, b: map<K, Charge>)
    requires a.Keys !! b.Keys
    ensures Total(a + b).bytes == Total(a).bytes + Total(b).bytes
    ensures Total(a + b).keys == Total(a).keys + Total(b).keys
    decreases b.Keys
  {
    if b == map[] {
      assert a + b == a;
    } else {
      var k := Pick(b);
      var rest := b - {k};
      var whole := a + rest;
      assert a + b == whole[k := b[k]];
      TotalUnion(a, rest);
      TotalInsert(whole, k, b[k]);
    }
  }

  ghost predicate NonNegative<K>(m: map<K, Charge>) {
    forall k :: k in m ==> m[k].bytes >= 0 && m[k].keys >= 1
  }

  lemma {:induction false} TotalNonNegative<K>(m: map<K, Charge>)
    requires NonNegative(m)
    ensures Total(m).bytes >= 0 && Total(m).keys >= 0
    decreases |m|
  {
    if m != map[] {
      var k :| k in m;
      TotalRemove(m, k);
      TotalNonNegative(m - {k});
    }
  }

  /** The reservations of one owner. */
  ghost function Owned<K>(m: Ledger<K>, owner: nat): Ledger<K> {
    map id | id in m && id.owner == owner :: m[id]
  }

  /** One owner's share never exceeds the whole, so an entry-level limit check rejects nothing
      that the shared budget would have accepted. */
  lemma OwnerShare<K>(m: Ledger<K>, owner: nat)
    requires NonNegative(m)
    ensures 0 <= Total(Owned(m, owner)).bytes <= Total(m).bytes
    ensures 0 <= Total(Owned(m, owner)).keys <= Total(m).keys
  {
    var mine := Owned(m, owner);
    var rest := m - mine.Keys;
    assert m == rest + mine;
    TotalUnion(rest, mine);
    TotalNonNegative(mine);
    TotalNonNegative(rest);
  }

  lemma OwnedInsert<K>(m: Ledger<K>, id: Identity<K>, c: Charge)
    requires id !in m
    ensures Total(Owned(m[id := c], id.owner)).bytes == c.bytes + Total(Owned(m, id.owner)).bytes
    ensures Total(Owned(m[id := c], id.owner)).keys == c.keys + Total(Owned(m, id.owner)).keys
  {
    var mine := Owned(m, id.owner);
    assert Owned(m[id := c], id.owner) == mine[id := c];
    TotalInsert(mine, id, c);
  }

  ghost function OwnersTotal<K>(m: Ledger<K>, owners: seq<nat>): Charge {
    if owners == [] then Charge(0, 0)
    else
      var n := |owners| - 1;
      var rest := OwnersTotal(m, owners[..n]);
      var last := Total(Owned(m, owners[n]));
      Charge(rest.bytes + last.bytes, rest.keys + last.keys)
  }

  /** Distinct owners that cover a ledger partition its total. */
  lemma {:induction false} OwnersPartition<K>(m: Ledger<K>, owners: seq<nat>)
    requires forall i, j :: 0 <= i < j < |owners| ==> owners[i] != owners[j]
    requires forall id :: id in m ==> id.owner in owners
    ensures Total(m).bytes == OwnersTotal(m, owners).bytes && Total(m).keys == OwnersTotal(m, owners).keys
    decreases |owners|
  {
    if owners == [] {
      assert m == map[];
    } else {
      hide Total, Owned, OwnersTotal;
      var n := |owners| - 1;
      var rest := WithoutOwner(m, owners[n]);
      OwnersPartition(rest, owners[..n]);
      OwnersTotalSame(m, rest, owners[..n]);
      OwnersTotalLast(m, owners);
    }
  }

  lemma OwnersTotalLast<K>(m: Ledger<K>, owners: seq<nat>)
    requires owners != []
    ensures var n := |owners| - 1;
            && OwnersTotal(m, owners).bytes == OwnersTotal(m, owners[..n]).bytes + Total(Owned(m, owners[n])).bytes
            && OwnersTotal(m, owners).keys == OwnersTotal(m, owners[..n]).keys + Total(Owned(m, owners[n])).keys
  {
    hide Total, Owned;
  }

  lemma WithoutOwner<K>(m: Ledger<K>, owner: nat) returns (rest: Ledger<K>)
    ensures rest == m - Owned(m, owner).Keys
    ensures Total(m).bytes == Total(rest).bytes + Total(Owned(m, owner)).bytes
    ensures Total(m).keys == Total(rest).keys + Total(Owned(m, owner)).keys
    ensures forall id :: id in rest <==> id in m && id.owner != owner
    ensures forall o :: o != owner ==> Owned(rest, o) == Owned(m, o)
  {
    hide Total;
    var mine := Owned(m, owner);
    rest := m - mine.Keys;
    assert m == rest + mine;
    TotalUnion(rest, mine);
  }

  lemma {:induction false} OwnersTotalSame<K>(m: Ledger<K>, m': Ledger<K>, owners: seq<nat>)
    requires forall o :: o in owners ==> Owned(m', o) == Owned(m, o)
    ensures OwnersTotal(m, owners) == OwnersTotal(m', owners)
    decreases |owners|
  {
    hide Owned, Total;
    if owners != [] {
      OwnersTotalSame(m, m', owners[..|owners| - 1]);
    }
  }

  // ---- What one owner's operation may do to the ledger ----

  ghost predicate OnlyOwner<K(!new)>(owner: nat, before: Ledger<K>, after: Ledger<K>) {
    forall id: Identity<K> :: id.owner != owner ==>
      (id in before <==> id in after) && (id in before ==> before[id] == after[id])
  }

  lemma OnlyOwnerKeepsOthers<K(!new)>(actor: nat, other: nat, before: Ledger<K>, after: Ledger<K>)
    requires OnlyOwner(actor, before, after) && actor != other
    ensures Owned(after, other) == Owned(before, other)
  {
    forall id | id in Owned(after, other) || id in Owned(before, other)
      ensures id in before && id in after && before[id] == after[id]
    {
      assert id.owner == other;
    }
  }

  datatype BudgetError = Malformed | Repeats | KeyBudget | ByteBudget

  class Budget<K(==, !new)> {
    const limits: Limits
    var reservations: Ledger<K>
    var bytes: int
    var keys: int

    /** The counters are the sums of the live reservations and never exceed the limits. */
    ghost predicate Valid()
      reads this
    {
      && bytes == Total(reservations).bytes && keys == Total(reservations).keys
      && NonNegative(reservations)
      && 0 <= bytes <= limits.maxBytes
      && 0 <= keys <= limits.maxKeys
    }

    lemma SomeRoom()
      requires Valid()
      ensures limits.maxBytes >= 0 && limits.maxKeys >= 0
    {
    }

    constructor (limits: Limits)
      requires limits.maxBytes >= 1 && limits.maxKeys >= 1
      ensures Valid() && this.limits == limits && reservations == map[]
    {
      this.limits := limits;
      reservations, bytes, keys := map[], 0, 0;
    }

    /** The outcome a reservation request must have. */
    ghost function Verdict(owner: nat, key: K, byteCount: int, count: int): Result<(), BudgetError>
      reads this
    {
      if byteCount < 0 || count < 1 then Err(Malformed)
      else if Identity(owner, key) in reservations then Err(Repeats)
      else if Total(reservations).keys + count > limits.maxKeys then Err(KeyBudget)
      else if Total(reservations).bytes + byteCount > limits.maxBytes then Err(ByteBudget)
      else Ok(())
    }

    method Reserve(owner: nat, key: K, byteCount: int, count: int) returns (r: Result<(), BudgetError>)
      requires Valid()
      modifies this
      ensures Valid()
      ensures r == old(Verdict(owner, key, byteCount, count))
      ensures r.Ok? ==> reservations == old(reservations)[Identity(owner, key) := Charge(byteCount, count)]
      ensures r.Err? ==> reservations == old(reservations)
    {
      if byteCount < 0 || count < 1 {
        return Err(Malformed);
      }
      var identity := Identity(owner, key);
      if identity in reservations {
        return Err(Repeats);
      }
      if keys + count > limits.maxKeys {
        return Err(KeyBudget);
      }
      if bytes + byteCount > limits.maxBytes {
        return Err(ByteBudget);
      }
      TotalInsert(reservations, identity, Charge(byteCount, count));
      reservations := reservations[identity := Charge(byteCount, count)];
      bytes := bytes + byteCount;
      keys := keys + count;
      return Ok(());
    }

    method Cancel(owner: nat, key: K)
      requires Valid()
      modifies this
      ensures Valid()
      ensures reservations == old(reservations) - {Identity(owner, key)}
    {
      var identity := Identity(owner, key);
      if identity in reservations {
        var c := reservations[identity];
        TotalRemove(reservations, identity);
        TotalNonNegative(reservations - {identity});
        reservations := reservations - {identity};
        bytes := bytes - c.bytes;
        keys := keys - c.keys;
      }
    }

    method ReleaseOwner(owner: nat)
      requires Valid()
      modifies this
      ensures Valid()
      ensures reservations == old(reservations) - old(Owned(reservations, owner)).Keys
    {
      hide Valid;
      var identities := set id | id in reservations && id.owner == owner;
      ghost var start, mine := reservations, Owned(reservations, owner).Keys;
      assert identities == mine && forall id :: id in mine ==> id.owner == owner;
      hide Owned;
      assert start - (mine - identities) == start;
      while identities != {}
        invariant Valid() && identities <= mine && reservations == start - (mine - identities)
        decreases identities
      {
        var identity :| identity in identities;
        assert identity == Identity(owner, identity.key);
        Cancel(owner, identity.key);
        TakeOne(start, mine, identities, identity);
        identities := identities - {identity};
      }
      assert mine - {} == mine;
    }
  }

  lemma TakeOne<K>(m: map<K, Charge>, mine: set<K>, left: set<K>, k: K)
    requires k in left && left <= mine
    ensures m - (mine - left) - {k} == m - (mine - (left - {k}))
  {
    assert mine - (left - {k}) == (mine - left) + {k};
  }
}
