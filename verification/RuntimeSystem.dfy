/** Any number of entries sharing one budget and one provider, driven in any order. */
module RuntimeSystem {
  import opened Outcome
  import opened Shapes
  import opened AllocationBudget
  import opened RuntimeLog
  import opened EntryState
  import opened RuntimeEntry
  import CubinProtocol
  import DeviceRuntime

  datatype Command = DoPrepare(base: Frame) | DoCall(base: Frame) | DoClose

  ghost function Owners(entries: seq<Entry>): (owners: seq<nat>)
    ensures |owners| == |entries| && forall i :: 0 <= i < |entries| ==> owners[i] == entries[i].owner
  {
    seq(|entries|, i requires 0 <= i < |entries| => entries[i].owner)
  }

  ghost function EntryBytes(entries: seq<Entry>): int
    reads entries
  {
    if entries == [] then 0 else EntryBytes(entries[..|entries| - 1]) + entries[|entries| - 1].allocatedBytes
  }

  ghost function EntryKeys(entries: seq<Entry>): int
    reads entries
  {
    if entries == [] then 0 else EntryKeys(entries[..|entries| - 1]) + entries[|entries| - 1].allocatedKeys
  }

  /** The part of an entry's invariant that other owners' operations can reach. */
  ghost predicate Sound(e: Entry, ledger: Ledger<CacheKey>, log: Log)
    reads e
  {
    && e.config.Sealed()
    && BooksBalance(e.MyBooks(), ledger)
    && LifeSound(e.MyLife(), log)
    && (e.closed ==> e.resourceFrames == map[])
    && e.Bounded()
  }

  /** An entry that did not act is still valid. */
  lemma Undisturbed(e: Entry, actor: nat, ledger: Ledger<CacheKey>, log: Log)
    requires Sound(e, ledger, log) && e.owner != actor
    requires OnlyOwner(actor, ledger, e.budget.reservations) && Extends(actor, log, e.provider.log)
    requires e.budget.Valid() && Disciplined(e.provider.log)
    ensures e.Core()
  {
    hide Total, BooksBalance, LifeSound, Disciplined;
    OthersKeepBooks(e.MyBooks(), actor, ledger, e.budget.reservations);
    OthersKeepLife(e.MyLife(), actor, log, e.provider.log);
  }

  lemma SharedAuthority(e: Entry)
    requires e.Core()
    ensures e.budget.Valid() && Disciplined(e.provider.log) && Sound(e, e.budget.reservations, e.provider.log)
  {
    hide Total, BooksBalance, LifeSound, Disciplined;
  }

  ghost predicate Booked(e: Entry, ledger: Ledger<CacheKey>)
    reads e
  {
    && e.allocatedBytes == Total(Owned(ledger, e.owner)).bytes
    && e.allocatedKeys == Total(Owned(ledger, e.owner)).keys
    && forall k :: Identity(e.owner, k) in ledger <==> k in e.resourceFrames
  }

  lemma BooksOf(e: Entry, ledger: Ledger<CacheKey>)
    requires BooksBalance(e.MyBooks(), ledger)
    ensures Booked(e, ledger)
  {
  }

  lemma {:induction false} EntriesMatchOwners(entries: seq<Entry>, ledger: Ledger<CacheKey>)
    requires forall e :: e in entries ==> Booked(e, ledger)
    ensures EntryBytes(entries) == OwnersTotal(ledger, Owners(entries)).bytes
    ensures EntryKeys(entries) == OwnersTotal(ledger, Owners(entries)).keys
    decreases |entries|
  {
    hide Total, Owned;
    if entries != [] {
      var n := |entries| - 1;
      assert Owners(entries)[..n] == Owners(entries[..n]);
      EntriesMatchOwners(entries[..n], ledger);
      assert entries[n] in entries;
    }
  }

  class Process {
    const budget: Budget<CacheKey>
    const provider: Provider
    var entries: seq<Entry>

    /** The entries in order, and the device they share. */
    ghost predicate Valid()
      reads this, entries, budget, provider, provider.worker, provider.worker.driver, provider.worker.libraries
    {
      Core() && provider.worker.Valid()
    }

    ghost predicate Core()
      reads this, entries, budget, provider
    {
      && budget.Valid()
      && Disciplined(provider.log)
      && (forall e :: e in entries ==> e.budget == budget && e.provider == provider && e.Core())
      && (forall i, j :: 0 <= i < j < |entries| ==> entries[i].owner != entries[j].owner)
      && (forall id :: id in budget.reservations ==> id.owner in Owners(entries))
      && (forall e :: e in provider.log ==> e.owner in Owners(entries))
    }

    constructor (limits: Limits, worker: DeviceRuntime.Worker, queriesCapture: bool)
      requires limits.maxBytes >= 1 && limits.maxKeys >= 1 && worker.Valid()
      ensures Valid() && entries == [] && fresh(budget) && fresh(provider) && provider.worker == worker
    {
      budget := new Budget(limits);
      provider := new Provider(worker, queriesCapture);
      entries := [];
    }

    /** Construct one more entry; its owner is an object nobody has seen before. */
    method AddEntry(config: Config, owner: nat) returns (e: Entry)
      requires Valid() && config.Sealed() && owner !in Owners(entries)
      modifies this`entries
      ensures Valid() && fresh(e) && entries == old(entries) + [e]
    {
      hide DeviceRuntime.Worker.Valid, Entry.Core, Budget.Valid, Disciplined, Config.Sealed;
      e := new Entry(owner, config, budget, provider);
      ghost var before := Owners(entries);
      entries := entries + [e];
      assert Owners(entries) == before + [owner];
    }

    method Act(e: Entry, command: Command) returns (ok: bool)
      requires e.Valid()
      modifies e, e.budget, e.provider, e.provider.worker.driver
      ensures e.Valid()
      ensures OnlyOwner(e.owner, old(e.budget.reservations), e.budget.reservations)
      ensures Extends(e.owner, old(e.provider.log), e.provider.log)
      ensures DeviceUsed(old(e.provider.worker.driver.log), e.provider.worker.driver.log)
      ensures command.DoClose? ==> (ok <==> e.closed)
      ensures !command.DoClose? && old(e.closing) ==>
                !ok && e.provider.worker.driver.log == old(e.provider.worker.driver.log)
    {
      hide Entry.Valid;
      match command {
        case DoPrepare(base) =>
          var prepared := e.Prepare(base);
          ok := prepared.Ok?;
        case DoCall(base) =>
          var called, _, _ := e.Call(base);
          ok := called.Ok?;
        case DoClose =>
          var shut, _, _, _ := e.Close();
          ok := shut.Ok?;
      }
    }

    /** One method call on one entry, with any arguments and any provider behaviour. */
    method Step(i: nat, command: Command) returns (ok: bool)
      requires Valid() && i < |entries|
      modifies entries[i], budget, provider, provider.worker.driver
      ensures Valid()
      ensures DeviceUsed(old(provider.worker.driver.log), provider.worker.driver.log)
      ensures command.DoClose? ==> (ok <==> entries[i].closed)
      ensures !command.DoClose? && old(entries[i].closing) ==>
                !ok && provider.worker.driver.log == old(provider.worker.driver.log)
    {
      hide Entry.Core, Budget.Valid, Disciplined, Sound, DeviceRuntime.Worker.Valid;
      var e := entries[i];
      ghost var ledger, log := budget.reservations, provider.log;
      forall j | 0 <= j < |entries|
        ensures Sound(entries[j], ledger, log)
      {
        SharedAuthority(entries[j]);
      }
      ok := Act(e, command);
      SharedAuthority(e);
      forall j | 0 <= j < |entries| && j != i
        ensures entries[j].Core()
      {
        Undisturbed(entries[j], e.owner, ledger, log);
      }
    }

    /** The shared counters are the sum of what the entries think they hold, and of nothing else,
        and stay within the limits. */
    lemma Accounting()
      requires Core()
      ensures budget.bytes == EntryBytes(entries) && budget.keys == EntryKeys(entries)
      ensures budget.bytes <= budget.limits.maxBytes && budget.keys <= budget.limits.maxKeys
      ensures forall id :: id in budget.reservations <==>
                exists e :: e in entries && e.owner == id.owner && id.key in e.resourceFrames
    {
      hide Disciplined, Entry.Core, Total, Owned;
      forall e | e in entries
        ensures Booked(e, budget.reservations)
      {
        SharedAuthority(e);
        BooksOf(e, budget.reservations);
      }
      OwnersPartition(budget.reservations, Owners(entries));
      EntriesMatchOwners(entries, budget.reservations);
      forall id
        ensures id in budget.reservations <==>
                  exists e :: e in entries && e.owner == id.owner && id.key in e.resourceFrames
      {
        assert id == Identity(id.owner, id.key);
        if id in budget.reservations {
          var i :| 0 <= i < |entries| && Owners(entries)[i] == id.owner;
          assert entries[i] in entries && Booked(entries[i], budget.reservations);
        }
      }
    }

    /** Every run: whatever the order of calls and whatever the provider does, the process stays
        valid, its books balance and its log is disciplined. */
    method Run(script: seq<(nat, Command)>)
      requires Valid() && forall c :: c in script ==> c.0 < |entries|
      modifies entries, budget, provider, provider.worker.driver
      ensures Valid() && entries == old(entries)
      ensures Disciplined(provider.log)
      ensures budget.bytes == EntryBytes(entries) <= budget.limits.maxBytes
      ensures budget.keys == EntryKeys(entries) <= budget.limits.maxKeys
    {
      for i := 0 to |script|
        invariant Valid() && entries == old(entries)
      {
        hide Valid;
        var ok := Step(script[i].0, script[i].1);
      }
      Accounting();
    }
  }
}
