/** Device artifact entries: a lifecycle entry whose steps launch admitted device runtimes, and the
    teardown order that joins the two. */
module DeviceEntry {
  import opened Outcome
  import opened Shapes
  import opened RuntimeLog
  import opened EntryState
  import opened RuntimeEntry
  import opened RuntimeSystem
  import CubinProtocol
  import DeviceRuntime

  datatype Error = LifecycleFailed | Runtime(error: DeviceRuntime.CloseError)

  /** One wrapper: the entry it closes first and the device runtimes it closes after. */
  datatype Wrapper = Wrapper(entry: nat, mine: seq<nat>)

  /** The engine process: entries, the device they share and the wrappers around them. */
  class Engine {
    const process: Process
    const wrappers: seq<Wrapper>

    ghost function Worker(): DeviceRuntime.Worker {
      process.provider.worker
    }

    ghost function DeviceLog(): CubinProtocol.Log
      reads Worker().driver
    {
      Worker().driver.log
    }

    ghost predicate Valid()
      reads process, process.entries, process.budget, process.provider, Worker(), Worker().driver, Worker().libraries
    {
      && process.Valid()
      && forall k :: 0 <= k < |wrappers| ==>
           wrappers[k].entry < |process.entries| && forall m :: m in wrappers[k].mine ==> m < |Worker().runtimes|
    }

    constructor (process: Process, wrappers: seq<Wrapper>)
      requires process.Valid()
      requires forall k :: 0 <= k < |wrappers| ==>
                 wrappers[k].entry < |process.entries| &&
                 forall m :: m in wrappers[k].mine ==> m < |process.provider.worker.runtimes|
      ensures Valid() && this.process == process && this.wrappers == wrappers
    {
      this.process, this.wrappers := process, wrappers;
    }

    /** Prepare and call go to the entry; what they launch goes to its steps' runtimes. */
    method Use(k: nat, command: Command) returns (ok: bool)
      requires Valid() && k < |wrappers| && !command.DoClose?
      modifies process.entries[wrappers[k].entry], process.budget, process.provider, Worker().driver
      ensures Valid() && DeviceUsed(old(DeviceLog()), DeviceLog())
      ensures old(process.entries[wrappers[k].entry].closing) ==> !ok && DeviceLog() == old(DeviceLog())
    {
      hide Process.Valid;
      ok := process.Step(wrappers[k].entry, command);
    }

    /** Lifecycle close first: it may launch destroy steps on these very runtimes, and fence, before
        it fails or succeeds.  If it fails nothing is unloaded and every library is as usable as
        before.  Otherwise the runtimes close in order up to the first failure; nothing launches
        any more, and each unload stands right behind a fence of its own. */
    method Close(k: nat) returns (r: Result<(), Error>, ghost middle: CubinProtocol.Log)
      requires Valid() && k < |wrappers|
      modifies process.entries[wrappers[k].entry], process.budget, process.provider, Worker().driver, Worker().libraries
      ensures Valid()
      ensures DeviceUsed(old(DeviceLog()), middle) && CubinProtocol.OnlyCloses(middle, DeviceLog())
      ensures r == Err(LifecycleFailed) <==> !process.entries[wrappers[k].entry].closed
      ensures r == Err(LifecycleFailed) ==>
                && DeviceLog() == middle
                && (forall h :: CubinProtocol.Usable(old(DeviceLog()), h) <==> CubinProtocol.Usable(DeviceLog(), h))
                && forall j :: 0 <= j < |Worker().runtimes| ==>
                     Worker().runtimes[j].library.closed == old(Worker().runtimes[j].library.closed)
      ensures r.Ok? ==> forall m :: m in wrappers[k].mine ==> Worker().runtimes[m].library.closed
      ensures r.Ok? ==> DeviceRuntime.Answered(middle, DeviceLog(), Ok(()), 0)
      ensures r.Err? && r.error.Runtime? ==>
                exists m :: m in wrappers[k].mine &&
                  DeviceRuntime.Answered(middle, DeviceLog(), Err(r.error.error), Worker().runtimes[m].library.origin)
      ensures forall j :: 0 <= j < |Worker().runtimes| && j !in wrappers[k].mine ==>
                Worker().runtimes[j].library.closed == old(Worker().runtimes[j].library.closed)
    {
      hide Process.Core, DeviceRuntime.Worker.Valid, DeviceUsed, CubinProtocol.OnlyCloses, DeviceRuntime.Answered;
      var w := wrappers[k];
      var ok := process.Step(w.entry, DoClose);
      middle := DeviceLog();
      if !ok {
        DeviceRuntime.NothingClosed(middle);
        UsedKeepsUsable(old(DeviceLog()), middle);
        return Err(LifecycleFailed), middle;
      }
      assert forall i :: 0 <= i < |w.mine| ==> w.mine[i] in w.mine;
      var shut, done := process.provider.worker.CloseRuntimes(w.mine);
      if shut.Err? {
        assert w.mine[done] in w.mine;
        return Err(Runtime(shut.error)), middle;
      }
      return Ok(()), middle;
    }

    lemma HasEntry(k: nat)
      requires Valid() && k < |wrappers|
      ensures wrappers[k].entry < |process.entries| && process.entries[wrappers[k].entry] in process.entries
    {
      hide Process.Valid;
    }

    /** Close runtimes directly. */
    method Drop(mine: seq<nat>)
      requires Valid() && forall i :: 0 <= i < |mine| ==> mine[i] < |Worker().runtimes|
      modifies Worker().driver, Worker().libraries
      ensures Valid() && CubinProtocol.OnlyCloses(old(DeviceLog()), DeviceLog())
    {
      hide Process.Core, DeviceRuntime.Worker.Valid, CubinProtocol.OnlyCloses;
      var shut, done := process.provider.worker.CloseRuntimes(mine);
    }
  }

  lemma UsedKeepsUsable(before: CubinProtocol.Log, after: CubinProtocol.Log)
    requires DeviceUsed(before, after)
    ensures forall h :: CubinProtocol.Usable(before, h) <==> CubinProtocol.Usable(after, h)
  {
    hide CubinProtocol.Usable;
    forall h
      ensures CubinProtocol.Usable(before, h) <==> CubinProtocol.Usable(after, h)
    {
      CubinProtocol.UsesKeepLive(before, after, h);
    }
  }

  /** In a close, whatever was launched before the lifecycle close returned precedes the fence right
      before its library's unload, and nothing is launched after. */
  lemma LaunchesPrecedeFence(before: CubinProtocol.Log, middle: CubinProtocol.Log, after: CubinProtocol.Log, i: nat,
                             j: nat)
    requires DeviceUsed(before, middle) && CubinProtocol.OnlyCloses(middle, after)
    requires i < |after| && after[i].Launched? && |before| <= j < |after| && after[j].Unloaded?
    ensures i < |middle| < j && after[j - 1] == CubinProtocol.Fence(true)
  {
    assert i >= |middle| ==> CubinProtocol.Closes(after, |middle|, i);
    assert j >= |middle| ==> CubinProtocol.Closes(after, |middle|, j);
    assert forall n :: 0 <= n < |middle| ==> after[n] == middle[n];
  }

  datatype Action = DoUse(k: nat, command: Command) | DoCloseWrapper(k: nat) | DoDrop(mine: seq<nat>)

  /** Every run of prepares, calls and closes of the wrappers, with any provider, driver and
      executor behaviour, and with runtimes also closed directly as the engine's cleanup does:
      nothing launches on an unloaded library, every unload follows a fence, and the shared budget
      balances. */
  method RunEngine(engine: Engine, script: seq<Action>)
    requires engine.Valid()
    modifies engine.process.entries, engine.process.budget, engine.process.provider, engine.Worker().driver,
             engine.Worker().libraries
    ensures engine.Valid() && engine.process.entries == old(engine.process.entries)
    ensures CubinProtocol.Disciplined(engine.DeviceLog()) && CubinProtocol.FencedUnloads(engine.DeviceLog())
    ensures Disciplined(engine.process.provider.log)
  {
    hide Engine.Valid, DeviceUsed, CubinProtocol.OnlyCloses, CubinProtocol.Usable;
    for n := 0 to |script|
      invariant engine.Valid() && engine.process.entries == old(engine.process.entries)
      invariant engine.Worker().libraries == old(engine.Worker().libraries)
    {
      match script[n] {
        case DoUse(k, command) =>
          if k < |engine.wrappers| && !command.DoClose? {
            engine.HasEntry(k);
            var used := engine.Use(k, command);
          }
        case DoCloseWrapper(k) =>
          if k < |engine.wrappers| {
            engine.HasEntry(k);
            var shut, _ := engine.Close(k);
          }
        case DoDrop(mine) =>
          if forall i :: 0 <= i < |mine| ==> mine[i] < |engine.process.provider.worker.runtimes| {
            engine.Drop(mine);
          }
      }
    }
    DeviceInOrder(engine);
  }

  lemma DeviceInOrder(engine: Engine)
    requires engine.Valid()
    ensures CubinProtocol.Disciplined(engine.DeviceLog()) && CubinProtocol.FencedUnloads(engine.DeviceLog())
    ensures Disciplined(engine.process.provider.log)
  {
  }
}
