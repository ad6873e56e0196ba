/** Admitted device runtimes, their teardown order, and every run of a worker that holds them. */
module DeviceRuntime {
  import opened Outcome
  import opened Bytes
  import opened Expression
  import opened Parameters
  import opened DevicePlan
  import opened CubinProtocol

  const MAX_SHARED: int := 0x10_0000
  const UINT32_MAX: int := 0xFFFF_FFFF
  const MAX_THREADS_PER_BLOCK: int := 1024
  const MAX_CLUSTER_BLOCKS: int := 32

  /** One positive 32-bit extent. */
  function Extent(e: Expr, frame: seq<Live>, fl: FloatOps): Option<int>
    requires e.Sealed(fl)
  {
    match Evaluate(e, frame, fl)
    case Ok(I(i)) => if 1 <= i <= UINT32_MAX then Some(i) else None
    case _ => None
  }

  function Dimensions(d: Dim3, frame: seq<Live>, fl: FloatOps): Option<Extents>
    requires d.Sealed(fl)
  {
    var x, y, z := Extent(d.x, frame, fl), Extent(d.y, frame, fl), Extent(d.z, frame, fl);
    if x.Some? && y.Some? && z.Some? then Some(Extents(x.value, y.value, z.value)) else None
  }

  function SharedBytes(e: Expr, frame: seq<Live>, fl: FloatOps): Option<int>
    requires e.Sealed(fl)
  {
    match Evaluate(e, frame, fl)
    case Ok(I(i)) => if 0 <= i <= MAX_SHARED then Some(i) else None
    case _ => None
  }

  /** The expression evaluates to this integer. */
  ghost predicate Counts(e: Expr, frame: seq<Live>, fl: FloatOps, n: int)
    requires e.Sealed(fl)
  {
    Evaluate(e, frame, fl) == Ok(I(n))
  }

  /** Each extent is what its own expression says, positive and below 2^32. */
  ghost predicate ExtentsAre(d: Dim3, frame: seq<Live>, fl: FloatOps, x: Extents)
    requires d.Sealed(fl)
  {
    && Counts(d.x, frame, fl, x.x) && 1 <= x.x <= UINT32_MAX
    && Counts(d.y, frame, fl, x.y) && 1 <= x.y <= UINT32_MAX
    && Counts(d.z, frame, fl, x.z) && 1 <= x.z <= UINT32_MAX
  }

  lemma DimensionsAre(d: Dim3, frame: seq<Live>, fl: FloatOps)
    requires d.Sealed(fl)
    ensures forall x :: Dimensions(d, frame, fl) == Some(x) <==> ExtentsAre(d, frame, fl, x)
  {
    hide Evaluate;
  }

  lemma SharedBytesAre(e: Expr, frame: seq<Live>, fl: FloatOps)
    requires e.Sealed(fl)
    ensures forall n :: SharedBytes(e, frame, fl) == Some(n) <==> Counts(e, frame, fl, n) && 0 <= n <= MAX_SHARED
  {
    hide Evaluate;
  }

  /** What the launch specification accepts: a bounded block, and a bounded cluster that divides the
      grid or no attribute that needs one. */
  ghost predicate Accepts(grid: Extents, block: Extents, cluster: Option<Extents>, clusterAttributes: bool) {
    && block.x * block.y * block.z <= MAX_THREADS_PER_BLOCK
    && match cluster
       case None => !clusterAttributes
       case Some(c) =>
         && c.x * c.y * c.z <= MAX_CLUSTER_BLOCKS
         && c.x > 0 && grid.x % c.x == 0 && c.y > 0 && grid.y % c.y == 0 && c.z > 0 && grid.z % c.z == 0
  }

  /** Whether an invocation can be configured for a frame, and with what. */
  ghost predicate Configured(inv: Invocation, frame: seq<Live>, fl: FloatOps, c: Configuration)
    requires inv.Sealed(fl)
  {
    && ExtentsAre(inv.grid, frame, fl, c.grid) && ExtentsAre(inv.block, frame, fl, c.block)
    && (inv.cluster.None? <==> c.cluster.None?)
    && (inv.cluster.Some? && c.cluster.Some? ==> ExtentsAre(inv.cluster.value, frame, fl, c.cluster.value))
    && Counts(inv.shared, frame, fl, c.shared) && 0 <= c.shared <= MAX_SHARED
    && Accepts(c.grid, c.block, c.cluster, inv.clusterAttributes)
  }

  /** The launch the plan describes for this frame: its kernel, the evaluated configuration and
      the packed parameters. */
  ghost predicate Describes(inv: Invocation, abis: seq<KernelAbi>, frame: seq<Live>, reg: Registry, l: Launch)
    requires inv.Sealed(reg.fl)
  {
    && l.kernel == inv.kernel
    && Configured(inv, frame, reg.fl, l.config)
    && (inv.stream.None? ==> l.config.stream.None?)
    && (inv.stream.Some? ==> inv.stream.value < |frame| && l.config.stream == Some(frame[inv.stream.value]))
    && MaterializeAll(inv.parameters, frame, reg).Ok?
    && var values := MaterializeAll(inv.parameters, frame, reg).value;
       Packable(abis, inv.kernel, values, reg.fl) && l.buffer == BufferOf(abis, inv.kernel, values, reg.fl)
  }

  /** Errors that only a mistyped plan could cause. */
  predicate Mistyped(e: LaunchError) {
    e in {NoSealedKernel, CountDiffers, SizeDiffers, NotMaterialized}
  }

  datatype CloseError = FenceFailed | UnloadFailed

  /** What closing an open library leaves behind, result by result. */
  ghost function CloseEvents(h: nat, r: Result<(), CloseError>): Log {
    match r
    case Ok(_) => [Fence(true), Unloaded(h, true)]
    case Err(FenceFailed) => [Fence(false)]
    case Err(UnloadFailed) => [Fence(true), Unloaded(h, false)]
  }

  class Runtime {
    const library: Library
    const plan: LaunchPlan
    const registry: Registry

    ghost predicate Valid()
      reads library, library.driver
    {
      && library.Valid()
      && plan.Sealed(registry.fl)
      && plan.kernels == ContractsOf(library.abis)
    }

    constructor (library: Library, plan: LaunchPlan, registry: Registry)
      requires library.Valid() && plan.Sealed(registry.fl) && plan.kernels == ContractsOf(library.abis)
      ensures Valid() && this.library == library && this.plan == plan && this.registry == registry
    {
      this.library, this.plan, this.registry := library, plan, registry;
    }

    /** Launch the plan in ordinal order, stopping at the first error.  The missing-kernel, count,
        width and unpackable errors of the launch boundary cannot occur, for any frame. */
    method Call(frame: seq<Live>) returns (r: Result<(), LaunchError>, ghost events: Log)
      requires Valid()
      modifies library.driver
      ensures Valid() && OnlyHandle(library.origin, old(library.driver.log), library.driver.log)
      ensures FencedUnloads(library.driver.log) == old(FencedUnloads(library.driver.log))
      ensures r == Err(LibraryClosed) <==> library.closed
      ensures library.closed ==> events == []
      ensures r.Err? ==> !Mistyped(r.error)
      ensures library.driver.log == old(library.driver.log) + events && |events| <= |plan.launches|
      ensures forall k :: 0 <= k < |events| ==> LaunchedFor(k, events[k], frame)
      ensures forall k :: 0 <= k < |events| - 1 ==> Taken(events[k])
      ensures OnlyUses(old(library.driver.log), library.driver.log)
      ensures r.Ok? <==> !library.closed && RowByRow(events, frame)
      ensures r.Err? && r.error !in {DriverFailed, LibraryClosed} ==>
                |events| < |plan.launches| && Indescribable(|events|, frame)
    {
      hide FencedUnloads, CubinProtocol.Disciplined, LaunchPlan.Sealed, LaunchedFor, Indescribable;
      events := [];
      if library.closed {
        return Err(LibraryClosed), [];
      }
      for i := 0 to |plan.launches|
        invariant Valid() && |events| == i
        invariant FencedUnloads(library.driver.log) == old(FencedUnloads(library.driver.log))
        invariant library.driver.log == old(library.driver.log) + events
        invariant forall k :: 0 <= k < |events| ==>
                  LaunchedFor(k, events[k], frame) && LaunchOf(events[k], library.origin) && Taken(events[k])
      {
        ghost var added;
        r, added := Launch(i, frame);
        events := events + added;
        if r.Err? {
          assert added != [] ==> events[i] == added[0] && !RowTaken(i, events[i], frame);
          return;
        }
      }
      return Ok(()), events;
    }

    /** One invocation: dimensions, shared memory, parameters, stream, then the launch boundary. */
    method Launch(i: nat, frame: seq<Live>) returns (r: Result<(), LaunchError>, ghost added: Log)
      requires Valid() && !library.closed && i < |plan.launches|
      modifies library.driver
      ensures Valid()
      ensures FencedUnloads(library.driver.log) == old(FencedUnloads(library.driver.log))
      ensures r.Err? ==> !Mistyped(r.error) && r.error != LibraryClosed
      ensures library.driver.log == old(library.driver.log) + added && |added| <= 1
      ensures added != [] ==> LaunchedFor(i, added[0], frame) && LaunchOf(added[0], library.origin)
      ensures r.Ok? <==> added != [] && Taken(added[0])
      ensures r.Err? && r.error != DriverFailed ==> added == [] && Indescribable(i, frame)
    {
      hide FencedUnloads, CubinProtocol.Disciplined, Evaluate, MaterializeAll, Extent, SharedBytes, Dimensions,
           Packable, BufferOf, ExtentsAre, Counts,
           Accepts, Quiet, AbiSealed, PackPrefix, InventorySealed, DeclaredAs;
      added := [];
      var fl := registry.fl;
      var inv := plan.launches[i];
      assert inv.Sealed(fl);
      var config := Configure(inv, frame);
      if config.Err? {
        return Err(config.error), [];
      }
      var parameters := MaterializeAll(inv.parameters, frame, registry);
      if parameters.Err? {
        return Err(Material(parameters.error)), [];
      }
      if inv.stream.Some? && inv.stream.value >= |frame| {
        return Err(StreamMissing), [];
      }
      var stream := if inv.stream.Some? then Some(frame[inv.stream.value]) else None;
      LaunchNeverMistyped(plan, library.abis, i, frame, registry);
      ghost var before := library.driver.log;
      r := library.LaunchKernel(inv.kernel, config.value.(stream := stream), parameters.value, fl);
      added := library.driver.log[|before|..];
      assert library.driver.log == before ==> added == [];
      assert library.driver.log != before ==> |added| == 1 && LaunchedFor(i, added[0], frame);
    }

    /** Grid, block, cluster and shared memory, and the launch specification's own limits: the
        configuration exists exactly when every extent evaluates and the limits hold. */
    method Configure(inv: Invocation, frame: seq<Live>) returns (r: Result<Configuration, LaunchError>)
      requires inv.Sealed(registry.fl)
      ensures r.Err? ==> r.error in {DimensionsOutside, SharedOutside, SpecRefused}
      ensures r.Ok? ==> Configured(inv, frame, registry.fl, r.value) && r.value.stream == None
      ensures r.Err? ==> forall c :: !Configured(inv, frame, registry.fl, c)
    {
      hide Dimensions, SharedBytes, ExtentsAre, Counts;
      var fl := registry.fl;
      DimensionsAre(inv.grid, frame, fl);
      DimensionsAre(inv.block, frame, fl);
      SharedBytesAre(inv.shared, frame, fl);
      var grid := Dimensions(inv.grid, frame, fl);
      var block := Dimensions(inv.block, frame, fl);
      if grid.None? || block.None? {
        return Err(DimensionsOutside);
      }
      var cluster: Option<Extents> := None;
      if inv.cluster.Some? {
        DimensionsAre(inv.cluster.value, frame, fl);
        cluster := Dimensions(inv.cluster.value, frame, fl);
        if cluster.None? {
          return Err(DimensionsOutside);
        }
      }
      var shared := SharedBytes(inv.shared, frame, fl);
      if shared.None? {
        return Err(SharedOutside);
      }
      if block.value.Volume() > MAX_THREADS_PER_BLOCK {
        return Err(SpecRefused);
      }
      if cluster.None? && inv.clusterAttributes {
        return Err(SpecRefused);
      }
      if cluster.Some? && !(cluster.value.Volume() <= MAX_CLUSTER_BLOCKS && cluster.value.Divides(grid.value)) {
        return Err(SpecRefused);
      }
      return Ok(Configuration(grid.value, block.value, cluster, shared.value, None));
    }

    /** The whole plan was launched for this frame, row by row, and the driver took every row. */
    ghost predicate Ran(before: Log, after: Log, frame: seq<Live>) {
      exists events :: after == before + events && RowByRow(events, frame)
    }

    ghost predicate RowByRow(events: Log, frame: seq<Live>) {
      |events| == |plan.launches| && forall k :: 0 <= k < |events| ==> RowTaken(k, events[k], frame)
    }

    /** No launch is what row `i` of the plan describes for this frame. */
    ghost predicate Indescribable(i: nat, frame: seq<Live>)
      requires i < |plan.launches|
    {
      plan.launches[i].Sealed(registry.fl) ==>
        forall l :: !Describes(plan.launches[i], library.abis, frame, registry, l)
    }

    ghost predicate RowTaken(i: nat, e: Event, frame: seq<Live>) {
      Taken(e) && LaunchedFor(i, e, frame)
    }

    /** The event is the launch that row `i` of the plan describes for this frame. */
    ghost predicate LaunchedFor(i: nat, e: Event, frame: seq<Live>)
    {
      && i < |plan.launches| && plan.launches[i].Sealed(registry.fl)
      && e.Launched? && e.handle == library.origin
      && Describes(plan.launches[i], library.abis, frame, registry, e.launch)
    }

    /** Fence unconditionally, then unload.  A failed fence keeps the library loaded. */
    method Close() returns (r: Result<(), CloseError>)
      requires Valid() && FencedUnloads(library.driver.log)
      modifies library, library.driver
      ensures Valid() && OnlyHandle(library.origin, old(library.driver.log), library.driver.log)
      ensures FencedUnloads(library.driver.log)
      ensures library.closed <==> r != Err(FenceFailed)
      ensures OnlyCloses(old(library.driver.log), library.driver.log)
      ensures old(library.closed) ==> r.Ok? && library.driver.log == old(library.driver.log)
      ensures !old(library.closed) ==> library.driver.log == old(library.driver.log) + CloseEvents(library.origin, r)
    {
      hide FencedUnloads, CubinProtocol.Disciplined, Quiet, LaunchPlan.Sealed;
      if library.closed {
        return Ok(());
      }
      var fenced := library.driver.Synchronize();
      if !fenced {
        return Err(FenceFailed);
      }
      var ok := library.Close();
      return if ok then Ok(()) else Err(UnloadFailed);
    }
  }

  /** Open by ordered widths, bind the plan by position, construct the runtime.  Binding never
      fails once the library is open; a registry that lacks a capability closes it again. */
  method Admit(driver: Driver, plan: LaunchPlan, registry: Registry, bytesMatch: bool, capable: bool)
    returns (r: Result<Runtime, OpenError>)
    requires driver.Valid() && FencedUnloads(driver.log) && plan.Sealed(registry.fl)
    modifies driver
    ensures driver.Valid() && FencedUnloads(driver.log)
    ensures r.Ok? ==> fresh(r.value) && fresh(r.value.library)
    ensures r.Ok? ==> r.value.Valid() && !r.value.library.closed && r.value.library.driver == driver
    ensures r.Ok? ==> bytesMatch && capable && SameWidths(plan.kernels, ContractsOf(r.value.library.abis))
    ensures r.Ok? ==> BindObserved(plan, ContractsOf(r.value.library.abis)) == Some(r.value.plan)
    ensures r.Ok? ==> r.value.registry == registry
    ensures old(driver.described) <= driver.described
    ensures r.Ok? ==> multiset(r.value.library.abis) == multiset(driver.described[|old(driver.described)|..])
    ensures r.Ok? ==> OpenOutcome(old(driver.log), driver.log, Ok(r.value.library.origin))
    ensures r.Ok? ==> Loaded(r.value.library.origin) !in old(driver.log)
    ensures r.Err? ==> OpenOutcome(old(driver.log), driver.log, Err(r.error))
  {
    hide FencedUnloads, CubinProtocol.Disciplined, Quiet;
    var handle, abis := LoadAndObserve(driver, bytesMatch, OrderedWidths(plan.kernels));
    if handle.Err? {
      return Err(handle.error);
    }
    var library := new Library(driver, handle.value, abis);
    ProjectionIsSealed(abis);
    BindingYieldsSealedPlan(plan, ContractsOf(abis), registry.fl);
    var bound := BindObserved(plan, ContractsOf(abis)).value;
    if !capable {
      var ok := library.Close();
      assert Dropped(old(driver.log), driver.log, handle.value, ok);
      return Err(if ok then Rejected else CleanupFailed);
    }
    var runtime := new Runtime(library, bound, registry);
    return Ok(runtime);
  }

  // ---- A worker holding any number of runtimes ----

  class Worker {
    const driver: Driver
    var runtimes: seq<Runtime>
    ghost var libraries: set<Library> // the libraries of the runtimes

    ghost predicate Valid()
      reads this, driver, libraries
    {
      && driver.Valid() && FencedUnloads(driver.log)
      && (forall i :: 0 <= i < |runtimes| ==> runtimes[i].library in libraries)
      && (forall i :: 0 <= i < |runtimes| ==> runtimes[i].library.driver == driver && runtimes[i].Valid())
      && (forall i, j :: 0 <= i < j < |runtimes| ==> runtimes[i].library.origin != runtimes[j].library.origin)
    }

    constructor ()
      ensures Valid() && runtimes == [] && fresh(driver)
    {
      driver := new Driver();
      runtimes, libraries := [], {};
    }

    method AdmitOne(plan: LaunchPlan, registry: Registry, bytesMatch: bool, capable: bool)
      returns (r: Result<(), OpenError>)
      requires Valid() && plan.Sealed(registry.fl)
      modifies this`runtimes, this`libraries, driver
      ensures Valid()
      ensures r.Ok? ==> bytesMatch && capable
      ensures r.Ok? ==> |runtimes| == |old(runtimes)| + 1 && runtimes[..|old(runtimes)|] == old(runtimes)
      ensures fresh(libraries - old(libraries))
      ensures r.Err? ==> runtimes == old(runtimes) && OpenOutcome(old(driver.log), driver.log, Err(r.error))
    {
      hide FencedUnloads, CubinProtocol.Disciplined, LaunchPlan.Sealed, AbiSealed;
      ghost var before := driver.log;
      var admitted := Admit(driver, plan, registry, bytesMatch, capable);
      forall i | 0 <= i < |runtimes|
        ensures runtimes[i].Valid()
      {
        var outcome := if admitted.Ok? then Ok(admitted.value.library.origin) else Err(admitted.error);
        OpenKeepsOthers(before, driver.log, outcome, runtimes[i].library.origin);
      }
      if admitted.Err? {
        return Err(admitted.error);
      }
      runtimes, libraries := runtimes + [admitted.value], libraries + {admitted.value.library};
      return Ok(());
    }

    /** Runtimes other than the acting one stay valid. */
    method CallOne(i: nat, frame: seq<Live>) returns (r: Result<(), LaunchError>)
      requires Valid() && i < |runtimes|
      modifies driver
      ensures Valid() && OnlyHandle(runtimes[i].library.origin, old(driver.log), driver.log)
      ensures OnlyUses(old(driver.log), driver.log)
      ensures r.Ok? ==> runtimes[i].Ran(old(driver.log), driver.log, frame)
      ensures r == Err(LibraryClosed) <==> runtimes[i].library.closed
      ensures r.Err? ==> !Mistyped(r.error)
    {
      hide FencedUnloads, CubinProtocol.Disciplined, LaunchPlan.Sealed, AbiSealed, Runtime.LaunchedFor;
      ghost var events;
      r, events := runtimes[i].Call(frame);
      assert r.Ok? ==> runtimes[i].RowByRow(events, frame);
      forall j | 0 <= j < |runtimes| && j != i
        ensures runtimes[j].Valid()
      {
        OthersUnaffected(runtimes[i].library.origin, runtimes[j].library.origin, old(driver.log), driver.log);
      }
    }

    /** A device-wide fence of the worker's provider. */
    method Fence() returns (ok: bool)
      requires Valid()
      modifies driver
      ensures Valid() && driver.log == old(driver.log) + [CubinProtocol.Fence(ok)]
      ensures OnlyUses(old(driver.log), driver.log)
      ensures ok ==> forall h :: Quiet(driver.log, h)
    {
      hide FencedUnloads, CubinProtocol.Disciplined, LaunchPlan.Sealed, AbiSealed, Quiet;
      ok := driver.Synchronize();
      forall j | 0 <= j < |runtimes|
        ensures runtimes[j].Valid()
      {
        UsesKeepLive(old(driver.log), driver.log, runtimes[j].library.origin);
      }
    }

    method CloseOne(i: nat) returns (r: Result<(), CloseError>)
      requires Valid() && i < |runtimes|
      modifies runtimes[i].library, driver
      ensures Valid() && OnlyHandle(runtimes[i].library.origin, old(driver.log), driver.log)
      ensures OnlyCloses(old(driver.log), driver.log)
      ensures runtimes[i].library.closed <==> r != Err(FenceFailed)
      ensures Answered(old(driver.log), driver.log, r, runtimes[i].library.origin)
      ensures old(runtimes[i].library.closed) ==> r.Ok? && driver.log == old(driver.log)
      ensures !old(runtimes[i].library.closed) ==>
                driver.log == old(driver.log) + CloseEvents(runtimes[i].library.origin, r)
      ensures forall j :: 0 <= j < |runtimes| && j != i ==>
                runtimes[j].library.closed == old(runtimes[j].library.closed)
    {
      hide FencedUnloads, CubinProtocol.Disciplined, LaunchPlan.Sealed, AbiSealed, OnlyCloses;
      DistinctLibraries();
      r := runtimes[i].Close();
      forall j | 0 <= j < |runtimes| && j != i
        ensures runtimes[j].Valid()
      {
        OthersUnaffected(runtimes[i].library.origin, runtimes[j].library.origin, old(driver.log), driver.log);
      }
    }

    lemma Owned(i: nat)
      requires Valid() && i < |runtimes|
      ensures runtimes[i].library in libraries
    {
    }

    lemma DistinctLibraries()
      requires Valid()
      ensures forall i, j :: 0 <= i < j < |runtimes| ==> runtimes[i].library != runtimes[j].library
    {
    }

    /** Close the named runtimes in order up to the first failure; the others keep their handles. */
    method CloseRuntimes(mine: seq<nat>) returns (r: Result<(), CloseError>, done: nat)
      requires Valid() && forall k :: 0 <= k < |mine| ==> mine[k] < |runtimes|
      modifies libraries, driver
      ensures Valid() && runtimes == old(runtimes) && done <= |mine|
      ensures OnlyCloses(old(driver.log), driver.log)
      ensures r.Ok? <==> done == |mine|
      ensures r.Ok? ==> Answered(old(driver.log), driver.log, Ok(()), 0)
      ensures r.Err? ==> Answered(old(driver.log), driver.log, Err(r.error), runtimes[mine[done]].library.origin)
      ensures forall k :: 0 <= k < done ==> runtimes[mine[k]].library.closed
      ensures r.Err? ==> (runtimes[mine[done]].library.closed <==> r.error == UnloadFailed)
      ensures forall j :: 0 <= j < |runtimes| && j !in (if r.Ok? then mine else mine[..done + 1]) ==>
                runtimes[j].library.closed == old(runtimes[j].library.closed)
    {
      hide FencedUnloads, CubinProtocol.Disciplined, LaunchPlan.Sealed, AbiSealed, OnlyCloses, OnlyHandle, Answered;
      done := 0;
      NothingClosed(driver.log);
      while done < |mine|
        invariant done <= |mine| && runtimes == old(runtimes) && Valid()
        invariant OnlyCloses(old(driver.log), driver.log) && Answered(old(driver.log), driver.log, Ok(()), 0)
        invariant forall k :: 0 <= k < done ==> runtimes[mine[k]].library.closed
        invariant forall j :: 0 <= j < |runtimes| && j !in mine[..done] ==>
                    runtimes[j].library.closed == old(runtimes[j].library.closed)
      {
        hide Valid;
        ghost var before := driver.log;
        Owned(mine[done]);
        assert mine[..done + 1] == mine[..done] + [mine[done]];
        r := CloseOne(mine[done]);
        ClosesThen(old(driver.log), before, driver.log);
        AnsweredThen(old(driver.log), before, driver.log, r, runtimes[mine[done]].library.origin);
        if r.Err? {
          return;
        }
        done := done + 1;
      }
      assert mine[..done] == mine;
      return Ok(()), done;
    }
  }

  lemma NothingClosed(log: Log)
    ensures OnlyCloses(log, log) && Answered(log, log, Ok(()), 0)
  {
  }

  /** A fence or an unload that the driver refused. */
  predicate Refused(e: Event) {
    (e.Fence? || e.Unloaded?) && !e.ok
  }

  /** The result is what the driver answered: success without a refusal, and otherwise the one
      refusal, which ends the attempt. */
  ghost predicate Answered(before: Log, after: Log, r: Result<(), CloseError>, h: nat) {
    && before <= after
    && (forall i :: |before| <= i < |after| - 1 ==> !Refused(after[i]))
    && match r
       case Ok(_) => |before| < |after| ==> !Refused(after[|after| - 1])
       case Err(FenceFailed) => |before| < |after| && after[|after| - 1] == Fence(false)
       case Err(UnloadFailed) => |before| < |after| && after[|after| - 1] == Unloaded(h, false)
  }

  lemma AnsweredThen(a: Log, b: Log, c: Log, r: Result<(), CloseError>, h: nat)
    requires Answered(a, b, Ok(()), 0) && Answered(b, c, r, h)
    ensures Answered(a, c, r, h) && (r.Ok? ==> Answered(a, c, Ok(()), 0))
  {
    assert forall i :: |a| <= i < |b| ==> c[i] == b[i];
  }

  datatype Command =
    | DoAdmit(plan: LaunchPlan, registry: Registry, bytesMatch: bool, capable: bool)
    | DoCall(i: nat, frame: seq<Live>)
    | DoClose(mine: seq<nat>)

  /** Every run of one worker, whatever the driver answers: handles are used only while loaded,
      unloaded at most once and only behind a fence. */
  method RunWorker(worker: Worker, script: seq<Command>)
    requires worker.Valid()
    requires forall c :: c in script && c.DoAdmit? ==> c.plan.Sealed(c.registry.fl)
    modifies worker, worker.driver, worker.libraries
    ensures worker.Valid() && CubinProtocol.Disciplined(worker.driver.log) && FencedUnloads(worker.driver.log)
  {
    for k := 0 to |script|
      invariant worker.Valid() && fresh(worker.libraries - old(worker.libraries))
    {
      hide Worker.Valid;
      assert script[k] in script;
      match script[k] {
        case DoAdmit(plan, registry, bytesMatch, capable) =>
          var admitted := worker.AdmitOne(plan, registry, bytesMatch, capable);
        case DoCall(i, frame) =>
          if i < |worker.runtimes| {
            var called := worker.CallOne(i, frame);
          }
        case DoClose(mine) =>
          if forall k :: 0 <= k < |mine| ==> mine[k] < |worker.runtimes| {
            var shut, done := worker.CloseRuntimes(mine);
          }
      }
    }
  }

  /** An open attempt, however it ends, leaves every other library as it was. */
  lemma OpenKeepsOthers(before: Log, after: Log, r: Result<nat, OpenError>, h: nat)
    requires OpenOutcome(before, after, r) && Loaded(h) in before
    ensures Loaded(h) in after && (Usable(before, h) <==> Usable(after, h))
  {
    if r.Err? && after != before {
      var ok := r.error == Rejected;
      var k: nat :| Dropped(before, after, k, ok);
      assert OnlyHandle(k, before, after);
      OthersStayLive(k, h, before, after);
    } else if r.Ok? {
      assert OnlyHandle(r.value, before, after);
      OthersStayLive(r.value, h, before, after);
    }
  }

  lemma OthersUnaffected(actor: nat, h: nat, before: Log, after: Log)
    requires OnlyHandle(actor, before, after) && h != actor && Loaded(h) in before
    ensures Loaded(h) in after && (Usable(before, h) <==> Usable(after, h))
  {
    OthersStayLive(actor, h, before, after);
  }
}
