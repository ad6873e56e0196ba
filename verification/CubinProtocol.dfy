/** CUDA library handles: load, observe, admit, launch, fence, unload.

    Driver calls answer arbitrarily.  The ghost log records the ones that own or use a handle. */
module CubinProtocol {
  import opened Outcome
  import opened Names
  import opened Bytes
  import opened ByteLayout
  import opened Expression
  import opened Parameters
  import opened DevicePlan

  datatype Extents = Extents(x: int, y: int, z: int) {
    function Volume(): int {
      x * y * z
    }

    predicate Divides(grid: Extents) {
      x > 0 && y > 0 && z > 0 && grid.x % x == 0 && grid.y % y == 0 && grid.z % z == 0
    }
  }

  datatype Configuration = Configuration(grid: Extents, block: Extents, cluster: Option<Extents>, shared: int,
                                         stream: Option<Live>)

  /** What the driver is handed: a kernel, its configuration and the packed parameter bytes. */
  datatype Launch = Launch(kernel: string, config: Configuration, buffer: seq<Byte>)

  datatype Event =
    | Loaded(handle: nat)
    | Launched(handle: nat, launch: Launch, ok: bool)
    | Unloaded(handle: nat, ok: bool)
    | Fence(ok: bool)

  type Log = seq<Event>

  ghost predicate Usable(log: Log, h: nat) {
    Loaded(h) in log && Unloaded(h, true) !in log && Unloaded(h, false) !in log
  }

  predicate LaunchOf(e: Event, h: nat) {
    e.Launched? && e.handle == h
  }

  /** The driver accepted a launch. */
  predicate Taken(e: Event) {
    e.Launched? && e.ok
  }

  /** No launch of `h` since the last successful fence. */
  ghost predicate Quiet(log: Log, h: nat) {
    log == [] ||
    var front, last := log[..|log| - 1], log[|log| - 1];
    (last == Fence(true) || (!LaunchOf(last, h) && Quiet(front, h)))
  }

  /** Handles are loaded once, used only while live, and unloaded at most once. */
  ghost predicate Allowed(log: Log, e: Event) {
    match e
    case Loaded(h) => Loaded(h) !in log && forall x :: x in log ==> !LaunchOf(x, h)
    case Launched(h, _, _) => Usable(log, h)
    case Unloaded(h, _) => Usable(log, h)
    case Fence(_) => true
  }

  ghost predicate Disciplined(log: Log) {
    log == [] || (Disciplined(log[..|log| - 1]) && Allowed(log[..|log| - 1], log[|log| - 1]))
  }

  /** Every unload happened with no unfenced launch of that library outstanding. */
  ghost predicate FencedUnloads(log: Log) {
    log == [] ||
    var front, last := log[..|log| - 1], log[|log| - 1];
    FencedUnloads(front) && (last.Unloaded? ==> Quiet(front, last.handle))
  }

  lemma Append(log: Log, e: Event)
    ensures Disciplined(log + [e]) <==> Disciplined(log) && Allowed(log, e)
    ensures FencedUnloads(log + [e]) <==> FencedUnloads(log) && (e.Unloaded? ==> Quiet(log, e.handle))
    ensures forall h :: Quiet(log + [e], h) <==> e == Fence(true) || (!LaunchOf(e, h) && Quiet(log, h))
  {
    assert (log + [e])[..|log|] == log && (log + [e])[|log|] == e;
  }

  // ---- Whole runs ----

  lemma {:induction false} DisciplinedAt(log: Log, i: nat)
    requires Disciplined(log) && i < |log|
    ensures Allowed(log[..i], log[i])
  {
    if i < |log| - 1 {
      DisciplinedAt(log[..|log| - 1], i);
      assert log[..|log| - 1][..i] == log[..i];
    }
  }

  /** Nothing is launched on, and nothing unloads, a library that was unloaded before; every use
      follows its load. */
  lemma {:induction false} NoUseAfterUnload(log: Log, i: nat, j: nat)
    requires Disciplined(log) && i < j < |log|
    requires log[i].Unloaded? && (log[j].Launched? || log[j].Unloaded?)
    ensures log[i].handle != log[j].handle
  {
    DisciplinedAt(log, j);
    assert log[..j][i] == log[i];
  }

  lemma {:induction false} FencedAt(log: Log, j: nat)
    requires FencedUnloads(log) && j < |log| && log[j].Unloaded?
    ensures Quiet(log[..j], log[j].handle)
  {
    if j < |log| - 1 {
      FencedAt(log[..|log| - 1], j);
      assert log[..|log| - 1][..j] == log[..j];
    }
  }

  lemma {:induction false} QuietWitness(log: Log, h: nat, i: nat) returns (f: nat)
    requires Quiet(log, h) && i < |log| && LaunchOf(log[i], h)
    ensures i < f < |log| && log[f] == Fence(true)
  {
    if log[|log| - 1] == Fence(true) {
      f := |log| - 1;
    } else {
      f := QuietWitness(log[..|log| - 1], h, i);
    }
  }

  /** Between any launch of a library and its unload there is a successful fence, after which
      that library is not launched again. */
  lemma UnloadFollowsFence(log: Log, i: nat, j: nat) returns (f: nat)
    requires FencedUnloads(log) && i < j < |log|
    requires log[i].Launched? && log[j].Unloaded? && log[i].handle == log[j].handle
    ensures i < f < j && log[f] == Fence(true)
  {
    FencedAt(log, j);
    f := QuietWitness(log[..j], log[j].handle, i);
  }

  /** The fence is the device runtime's doing: closing a bare library right after a launch is
      possible and breaks the rule. */
  lemma BareCloseIsUnfenced(launch: Launch, ok: bool)
    ensures Disciplined([Loaded(0), Launched(0, launch, ok), Unloaded(0, true)])
    ensures !FencedUnloads([Loaded(0), Launched(0, launch, ok), Unloaded(0, true)])
  {
    var a: Log := [Loaded(0)];
    var b := a + [Launched(0, launch, ok)];
    Append([], Loaded(0));
    Append(a, Launched(0, launch, ok));
    Append(b, Unloaded(0, true));
    assert [] + [Loaded(0)] == a;
    assert [Loaded(0), Launched(0, launch, ok), Unloaded(0, true)] == b + [Unloaded(0, true)];
  }

  /** What an operation on library `h` may add to the log. */
  ghost predicate OnlyHandle(h: nat, before: Log, after: Log) {
    before <= after && forall i :: |before| <= i < |after| ==> after[i].Fence? || after[i].handle == h
  }

  /** Launches and fences only: no handle was loaded or unloaded. */
  ghost predicate OnlyUses(before: Log, after: Log) {
    before <= after && forall i :: |before| <= i < |after| ==> after[i].Launched? || after[i].Fence?
  }

  lemma UsesThen(a: Log, b: Log, c: Log)
    requires OnlyUses(a, b) && OnlyUses(b, c)
    ensures OnlyUses(a, c)
  {
    assert forall i :: |a| <= i < |b| ==> c[i] == b[i];
  }

  /** Using libraries unloads none. */
  lemma UsesKeepLive(before: Log, after: Log, h: nat)
    requires OnlyUses(before, after)
    ensures Loaded(h) in before <==> Loaded(h) in after
    ensures Usable(before, h) <==> Usable(after, h)
  {
    forall e: Event | e.Loaded? || e.Unloaded?
      ensures e in before <==> e in after
    {
      if e in after {
        var i :| 0 <= i < |after| && after[i] == e;
        assert i < |before| && before[i] == e;
      }
    }
  }

  /** Fences and unloads only, each unload right behind a successful fence of its own. */
  ghost predicate OnlyCloses(before: Log, after: Log) {
    before <= after && forall i :: |before| <= i < |after| ==> Closes(after, |before|, i)
  }

  ghost predicate Closes(log: Log, from: nat, i: nat)
    requires i < |log|
  {
    log[i].Fence? || (log[i].Unloaded? && i > from && log[i - 1] == Fence(true))
  }

  lemma ClosesThen(a: Log, b: Log, c: Log)
    requires OnlyCloses(a, b) && OnlyCloses(b, c)
    ensures OnlyCloses(a, c)
  {
    forall i | |a| <= i < |c|
      ensures Closes(c, |a|, i)
    {
      if i < |b| {
        assert Closes(b, |a|, i);
      } else {
        assert Closes(c, |b|, i);
      }
    }
  }

  lemma OthersStayLive(actor: nat, h: nat, before: Log, after: Log)
    requires OnlyHandle(actor, before, after) && h != actor
    ensures Usable(before, h) <==> Usable(after, h)
  {
    forall e: Event | !e.Fence? && e.handle == h
      ensures e in before <==> e in after
    {
      if e in after {
        var i :| 0 <= i < |after| && after[i] == e;
        assert i < |before| && before[i] == e;
      }
    }
  }

  /** The captured driver binding. */
  class Driver {
    ghost var log: Log
    ghost var described: seq<KernelAbi> // every kernel description given so far
    ghost var counted: Option<int>      // the latest kernel count given
    var next: nat                       // supply of handles

    ghost predicate Valid()
      reads this
    {
      Disciplined(log) && forall e :: e in log && !e.Fence? ==> e.handle < next
    }

    constructor ()
      ensures Valid() && log == [] && FencedUnloads(log)
    {
      log, described, counted, next := [], [], None, 0;
    }

    /** A successful load yields a handle the process has not seen. */
    method LoadData() returns (handle: Option<nat>)
      requires Valid()
      modifies this`log, this`next
      ensures Valid()
      ensures handle.None? ==> log == old(log)
      ensures handle.Some? ==>
                log == old(log) + [Loaded(handle.value)] && Usable(log, handle.value) && Quiet(log, handle.value)
      ensures handle.Some? ==> Loaded(handle.value) !in old(log)
      ensures old(FencedUnloads(log)) ==> FencedUnloads(log)
    {
      var ok: bool := *;
      if !ok {
        return None;
      }
      handle := Some(next);
      NeverLaunched(log, next);
      Append(log, Loaded(next));
      log := log + [Loaded(next)];
      next := next + 1;
    }

    method Unload(handle: nat) returns (ok: bool)
      requires Valid() && Usable(log, handle)
      modifies this`log
      ensures Valid() && log == old(log) + [Unloaded(handle, ok)]
      ensures old(FencedUnloads(log)) && old(Quiet(log, handle)) <==> FencedUnloads(log)
    {
      ok := *;
      Append(log, Unloaded(handle, ok));
      log := log + [Unloaded(handle, ok)];
    }

    method LaunchKernelEx(handle: nat, launch: Launch) returns (ok: bool)
      requires Valid() && Usable(log, handle)
      modifies this`log
      ensures Valid() && log == old(log) + [Launched(handle, launch, ok)]
      ensures FencedUnloads(log) == old(FencedUnloads(log))
    {
      ok := *;
      Append(log, Launched(handle, launch, ok));
      log := log + [Launched(handle, launch, ok)];
    }

    method Synchronize() returns (ok: bool)
      requires Valid()
      modifies this`log
      ensures Valid() && log == old(log) + [Fence(ok)] && FencedUnloads(log) == old(FencedUnloads(log))
      ensures ok ==> forall h :: Quiet(log, h)
    {
      ok := *;
      Append(log, Fence(ok));
      log := log + [Fence(ok)];
    }

    /** Everything the driver says about one kernel. */
    method DescribeKernel() returns (answer: Option<KernelAbi>)
      modifies this`described
      ensures described == old(described) + (if answer.Some? then [answer.value] else [])
    {
      answer := *;
      described := described + (if answer.Some? then [answer.value] else []);
    }

    method KernelCount() returns (count: Option<int>)
      modifies this`counted
      ensures counted == count
    {
      count := *;
      counted := count;
    }
  }

  lemma {:induction false} NeverLaunched(log: Log, h: nat)
    requires forall e :: e in log ==> !LaunchOf(e, h)
    ensures Quiet(log, h)
  {
    if log != [] {
      NeverLaunched(log[..|log| - 1], h);
    }
  }

  datatype OpenError = Rejected | CleanupFailed

  /** What the caller demands of the observed inventory. */
  datatype Expectation =
    | Anything
    | ExactAbi(abis: seq<KernelAbi>)
    | ExactContract(kernels: seq<Contract>)
    | OrderedWidths(widths: seq<Contract>)

  predicate Meets(observed: seq<KernelAbi>, e: Expectation) {
    match e
    case Anything => true
    case ExactAbi(abis) => observed == abis
    case ExactContract(kernels) => ContractsOf(observed) == kernels
    case OrderedWidths(widths) => SameWidths(widths, ContractsOf(observed))
  }

  /** Enumerate the kernels of a loaded library into a checked inventory: as many as the driver
      counted, each as it described them since, in canonical order. */
  method Observe(driver: Driver) returns (abis: Option<seq<KernelAbi>>)
    modifies driver`described, driver`counted
    ensures old(driver.described) <= driver.described
    ensures abis.Some? ==> AbiSealed(abis.value) && driver.counted == Some(|abis.value|)
    ensures abis.Some? ==> multiset(abis.value) == multiset(driver.described[|old(driver.described)|..])
  {
    ghost var before := driver.described;
    var count := driver.KernelCount();
    if count.None? || !(1 <= count.value <= MAX_CUBIN_KERNELS) {
      return None;
    }
    var observed: seq<KernelAbi> := [];
    assert driver.described[|before|..] == [];
    for i := 0 to count.value
      invariant |observed| == i && Canonical(AbiNames(observed)) && driver.counted == count
      invariant before <= driver.described && multiset(observed) == multiset(driver.described[|before|..])
      invariant forall a :: a in observed ==> a.Sealed()
    {
      ghost var told := driver.described[|before|..];
      var answer := driver.DescribeKernel();
      if answer.None? {
        return None;
      }
      var abi := answer.value;
      if !abi.Sealed() || exists k :: 0 <= k < |observed| && observed[k].name == abi.name {
        return None;
      }
      InsertKeepsOrder(observed, abi);
      InsertAdds(observed, abi);
      assert driver.described[|before|..] == told + [abi];
      observed := Insert(observed, abi);
    }
    forall i | 0 <= i < |observed|
      ensures observed[i].Sealed()
    {
      assert observed[i] in observed;
    }
    return Some(observed);
  }

  /** How one open attempt may end, on the log. */
  ghost predicate OpenOutcome(before: Log, after: Log, r: Result<nat, OpenError>) {
    match r
    case Ok(h) => Loaded(h) !in before && after == before + [Loaded(h)]
    case Err(Rejected) => after == before || exists h :: Dropped(before, after, h, true)
    case Err(CleanupFailed) => exists h :: Dropped(before, after, h, false)
  }

  /** A fresh handle was loaded and unloaded once. */
  ghost predicate Dropped(before: Log, after: Log, h: nat, ok: bool) {
    Loaded(h) !in before && after == before + [Loaded(h), Unloaded(h, ok)]
  }

  /** Load, observe, and either keep the handle or drop it before reporting.  The attempt ends
      with the handle retained, unloaded exactly once, or reported as a failed cleanup. */
  method LoadAndObserve(driver: Driver, bytesMatch: bool, expectation: Expectation)
    returns (r: Result<nat, OpenError>, abis: seq<KernelAbi>)
    requires driver.Valid()
    modifies driver
    ensures driver.Valid() && OpenOutcome(old(driver.log), driver.log, r)
    ensures old(FencedUnloads(driver.log)) ==> FencedUnloads(driver.log)
    ensures r.Ok? ==> Usable(driver.log, r.value) && Quiet(driver.log, r.value) && Loaded(r.value) !in old(driver.log)
    ensures r.Ok? ==> bytesMatch && AbiSealed(abis) && Meets(abis, expectation)
    ensures old(driver.described) <= driver.described
    ensures r.Ok? ==> multiset(abis) == multiset(driver.described[|old(driver.described)|..])
    ensures r.Ok? && expectation.ExactAbi? ==> abis == expectation.abis
    ensures r.Ok? && expectation.ExactContract? ==>
              |abis| == |expectation.kernels| &&
              forall k :: 0 <= k < |abis| ==>
                abis[k].name == expectation.kernels[k].name &&
                abis[k].AsContract().sizes == expectation.kernels[k].sizes
    ensures r.Ok? && expectation.OrderedWidths? ==>
              |abis| == |expectation.widths| &&
              forall k :: 0 <= k < |abis| ==> abis[k].AsContract().sizes == expectation.widths[k].sizes
    ensures !bytesMatch ==> r == Err(Rejected) && driver.log == old(driver.log)
  {
    hide Disciplined, FencedUnloads, Quiet;
    if !bytesMatch {
      return Err(Rejected), [];
    }
    var handle := driver.LoadData();
    if handle.None? {
      return Err(Rejected), [];
    }
    var observed := Observe(driver);
    if observed.Some? && Meets(observed.value, expectation) {
      ProjectionIsSealed(observed.value);
      return Ok(handle.value), observed.value;
    }
    var ok := driver.Unload(handle.value);
    assert Dropped(old(driver.log), driver.log, handle.value, ok);
    return Err(if ok then Rejected else CleanupFailed), [];
  }

  /** Sealing-time observation: the handle never outlives the call. */
  method InspectAbi(driver: Driver) returns (r: Result<seq<KernelAbi>, OpenError>)
    requires driver.Valid()
    modifies driver
    ensures driver.Valid()
    ensures old(FencedUnloads(driver.log)) ==> FencedUnloads(driver.log)
    ensures r.Ok? ==> AbiSealed(r.value) && exists h: nat :: Dropped(old(driver.log), driver.log, h, true)
    ensures old(driver.described) <= driver.described
    ensures r.Ok? ==> multiset(r.value) == multiset(driver.described[|old(driver.described)|..])
    ensures r.Err? ==> OpenOutcome(old(driver.log), driver.log, Err(r.error))
  {
    hide Disciplined, FencedUnloads, Quiet;
    var handle, abis := LoadAndObserve(driver, true, Anything);
    if handle.Err? {
      return Err(handle.error);
    }
    var ok := driver.Unload(handle.value);
    assert Dropped(old(driver.log), driver.log, handle.value, ok);
    return if ok then Ok(abis) else Err(CleanupFailed);
  }

  /** One captured handle whose ABI was checked. */
  class Library {
    const driver: Driver
    const abis: seq<KernelAbi>
    ghost const origin: nat // the handle this library was opened with
    var handle: Option<nat>
    var kernels: set<string>
    var closed: bool

    ghost predicate Valid()
      reads this, driver
    {
      && driver.Valid()
      && AbiSealed(abis)
      && Loaded(origin) in driver.log
      && (closed ==> handle.None? && kernels == {} && !Usable(driver.log, origin))
      && (!closed ==> handle == Some(origin) && Usable(driver.log, origin))
      && (!closed ==> kernels == set i | 0 <= i < |abis| :: abis[i].name)
    }

    constructor (driver: Driver, handle: nat, abis: seq<KernelAbi>)
      requires driver.Valid() && Usable(driver.log, handle) && AbiSealed(abis)
      ensures Valid() && !closed && origin == handle && this.driver == driver && this.abis == abis
    {
      this.driver, this.abis, this.origin := driver, abis, handle;
      this.handle := Some(handle);
      kernels := set i | 0 <= i < |abis| :: abis[i].name;
      closed := false;
    }

    /** Invalidate access first, then unload, whatever the driver answers. */
    method Close() returns (ok: bool)
      requires Valid()
      modifies this, driver`log
      ensures Valid() && closed && OnlyHandle(origin, old(driver.log), driver.log)
      ensures old(closed) ==> ok && driver.log == old(driver.log)
      ensures !old(closed) ==> driver.log == old(driver.log) + [Unloaded(origin, ok)]
      ensures !old(closed) ==> (FencedUnloads(driver.log) <==>
                old(FencedUnloads(driver.log)) && old(Quiet(driver.log, origin)))
    {
      hide Disciplined, FencedUnloads, Quiet;
      if closed {
        return true;
      }
      var library := handle.value;
      closed, handle, kernels := true, None, {};
      ok := driver.Unload(library);
    }

    /** Pack and launch one kernel, in the order of the launch boundary's checks. */
    method LaunchKernel(name: string, config: Configuration, parameters: seq<Materialized>, fl: FloatOps)
      returns (r: Result<(), LaunchError>)
      requires Valid()
      modifies driver`log
      ensures Valid() && OnlyHandle(origin, old(driver.log), driver.log)
      ensures FencedUnloads(driver.log) == old(FencedUnloads(driver.log))
      ensures r == Err(LibraryClosed) <==> closed
      ensures !closed && Lookup(abis, name).None? ==> r == Err(NoSealedKernel)
      ensures !closed && Lookup(abis, name).Some? && |parameters| == |Lookup(abis, name).value.formals| &&
              Pack(Lookup(abis, name).value, parameters, fl).Ok? ==>
                (r.Ok? || r.error == DriverFailed)
      ensures driver.log == old(driver.log) ||
              (Packable(abis, name, parameters, fl) &&
               var launch := Launch(name, config, BufferOf(abis, name, parameters, fl));
               driver.log == old(driver.log) + [Launched(origin, launch, r.Ok?)])
      ensures r.Ok? ==> driver.log != old(driver.log)
    {
      hide Disciplined, FencedUnloads, Quiet, PackPrefix, PackMaterialized, Canonical, WriteAll;
      if closed {
        return Err(LibraryClosed);
      }
      var abi := Lookup(abis, name);
      if abi.None? {
        return Err(NoSealedKernel);
      }
      assert abi.value.Sealed();
      var buffer := PackKernelParameters(abi.value, parameters, fl);
      if buffer.Err? {
        PackNeverReportsClosed(abi.value, parameters, fl);
        return Err(buffer.error);
      }
      var configured: bool := *; // launch attributes, function lookup, shared-memory opt-in
      if !configured {
        return Err(DriverFailed);
      }
      ghost var before := driver.log;
      var ok := driver.LaunchKernelEx(handle.value, Launch(name, config, buffer.value));
      assert |driver.log| == |before| + 1;
      return if ok then Ok(()) else Err(DriverFailed);
    }
  }

  /** The kernel exists and the parameters pack into its formals. */
  ghost predicate Packable(abis: seq<KernelAbi>, name: string, parameters: seq<Materialized>, fl: FloatOps) {
    && Lookup(abis, name).Some?
    && var abi := Lookup(abis, name).value;
       && |parameters| == |abi.formals| && Pack(abi, parameters, fl).Ok?
       && Fits(Pack(abi, parameters, fl).value, abi.BufferSize())
  }

  ghost function BufferOf(abis: seq<KernelAbi>, name: string, parameters: seq<Materialized>, fl: FloatOps): seq<Byte>
    requires Packable(abis, name, parameters, fl)
  {
    var abi := Lookup(abis, name).value;
    WriteAll(Pack(abi, parameters, fl).value, abi.BufferSize())
  }

  lemma PackNeverReportsClosed(abi: KernelAbi, parameters: seq<Materialized>, fl: FloatOps)
    ensures |parameters| == |abi.formals| && Pack(abi, parameters, fl).Err? ==>
              Pack(abi, parameters, fl).error in {NotMaterialized, SizeDiffers}
  {
    if |parameters| == |abi.formals| && Pack(abi, parameters, fl).Err? {
      PackErrorKinds(abi, parameters, |parameters|, fl);
    }
  }
}
