/** One artifact entry: cached frames, init/prepare/run/destroy lifecycles and a fail-closed,
    retryable close, all charged to a budget it shares with other entries. */
module RuntimeEntry {
  import opened Outcome
  import opened Shapes
  import opened AllocationBudget
  import opened RuntimeLog
  import opened EntryState
  import CubinProtocol
  import DeviceRuntime

  class Entry {
    const owner: nat
    const config: Config
    const budget: Budget<CacheKey>
    const provider: Provider

    var resourceFrames: map<CacheKey, Frame>
    var allocatedBytes: int
    var allocatedKeys: int
    var initialized: set<LifecycleKey>
    var preparedByKey: map<Rows, PreparedState>
    var preparedFrames: map<nat, PlanFrames>
    var implicitCache: map<ImplicitKey, Frame>
    var destroyFrames: seq<DestroyRow>
    var closing: bool
    var closed: bool
    var nextToken: nat // supply of object identities for tokens

    ghost function MyBooks(): Books
      reads this
    {
      Books(owner, config, resourceFrames, allocatedBytes, allocatedKeys)
    }

    ghost function MyLife(): Life
      reads this
    {
      Life(owner, config.plans, initialized, preparedByKey, preparedFrames, nextToken, destroyFrames,
           closing, closed)
    }

    /** The entry's own invariant, with the shared device in order beside it. */
    ghost predicate Valid()
      reads this, budget, provider, provider.worker, provider.worker.driver, provider.worker.libraries
    {
      Core() && provider.worker.Valid()
    }

    ghost predicate Core()
      reads this, budget, provider
    {
      && budget.Valid()
      && Disciplined(provider.log)
      && config.Sealed()
      && BooksBalance(MyBooks(), budget.reservations)
      && LifeSound(MyLife(), provider.log)
      && (closed ==> resourceFrames == map[])
      && Bounded()
    }

    /** The entry keeps no more tokens and implicit preparations than the key limit. */
    ghost predicate Bounded()
      reads this`preparedByKey, this`implicitCache
    {
      |preparedByKey| <= budget.limits.maxKeys && |implicitCache| <= budget.limits.maxKeys
    }

    ghost function Now(): World
      reads this, budget, provider, provider.worker.driver
    {
      World(budget.reservations, provider.log, resourceFrames, destroyFrames, provider.worker.driver.log)
    }

    /** `owner` is a new object: nothing in the ledger or in the run mentions it yet. */
    constructor (owner: nat, config: Config, budget: Budget<CacheKey>, provider: Provider)
      requires budget.Valid() && Disciplined(provider.log) && config.Sealed() && provider.worker.Valid()
      requires forall id :: id in budget.reservations ==> id.owner != owner
      requires forall e :: e in provider.log ==> e.owner != owner
      ensures Valid() && !closing && this.owner == owner && this.budget == budget && this.provider == provider
      ensures resourceFrames == map[]
    {
      hide DeviceRuntime.Worker.Valid, Budget.Valid, Config.Sealed, BooksBalance, LifeSound, Disciplined;
      budget.SomeRoom();
      FreshEntry(owner, config, budget.reservations, provider.log);
      this.owner, this.config, this.budget, this.provider := owner, config, budget, provider;
      resourceFrames, allocatedBytes, allocatedKeys := map[], 0, 0;
      initialized, preparedByKey, preparedFrames, implicitCache := {}, map[], map[], map[];
      destroyFrames, closing, closed, nextToken := [], false, false, 0;
    }

    method RequirePreCapture() returns (r: Result<(), RuntimeError>)
      requires Valid()
      modifies provider
      ensures Valid() && Follows(owner, old(Now()), Now(), ErrorOf(r))
      ensures r.Ok? <==> Clear(provider.log)
      ensures r.Err? ==> r.error in {Capturing, CaptureQueryFailed}
      ensures provider.log == old(provider.log) + [Query(owner, CaptureAnswer(r))]
      ensures NoNewMarkers(old(provider.log), provider.log)
      ensures Fenced(provider.log) == old(Fenced(provider.log))
    {
      hide DeviceRuntime.Worker.Valid, Budget.Valid, Config.Sealed, BooksBalance, LifeSound, Disciplined, Clear, Fenced;
      var answer := provider.IsCapturing(owner);
      LogGrows(MyLife(), old(provider.log), provider.log);
      match answer
      case None => r := Err(CaptureQueryFailed);
      case Some(capturing) => r := if capturing then Err(Capturing) else Ok(());
    }

    method ShapesFor(declarations: seq<Resource>, frame: Frame) returns (r: Result<seq<seq<int>>, ShapeError>)
      requires DeclarationsSealed(declarations)
      ensures r == ShapeRows(declarations, frame)
      ensures r.Ok? ==> |r.value| == |declarations| && forall dims :: dims in r.value ==> Prod(dims) >= 0
    {
      hide LiveDims, Prod, Resource.Sealed;
      var rows: seq<seq<int>> := [];
      for i := 0 to |declarations|
        invariant ShapeRows(declarations[..i], frame) == Ok(rows)
        invariant |rows| == i && forall dims :: dims in rows ==> Prod(dims) >= 0
      {
        assert declarations[i].Sealed();
        assert declarations[..i + 1][..i] == declarations[..i];
        var dims := EvaluateShape(declarations[i], frame);
        if dims.Err? {
          ShapeRowsError(declarations, i + 1, frame);
          return Err(dims.error);
        }
        rows := rows + [dims.value];
      }
      assert declarations[..|declarations|] == declarations;
      return Ok(rows);
    }

    /** Allocate and check one tensor. */
    method AllocateOne(d: Resource, dims: seq<int>) returns (r: Option<Value>)
      requires Disciplined(provider.log) && Clear(provider.log) && Open(provider.log, owner) && d.Sealed()
      modifies provider
      ensures Disciplined(provider.log) && Clear(provider.log)
      ensures Fenced(provider.log) == old(Fenced(provider.log))
      ensures Reported(old(provider.log), provider.log, AllocationOutcome(r.Some?))
      ensures Extends(owner, old(provider.log), provider.log) && NoNewMarkers(old(provider.log), provider.log)
      ensures r.Some? ==>
                && Suits(r, dims, d.alignment)
                && provider.log == old(provider.log) +
                     [Alloc(owner, dims, d.width, d.alignment, r), Vetted(owner, r.value, true)]
    {
      hide Disciplined, Clear, Fenced, Resource.Sealed;
      SealedAlignment(d);
      r := provider.Allocate(owner, dims, d.width, d.alignment);
      if r.None? || !r.value.Tensor? || r.value.dims != dims {
        return None;
      }
      if r.value.pointer % d.alignment != 0 {
        return None;
      }
      var ok := provider.ValidateAllocation(owner, r.value, dims, d.alignment);
      if !ok {
        return None;
      }
    }

    /** Allocate and check every tensor of one frame, stopping at the first failure. */
    method AllocateAll(declarations: seq<Resource>, shapes: seq<seq<int>>) returns (r: Option<Frame>)
      requires Disciplined(provider.log) && Clear(provider.log) && Open(provider.log, owner)
      requires |shapes| == |declarations|
      requires DeclarationsSealed(declarations)
      modifies provider
      ensures Disciplined(provider.log) && Clear(provider.log) && Extends(owner, old(provider.log), provider.log)
      ensures Fenced(provider.log) == old(Fenced(provider.log))
      ensures NoNewMarkers(old(provider.log), provider.log)
      ensures Reported(old(provider.log), provider.log, AllocationOutcome(r.Some?))
      ensures r.Some? ==> FrameFits(declarations, shapes, r.value) && Holds(r.value, declarations)
      ensures r.Some? ==> provider.log == old(provider.log) + AllocEvents(owner, declarations, shapes, r.value)
    {
      hide Disciplined, Clear, Fenced, Resource.Sealed, Extends, NoNewMarkers, FrameFits, AllocEvents, Reported, Open;
      var frame := EMPTY_FRAME;
      ghost var start := provider.log;
      NoAllocs(owner, start);
      NothingReported(start, AllocationFailed);
      for i := 0 to |declarations|
        invariant Disciplined(provider.log) && Clear(provider.log)
        invariant Fenced(provider.log) == old(Fenced(provider.log)) && Open(provider.log, owner)
        invariant FrameFits(declarations[..i], shapes[..i], frame) && Holds(frame, declarations[..i])
        invariant provider.log == start + AllocEvents(owner, declarations[..i], shapes[..i], frame)
        invariant Extends(owner, start, provider.log) && NoNewMarkers(start, provider.log)
        invariant Reported(start, provider.log, None)
      {
        ghost var before := provider.log;
        var tensor := AllocateOne(declarations[i], shapes[i]);
        LogThen(owner, start, before, provider.log, AllocationOutcome(tensor.Some?));
        if tensor.None? {
          return None;
        }
        FitsStep(declarations, shapes, i, frame, tensor.value);
        MoreAllocs(owner, declarations, shapes, i, frame, tensor.value);
        frame := frame.With(declarations[i].name, tensor.value);
      }
      assert declarations[..|declarations|] == declarations && shapes[..|shapes|] == shapes;
      return Some(frame);
    }

    /** Reserve, allocate and commit one frame that is not cached yet.  A failed allocation
        returns its reservation. */
    method AllocateFrame(key: CacheKey, declarations: seq<Resource>, shapes: seq<seq<int>>, additional: int)
      returns (r: Result<Frame, RuntimeError>)
      requires Valid() && !closing && Clear(provider.log)
      requires key !in resourceFrames && key.shapes == shapes
      requires config.Declared(key.prefix) == declarations != [] && |shapes| == |declarations|
      requires additional == CostBytes(declarations, shapes) >= 0
      modifies this`resourceFrames, this`allocatedBytes, this`allocatedKeys, budget, provider
      ensures Valid() && Follows(owner, old(Now()), Now(), ErrorOf(r))
      ensures NoNewMarkers(old(provider.log), provider.log)
      ensures Clear(provider.log) && Fenced(provider.log) == old(Fenced(provider.log))
      ensures r.Ok? ==> resourceFrames == old(resourceFrames)[key := r.value]
      ensures r.Ok? ==> Holds(r.value, declarations) &&
                        provider.log == old(provider.log) + AllocEvents(owner, declarations, shapes, r.value)
      ensures r.Err? ==> resourceFrames == old(resourceFrames) && budget.reservations == old(budget.reservations)
      ensures r.Err? ==> r.error == AllocationFailed ||
                         (r.error.Reservation? && r.error.budget in {KeyBudget, ByteBudget})
    {
      hide DeviceRuntime.Worker.Valid, Total, CostBytes, Disciplined, Clear, Fenced, LifeSound, BooksBalance,
           AllocEvents, Extends, NoNewMarkers, Config.Sealed, FrameFits, Advances, Reported, Bounded, Holds,
           Budget.Valid;
      NoAllocs(owner, provider.log);
      Still(owner, Now());
      ghost var start := Now();
      OpenUntilClosing(MyLife(), provider.log);
      UncachedIsUnreserved(MyBooks(), budget.reservations, key);
      SealedDeclarations(config, key.prefix);
      ghost var ledger := budget.reservations;
      var count := |declarations|;
      var reserved := budget.Reserve(owner, key, additional, count);
      if reserved.Err? {
        Decline(owner, start, Now(), Reservation(reserved.error));
        return Err(Reservation(reserved.error));
      }
      var tensors := AllocateAll(declarations, shapes);
      LogGrows(MyLife(), old(provider.log), provider.log);
      if tensors.None? {
        budget.Cancel(owner, key);
        assert budget.reservations == ledger;
        AdvancesLog(owner, start, provider.log);
        return Err(AllocationFailed);
      }
      ghost var books := MyBooks();
      resourceFrames := resourceFrames[key := tensors.value];
      allocatedBytes := allocatedBytes + additional;
      allocatedKeys := allocatedKeys + count;
      BookFrame(books, MyBooks(), ledger, key, tensors.value, Charge(additional, count));
      AdvancesBooked(owner, start, key, tensors.value, Charge(additional, count), provider.log);
      return Ok(tensors.value);
    }

    /** One cached frame of artifact-owned tensors: looked up, or reserved, allocated, committed.
        Failure leaves frames and ledger as they were.  The entry's own limit checks only refuse
        what the shared budget would refuse, and a reservation never repeats. */
    method ResourceFrame(s: Setting, plan: Plan, prefix: Prefix)
      returns (r: Result<Frame, RuntimeError>)
      requires Valid() && !closing && s.config == config
      modifies this`resourceFrames, this`allocatedBytes, this`allocatedKeys, budget, provider
      ensures Valid() && Follows(owner, old(Now()), Now(), ErrorOf(r))
      ensures NoNewMarkers(old(provider.log), provider.log)
      ensures old(Fenced(provider.log)) ==> Fenced(provider.log)
      ensures old(Clear(provider.log)) && r.Ok? ==> Clear(provider.log)
      ensures r.Err? ==> resourceFrames == old(resourceFrames) && budget.reservations == old(budget.reservations)
      ensures r.Ok? ==> Stored(resourceFrames, s, plan, prefix) && r.value == Storage(resourceFrames, s, plan, prefix)
      ensures Stored(old(resourceFrames), s, plan, prefix) ==> r.Ok? && Now() == old(Now())
      ensures r.Err? && r.error in {EntryKeyLimit, EntryByteLimit} ==>
                && ShapeRows(config.Declared(prefix), s.base).Ok?
                && var key := StorageKey(s, plan, prefix);
                   |key.shapes| == |config.Declared(prefix)| &&
                   old(budget.Verdict(owner, key, CostBytes(config.Declared(prefix), key.shapes), |key.shapes|)).Err?
      ensures r.Err? && r.error.Reservation? ==> r.error.budget in {KeyBudget, ByteBudget}
      ensures r != Err(LacksPlan)
    {
      hide Valid, Clear, Fenced, CostBytes, ShapeRows, Follows, NoNewMarkers, Budget.Valid, Budget.Verdict;
      Still(owner, Now());
      NoAllocs(owner, provider.log);
      var declarations := config.Declared(prefix);
      DeclaredSealed(prefix);
      if declarations == [] {
        return Ok(EMPTY_FRAME);
      }
      var shapes := ShapesFor(declarations, s.base);
      if shapes.Err? {
        Decline(owner, Now(), Now(), Shape(shapes.error));
        return Err(Shape(shapes.error));
      }
      var key := CacheKey(plan.name, prefix, s.instance, shapes.value);
      if key in resourceFrames {
        return Ok(resourceFrames[key]);
      }
      r := MakeFrame(key, declarations);
    }

    /** The miss path: capture, the entry's own limits, then the allocation. */
    method MakeFrame(key: CacheKey, declarations: seq<Resource>) returns (r: Result<Frame, RuntimeError>)
      requires Valid() && !closing && key !in resourceFrames
      requires config.Declared(key.prefix) == declarations != [] && |key.shapes| == |declarations|
      requires forall dims :: dims in key.shapes ==> Prod(dims) >= 0
      modifies this`resourceFrames, this`allocatedBytes, this`allocatedKeys, budget, provider
      ensures Valid() && Follows(owner, old(Now()), Now(), ErrorOf(r))
      ensures NoNewMarkers(old(provider.log), provider.log)
      ensures old(Fenced(provider.log)) ==> Fenced(provider.log)
      ensures r.Ok? ==> Clear(provider.log)
      ensures r.Ok? ==> resourceFrames == old(resourceFrames)[key := r.value]
      ensures r.Err? ==> resourceFrames == old(resourceFrames) && budget.reservations == old(budget.reservations)
      ensures r.Err? && r.error in {EntryKeyLimit, EntryByteLimit} ==>
                old(budget.Verdict(owner, key, CostBytes(declarations, key.shapes), |declarations|)).Err?
      ensures r.Err? && r.error.Reservation? ==> r.error.budget in {KeyBudget, ByteBudget}
      ensures r != Err(LacksPlan)
    {
      hide Valid, Clear, Fenced, CostBytes, RequestedBytes, Follows, NoNewMarkers, Budget.Valid, AllocEvents,
           Budget.Verdict;
      ghost var start := Now();
      DeclaredSealed(key.prefix);
      var count := |declarations|;
      var additional := RequestedBytes(declarations, key.shapes);
      RequestIsCost(declarations, key.shapes);
      OwnLimitRefused(key, additional, count);
      var capture := RequirePreCapture();
      if capture.Err? {
        return Err(capture.error);
      }
      ghost var queried := Now();
      if allocatedKeys + count > budget.limits.maxKeys {
        Decline(owner, start, queried, EntryKeyLimit);
        return Err(EntryKeyLimit);
      }
      if allocatedBytes + additional > budget.limits.maxBytes {
        Decline(owner, start, queried, EntryByteLimit);
        return Err(EntryByteLimit);
      }
      r := AllocateFrame(key, declarations, key.shapes, additional);
      Next(owner, start, queried, Now(), ErrorOf(r));
      MarkersThen(start.log, queried.log, provider.log);
    }

    lemma DeclaredSealed(prefix: Prefix)
      requires Valid()
      ensures DeclarationsSealed(config.Declared(prefix))
    {
      hide DeviceRuntime.Worker.Valid, Budget.Valid, Config.Sealed, BooksBalance, LifeSound, Disciplined;
      SealedDeclarations(config, prefix);
    }

    /** What the entry's own counters refuse, the budget would refuse too. */
    lemma OwnLimitRefused(key: CacheKey, bytes: int, count: int)
      requires Valid() && bytes >= 0 && count >= 1
      ensures allocatedKeys + count > budget.limits.maxKeys || allocatedBytes + bytes > budget.limits.maxBytes ==>
                budget.Verdict(owner, key, bytes, count).Err?
    {
      hide DeviceRuntime.Worker.Valid, Total, LifeSound, BooksBalance, Disciplined, Owned;
      OwnerShare(budget.reservations, owner);
      UncachedIsUnreserved(MyBooks(), budget.reservations, key);
    }

    /** Ask the provider where the caller's work runs. */
    method CurrentScope() returns (r: Result<nat, RuntimeError>)
      requires Valid()
      modifies provider
      ensures Valid() && Follows(owner, old(Now()), Now(), ErrorOf(r))
      ensures r.Err? ==> r.error == ScopeFailed
      ensures provider.log == old(provider.log) + [Scope(owner, if r.Ok? then Some(r.value) else None)]
      ensures Clear(provider.log) == old(Clear(provider.log)) && Fenced(provider.log) == old(Fenced(provider.log))
    {
      hide DeviceRuntime.Worker.Valid, Budget.Valid, Config.Sealed, BooksBalance, LifeSound, Disciplined, Clear, Fenced;
      var scope := provider.ExecutionScope(owner);
      LogGrows(MyLife(), old(provider.log), provider.log);
      return if scope.Some? then Ok(scope.value) else Err(ScopeFailed);
    }

    /** The identity of one resource inside a lifecycle key. */
    method MarkOf(name: string, frame: Frame) returns (r: Result<Mark, RuntimeError>, ghost asked: Log)
      requires Valid()
      modifies provider
      ensures Valid() && Follows(owner, old(Now()), Now(), ErrorOf(r))
      ensures provider.log == old(provider.log) + asked
      ensures Clear(provider.log) == old(Clear(provider.log)) && Fenced(provider.log) == old(Fenced(provider.log))
      ensures r.Ok? ==> Asked(asked, owner) && MarkSound(r.value, name, frame, owner, asked)
      ensures r.Err? ==> r.error in {MissingResource, ScopeFailed}
    {
      hide Valid, Clear, Fenced, Follows;
      Still(owner, Now());
      asked := [];
      if frame.Has(name) {
        return Ok(Live(IdentityOf(frame.Get(name)))), asked;
      }
      if name !in config.abi.streams {
        Decline(owner, Now(), Now(), MissingResource);
        return Err(MissingResource), asked;
      }
      var scope := CurrentScope();
      asked := [Scope(owner, if scope.Ok? then Some(scope.value) else None)];
      if scope.Err? {
        return Err(scope.error), asked;
      }
      return Ok(CurrentStream(scope.value)), asked;
    }

    /** The identity under which one lifecycle phase of a plan is deduplicated. */
    method KeyOf(plan: Plan, role: Role, names: set<string>, frame: Frame)
      returns (r: Result<LifecycleKey, RuntimeError>, ghost asked: Log)
      requires Valid()
      modifies provider
      ensures Valid() && Follows(owner, old(Now()), Now(), ErrorOf(r))
      ensures provider.log == old(provider.log) + asked
      ensures Clear(provider.log) == old(Clear(provider.log)) && Fenced(provider.log) == old(Fenced(provider.log))
      ensures r.Ok? ==> r.value.plan == plan.name && r.value.role == role && MarksMatch(r.value, names, frame)
      ensures r.Ok? ==> Asked(asked, owner) && MarksSound(r.value.rows.values, frame, owner, asked)
      ensures r.Err? ==> r.error in {MissingResource, ScopeFailed}
    {
      hide Valid, Clear, Fenced, Follows, Asked, MarksSound, MarkSound, MarksMatch, Marking;
      ghost var start := Now();
      Still(owner, start);
      var rows: map<string, Mark> := map[];
      var todo := names;
      asked := [];
      NoMarks(names, frame, owner);
      while todo != {}
        invariant Valid() && Follows(owner, start, Now(), None)
        invariant Clear(provider.log) == old(Clear(provider.log)) && Fenced(provider.log) == old(Fenced(provider.log))
        invariant provider.log == old(provider.log) + asked && Asked(asked, owner)
        invariant Marking(names, todo, rows) && MarksSound(rows, frame, owner, asked)
        decreases |todo|
      {
        var name :| name in todo;
        ghost var before := Now();
        var mark;
        ghost var more;
        mark, more := MarkOf(name, frame);
        Next(owner, start, before, Now(), ErrorOf(mark));
        if mark.Err? {
          return Err(mark.error), asked + more;
        }
        OneMoreMark(names, todo, rows, name, mark.value, frame, owner, asked, more);
        rows, asked, todo := rows[name := mark.value], asked + more, todo - {name};
      }
      r := Ok(LifecycleKey(plan.name, role, Marks(rows)));
      SoundMarksMatch(r.value, names, frame, owner, asked);
    }

    /** Hand the steps of one phase to their executors, stopping at the first failure. */
    method LaunchAll(steps: seq<Step>, frame: Frame) returns (ok: bool)
      requires Valid() && !closing
      requires forall s :: s in steps ==> s.role != Destroy && (s.role in {Init, Role.Prepare} ==> Clear(provider.log))
      modifies provider, provider.worker.driver
      ensures Valid() && Follows(owner, old(Now()), Now(), if ok then None else Some(StepFailed))
      ensures Clear(provider.log) == old(Clear(provider.log))
      ensures old(Fenced(provider.log)) && (forall s :: s in steps ==> s.role != Role.Prepare) ==> Fenced(provider.log)
      ensures ok ==> provider.log == old(provider.log) + Invocations(owner, steps, frame)
      ensures ok ==> StepsRan(provider.worker.runtimes, steps, old(provider.worker.driver.log),
                              provider.worker.driver.log)
      ensures !ok ==> exists n :: StoppedAt(old(provider.log), provider.log, owner, steps, frame, n)
    {
      hide DeviceRuntime.Worker.Valid, Budget.Valid, Config.Sealed, BooksBalance, LifeSound, Disciplined, Clear, Fenced,
           StepsRan, Advances, Reported, Invocations, NoNewMarkers;
      ghost var start := Now();
      OpenUntilClosing(MyLife(), provider.log);
      ok := provider.LaunchSteps(owner, steps, frame);
      LaunchesFollow(owner, start, Now(), steps, frame, ok);
      LogGrows(MyLife(), old(provider.log), provider.log);
    }

    /** Run the init steps of a plan once per identity of the resources they read. */
    method EnsureInitialized(plan: Plan, frame: Frame) returns (r: Result<(), RuntimeError>)
      requires Valid() && !closing
      modifies this`initialized, provider, provider.worker.driver
      ensures Valid() && Follows(owner, old(Now()), Now(), ErrorOf(r))
      ensures old(Fenced(provider.log)) ==> Fenced(provider.log)
      ensures old(Clear(provider.log)) && r.Ok? ==> Clear(provider.log)
      ensures old(initialized) <= initialized
      ensures r != Err(LacksPlan)
      ensures r.Ok? ==> InitSatisfied(initialized, plan, frame)
      ensures initialized == old(initialized) ||
              exists key :: initialized == old(initialized) + {key} &&
                InitRan(old(provider.log), provider.log, owner, plan, frame, key)
      ensures r.Ok? && initialized == old(initialized) ==>
                exists asked :: Asked(asked, owner) && provider.log == old(provider.log) + asked
    {
      hide Valid, Clear, Fenced, Follows, Filter, MarksMatch, MarksSound, Asked, StepsRan, Invocations, StoppedAt,
           BehindInits, InitRan, Phase, HasRole, ReadBy, ResourceNames;
      ghost var start, before := Now(), Now();
      Still(owner, start);
      NothingAsked(owner);
      assert provider.log == old(provider.log) + [];
      FilterIsPhase(plan, {Init});
      var steps := Filter(plan.steps, {Init});
      if steps == [] {
        return Ok(());
      }
      var key;
      ghost var asked;
      key, asked := KeyOf(plan, Init, ResourceNames(steps), frame);
      if key.Err? {
        return Err(key.error);
      }
      if key.value in initialized {
        return Ok(());
      }
      before := Now();
      var capture := RequirePreCapture();
      Next(owner, start, before, Now(), ErrorOf(capture));
      if capture.Err? {
        return Err(capture.error);
      }
      before := Now();
      var ok := LaunchAll(steps, frame);
      Next(owner, start, before, Now(), if ok then None else Some(StepFailed));
      if !ok {
        return Err(StepFailed);
      }
      InitsBehind(before.log, owner, steps, frame);
      before := Now();
      CompleteInit(key.value);
      Next(owner, start, before, Now(), None);
      InitHappened(old(provider.log), asked, provider.log, owner, plan, steps, frame, key.value);
      return Ok(());
    }

    /** Mark one init key as done. */
    method CompleteInit(key: LifecycleKey)
      requires Valid() && !closing && key !in initialized && BehindInits(provider.log, owner)
      modifies this`initialized, provider
      ensures Valid() && Follows(owner, old(Now()), Now(), None)
      ensures initialized == old(initialized) + {key} && provider.log == old(provider.log) + [InitDone(owner, key)]
      ensures Clear(provider.log) == old(Clear(provider.log)) && Fenced(provider.log) == old(Fenced(provider.log))
    {
      hide DeviceRuntime.Worker.Valid, Budget.Valid, Config.Sealed, BooksBalance, LifeSound, Disciplined, Clear, Fenced,
           BehindInits;
      OpenUntilClosing(MyLife(), provider.log);
      InitLogged(MyLife(), provider.log, key);
      InitRecorded(MyLife(), provider.log, key);
      provider.Record(InitDone(owner, key));
      initialized := initialized + {key};
    }

    /** Remember the destroy steps of a plan for the frame it used; repeats are dropped. */
    method RecordDestroy(plan: Plan, frame: Frame) returns (r: Result<(), RuntimeError>)
      requires Valid() && !closing && plan in config.plans
      modifies this`destroyFrames, provider
      ensures Valid() && Follows(owner, old(Now()), Now(), ErrorOf(r))
      ensures Clear(provider.log) == old(Clear(provider.log)) && Fenced(provider.log) == old(Fenced(provider.log))
      ensures r.Ok? ==> DestroyRecorded(destroyFrames, plan, frame)
      ensures r.Err? ==> r.error in {MissingResource, ScopeFailed}
    {
      hide Valid, Clear, Fenced, Advances, Reported, Records;
      ghost var start := Now();
      Still(owner, start);
      for i := 0 to |plan.steps|
        invariant Valid() && Follows(owner, start, Now(), None)
        invariant Clear(provider.log) == old(Clear(provider.log)) && Fenced(provider.log) == old(Fenced(provider.log))
        invariant forall k :: 0 <= k < i && plan.steps[k].role == Destroy ==>
                    StepRecorded(destroyFrames, plan, plan.steps[k], frame)
      {
        if plan.steps[i].role == Destroy {
          ghost var before := Now();
          r := RecordStep(plan, i, frame);
          Next(owner, start, before, Now(), ErrorOf(r));
          if r.Err? {
            return;
          }
          RowsGrow(owner, before, Now());
        }
      }
      return Ok(());
    }

    /** Remember one destroy step. */
    method RecordStep(plan: Plan, i: nat, frame: Frame) returns (r: Result<(), RuntimeError>)
      requires Valid() && !closing && plan in config.plans && i < |plan.steps| && plan.steps[i].role == Destroy
      modifies this`destroyFrames, provider
      ensures Valid() && Follows(owner, old(Now()), Now(), ErrorOf(r))
      ensures Clear(provider.log) == old(Clear(provider.log)) && Fenced(provider.log) == old(Fenced(provider.log))
      ensures r.Ok? ==> StepRecorded(destroyFrames, plan, plan.steps[i], frame)
      ensures r.Err? ==> r.error in {MissingResource, ScopeFailed}
    {
      hide Valid, Clear, Fenced, Follows, MarksSound, Asked;
      ghost var start := Now();
      var step := plan.steps[i];
      var key, _ := KeyOf(plan, Destroy, step.resources, frame);
      if key.Err? {
        return Err(key.error);
      }
      ghost var before := Now();
      Remember(DestroyRow(step.name, step.number, key.value, step, frame), plan);
      Next(owner, start, before, Now(), None);
      return Ok(());
    }

    /** `setdefault` on the ordered destroy table. */
    method Remember(row: DestroyRow, ghost plan: Plan)
      requires Valid() && !closing && plan in config.plans && row.step in plan.steps
      requires row.step.role == Destroy && Records(row, plan, row.step, row.frame)
      modifies this`destroyFrames, provider
      ensures Valid() && Follows(owner, old(Now()), Now(), None)
      ensures Clear(provider.log) == old(Clear(provider.log)) && Fenced(provider.log) == old(Fenced(provider.log))
      ensures StepRecorded(destroyFrames, plan, row.step, row.frame)
    {
      hide Valid, Clear, Fenced, Follows, Records;
      Still(owner, Now());
      if i :| 0 <= i < |destroyFrames| && destroyFrames[i].name == row.name &&
              destroyFrames[i].number == row.number && destroyFrames[i].key == row.key {
        KnownRow(i, row, plan);
      } else {
        AddRow(row, plan);
        assert Records(destroyFrames[|destroyFrames| - 1], plan, row.step, row.frame);
      }
    }

    /** A row already recorded under the same key is of the same step. */
    lemma KnownRow(i: nat, row: DestroyRow, plan: Plan)
      requires Valid() && plan in config.plans && row.step in plan.steps && Records(row, plan, row.step, row.frame)
      requires i < |destroyFrames| && destroyFrames[i].name == row.name
      requires destroyFrames[i].number == row.number && destroyFrames[i].key == row.key
      ensures Records(destroyFrames[i], plan, row.step, row.frame)
    {
      hide DeviceRuntime.Worker.Valid, Total, BooksBalance, Disciplined;
      assert destroyFrames[i] in destroyFrames;
      SameRow(destroyFrames[i], config.plans, plan, row.step, row.frame);
    }

    /** Record one more destroy launch that teardown owes. */
    method AddRow(row: DestroyRow, ghost plan: Plan)
      requires Valid() && !closing && plan in config.plans && row.step in plan.steps
      requires row.step.role == Destroy && Records(row, plan, row.step, row.frame)
      requires forall i :: 0 <= i < |destroyFrames| ==>
                 (destroyFrames[i].name, destroyFrames[i].number, destroyFrames[i].key) !=
                   (row.name, row.number, row.key)
      modifies this`destroyFrames, provider
      ensures Valid() && Follows(owner, old(Now()), Now(), None) && destroyFrames == old(destroyFrames) + [row]
      ensures Clear(provider.log) == old(Clear(provider.log)) && Fenced(provider.log) == old(Fenced(provider.log))
    {
      hide DeviceRuntime.Worker.Valid, Budget.Valid, Config.Sealed, BooksBalance, LifeSound, Disciplined, Clear, Fenced,
           Records, Advances, Reported;
      ghost var start := Now();
      ClosedIsClosing(MyLife(), provider.log);
      OpenUntilClosing(MyLife(), provider.log);
      DestroyAdded(MyLife(), provider.log, row);
      provider.Record(Owed(owner, row));
      destroyFrames := destroyFrames + [row];
      EventFollows(owner, start, Now(), Owed(owner, row));
    }

    /** A public method takes the entry lock. */
    ghost method Enter()
      requires Valid()
      modifies provider
      ensures Valid() && Follows(owner, old(Now()), Now(), None)
      ensures provider.log == old(provider.log) + [Begin(owner)]
      ensures Fenced(provider.log) && Unfailed(provider.log, owner)
    {
      hide DeviceRuntime.Worker.Valid, Budget.Valid, Config.Sealed, BooksBalance, LifeSound, Disciplined, Clear, Fenced;
      provider.Record(Begin(owner));
      LogGrows(MyLife(), old(provider.log), provider.log);
    }

    /** State and prepared storage, init and prepare launches of one plan, in that order. */
    method PreparePlan(s: Setting, plan: Plan, explicit: bool) returns (r: Result<Frame, RuntimeError>, launched: bool)
      requires Valid() && !closing && Clear(provider.log) && plan in config.plans && Mine(s)
      modifies this`resourceFrames, this`allocatedBytes, this`allocatedKeys, this`initialized, this`destroyFrames,
               budget, provider, provider.worker.driver
      ensures Valid() && Follows(owner, old(Now()), Now(), ErrorOf(r))
      ensures r != Err(LacksPlan)
      ensures r.Ok? ==> Clear(provider.log) && DestroyRecorded(destroyFrames, plan, r.value)
      ensures r.Ok? ==> launched == HasRole(plan, Role.Prepare)
      ensures r.Ok? && !launched && old(Fenced(provider.log)) ==> Fenced(provider.log)
      ensures old(initialized) <= initialized
      ensures r.Ok? ==> PlanPrepared(Now(), initialized, s, plan, |old(provider.log)|, r.value)
      ensures r.Ok? ==> Equipped(s, config.prepared, r.value)
    {
      hide Valid, Clear, Fenced, DestroyRecorded, Advances, Reported, Assembled, InitSatisfied, Filter, Ran, StepsRan,
           StoppedAt, Invocations, Phase, HasRole, Equipped;
      ghost var start, before := Now(), Now();
      launched := false;
      var frame := AssembleFrame(s, plan, Prepared, explicit);
      if frame.Err? {
        return Err(frame.error), launched;
      }
      FrameEquips(s, plan, frame.value);
      before := Now();
      var init := EnsureInitialized(plan, frame.value);
      Next(owner, start, before, Now(), ErrorOf(init));
      if init.Err? {
        return Err(init.error), launched;
      }
      FilterIsPhase(plan, {Role.Prepare});
      var steps := Filter(plan.steps, {Role.Prepare});
      launched := steps != [];
      before := Now();
      LogsGrow(owner, start, before);
      var ok := LaunchAll(steps, frame.value);
      Next(owner, start, before, Now(), if ok then None else Some(StepFailed));
      if !ok {
        return Err(StepFailed), launched;
      }
      JustRan(before.log, |start.log|, Invocations(owner, steps, frame.value));
      before := Now();
      var recorded := RecordDestroy(plan, frame.value);
      Next(owner, start, before, Now(), ErrorOf(recorded));
      if recorded.Err? {
        return Err(recorded.error), launched;
      }
      LogsGrow(owner, before, Now());
      RanGrows(before.log, provider.log, |start.log|, Invocations(owner, steps, frame.value));
      return Ok(frame.value), launched;
    }

    lemma FrameEquips(s: Setting, plan: Plan, frame: Frame)
      requires Valid() && Mine(s) && Assembled(resourceFrames, s, plan, Prepared, frame)
      ensures Equipped(s, config.prepared, frame)
    {
      hide DeviceRuntime.Worker.Valid, Budget.Valid, Config.Sealed, LifeSound, Disciplined, BooksBalance, Assembled,
           Equipped;
      AssembledEquips(MyBooks(), budget.reservations, s, plan, Prepared, frame);
    }

    ghost predicate Mine(s: Setting) {
      s.owner == owner && s.config == config
    }

    /** Engine state where its shape is known, then the storage of one more prefix. */
    method AssembleFrame(s: Setting, plan: Plan, prefix: Prefix, explicit: bool)
      returns (r: Result<Frame, RuntimeError>)
      requires Valid() && !closing && Mine(s)
      modifies this`resourceFrames, this`allocatedBytes, this`allocatedKeys, budget, provider
      ensures Valid() && Follows(owner, old(Now()), Now(), ErrorOf(r))
      ensures old(Fenced(provider.log)) ==> Fenced(provider.log)
      ensures old(Clear(provider.log)) && r.Ok? ==> Clear(provider.log)
      ensures r != Err(LacksPlan)
      ensures r.Ok? ==> Assembled(resourceFrames, s, plan, prefix, r.value)
    {
      hide Valid, Clear, Fenced, ShapeRows, CanShape, NoNewMarkers, Advances, Reported, Stored, Storage;
      ghost var start, before := Now(), Now();
      Still(owner, start);
      var frame := s.base;
      if CanShape(config.state, frame) {
        var rows := ResourceFrame(s.State(), plan, EngineState);
        if rows.Err? {
          return Err(rows.error);
        }
        frame := frame.Update(rows.value);
      }
      if prefix == Prepared && config.prepared == [] {
        NothingDeclared(resourceFrames, s.On(frame), plan, prefix);
        return Ok(frame);
      }
      before := Now();
      if explicit && !CanShape(config.Declared(prefix), frame) {
        Decline(owner, start, before, ShapeUnavailable);
        return Err(ShapeUnavailable);
      }
      var rows := ResourceFrame(s.On(frame), plan, prefix);
      Next(owner, start, before, Now(), ErrorOf(rows));
      if rows.Err? {
        return Err(rows.error);
      }
      if CanShape(config.state, s.base) {
        FramesGrow(owner, before, Now());
        StorageStays(before.frames, resourceFrames, s.State(), plan, EngineState);
      }
      return Ok(frame.Update(rows.value));
    }

    /** A completion fence. */
    method Synchronize() returns (ok: bool)
      requires Valid()
      modifies provider, provider.worker.driver
      ensures Valid() && Follows(owner, old(Now()), Now(), if ok then None else Some(SyncFailed))
      ensures provider.log == old(provider.log) + [Sync(owner, ok)]
      ensures DeviceUsed(old(provider.worker.driver.log), provider.worker.driver.log)
      ensures provider.worker.driver.log == old(provider.worker.driver.log) + [CubinProtocol.Fence(ok)]
      ensures Clear(provider.log) == old(Clear(provider.log))
      ensures ok ==> Fenced(provider.log) && Settled(provider.log, owner)
    {
      hide DeviceRuntime.Worker.Valid, Budget.Valid, Config.Sealed, BooksBalance, LifeSound, Disciplined, Clear,
           Fenced, Settled;
      ok := provider.Synchronize(owner);
      LogGrows(MyLife(), old(provider.log), provider.log);
    }

    /** Prepare plan `i` after the ones before it. */
    method PrepareNext(ghost start: World, s: Setting, i: nat, frames: map<string, Frame>)
      returns (r: Result<map<string, Frame>, RuntimeError>, launched: bool)
      requires Valid() && !closing && Clear(provider.log) && Mine(s) && i < |config.plans|
      requires Underway(start, Now(), initialized, s, i, frames) && Reported(start.log, provider.log, None)
      modifies this`resourceFrames, this`allocatedBytes, this`allocatedKeys, this`initialized, this`destroyFrames,
               budget, provider, provider.worker.driver
      ensures Valid() && Follows(owner, start, Now(), ErrorOf(r))
      ensures r != Err(LacksPlan)
      ensures r.Ok? ==> Clear(provider.log) && Underway(start, Now(), initialized, s, i + 1, r.value)
      ensures r.Ok? && !launched && old(Fenced(provider.log)) ==> Fenced(provider.log)
    {
      DistinctPlans();
      hide Valid, Clear, Fenced, DestroyRecorded, PlansRecorded, Advances, Reported, AllPrepared, PlanPrepared, Filter;
      var plan := config.plans[i];
      ghost var before, done := Now(), initialized;
      LogsGrow(owner, start, before);
      var frame;
      frame, launched := PreparePlan(s, plan, true);
      Next(owner, start, before, Now(), ErrorOf(frame));
      if frame.Err? {
        return Err(frame.error), launched;
      }
      RowsGrow(owner, before, Now());
      PlansRecordedStep(before.rows, destroyFrames, config.plans, i, frames, frame.value);
      AllPreparedStep(before, Now(), done, initialized, s, i, |before.log|, |start.log|, frames, frame.value);
      return Ok(frames[plan.name := frame.value]), launched;
    }

    /** The prepare pipelines of all plans, then one fence if any prepare step was launched. */
    method PrepareAll(s: Setting) returns (r: Result<PlanFrames, RuntimeError>)
      requires Valid() && !closing && Clear(provider.log) && Fenced(provider.log) && Mine(s)
      modifies this`resourceFrames, this`allocatedBytes, this`allocatedKeys, this`initialized, this`destroyFrames,
               budget, provider, provider.worker.driver
      ensures Valid() && Follows(owner, old(Now()), Now(), ErrorOf(r))
      ensures r != Err(LacksPlan)
      ensures r.Ok? ==> Fenced(provider.log)
      ensures r.Ok? ==> Underway(old(Now()), Now(), initialized, s, |config.plans|, r.value.byPlan)
    {
      hide Valid, Clear, Fenced, Settled, Advances, Reported, Underway;
      ghost var start := Now();
      NothingUnderway(start, initialized, s);
      Still(owner, start);
      var frames: map<string, Frame> := map[];
      var launched := false;
      for i := 0 to |config.plans|
        invariant Valid() && Follows(owner, start, Now(), None) && Underway(start, Now(), initialized, s, i, frames)
        invariant Clear(provider.log) && (!launched ==> Fenced(provider.log))
      {
        var next, started := PrepareNext(start, s, i, frames);
        if next.Err? {
          return Err(next.error);
        }
        launched := launched || started;
        frames := next.value;
      }
      if launched {
        ghost var before := Now();
        var ok := Synchronize();
        Next(owner, start, before, Now(), if ok then None else Some(SyncFailed));
        StillUnderway(start, before, Now(), initialized, s, |config.plans|, frames);
        if !ok {
          return Err(SyncFailed);
        }
      }
      return Ok(PlanFrames(frames));
    }

    lemma DistinctPlans()
      requires Valid()
      ensures forall i, j :: 0 <= i < j < |config.plans| ==> config.plans[i].name != config.plans[j].name
    {
      hide DeviceRuntime.Worker.Valid, Budget.Valid, BooksBalance, LifeSound, Disciplined;
    }

    ghost predicate TokenReady(state: PreparedState)
      reads this, provider
    {
      && state.owner == owner
      && state.key in preparedByKey && preparedByKey[state.key] == state
      && Issued(owner, state) in provider.log
      && state.token in preparedFrames
      && PlansRecorded(destroyFrames, config.plans, |config.plans|, preparedFrames[state.token].byPlan)
    }

    /** The token was made by a prepare that began at `from`: every plan was prepared since then. */
    ghost predicate Fresh(state: PreparedState, base: Frame, scope: nat, from: nat)
      reads this, budget, provider, provider.worker.driver
    {
      && state.token in preparedFrames
      && AllPrepared(Now(), initialized, PrepareSetting(base, scope, state.key), |config.plans|, from,
                     preparedFrames[state.token].byPlan)
    }

    function PrepareSetting(base: Frame, scope: nat, key: Rows): Setting {
      Setting(owner, config, base, scope, GroupScope(config.abi, base), PreparedInstance(key))
    }

    function ImplicitSetting(plan: Plan, base: Frame, scope: nat): Setting {
      Setting(owner, config, base, scope, GroupScope(config.abi, base),
              ImplicitInstance(ImplicitKeyOf(config, plan, base, scope)))
    }

    /** A call's workspace belongs to its scope and to the groups of its own resources. */
    function CallSetting(base: Frame, frame: Frame, scope: nat): Setting {
      var groups := GroupScope(config.abi, base);
      Setting(owner, config, frame, scope, groups, ExecutionInstance(scope, groups))
    }

    /** A token found in the table is complete: every plan has a frame and recorded destroys. */
    lemma CachedToken(key: Rows)
      requires Valid() && key in preparedByKey
      ensures TokenReady(preparedByKey[key]) && preparedByKey[key].key == key
    {
      hide DeviceRuntime.Worker.Valid, Budget.Valid, Config.Sealed, BooksBalance, LifeSound, Disciplined;
      TokenFacts(MyLife(), provider.log, key);
    }

    lemma ClosedMeansClosing()
      requires Valid()
      ensures closed ==> closing
    {
      hide DeviceRuntime.Worker.Valid, Budget.Valid, Config.Sealed, BooksBalance, LifeSound, Disciplined;
      ClosedIsClosing(MyLife(), provider.log);
    }

    /** Prepare every plan outside capture and publish one owner-bound token for the key. */
    method Prepare(base: Frame) returns (r: Result<PreparedState, RuntimeError>)
      requires Valid()
      modifies this, budget, provider, provider.worker.driver
      ensures Valid() && Follows(owner, old(Now()), Now(), ErrorOf(r))
      ensures closing == old(closing) && closed == old(closed)
      ensures old(closing) ==> r.Err? && MyBooks() == old(MyBooks()) && MyLife() == old(MyLife())
      ensures old(closing) ==> provider.worker.driver.log == old(provider.worker.driver.log)
      ensures forall k :: k in old(preparedByKey) ==> k in preparedByKey && preparedByKey[k] == old(preparedByKey)[k]
      ensures r.Ok? ==> TokenReady(r.value) && r.value.key == PrepareKey(config.abi, base)
      ensures r.Ok? ==> Identifies(r.value.key, config.abi.prepareArgs, base)
      ensures r.Ok? && r.value.key in old(preparedByKey) ==> provider.log == old(provider.log) + [Begin(owner)]
      ensures r.Ok? && r.value.key !in old(preparedByKey) ==>
                exists scope: nat ::
                  && old(provider.log) + PrepareOpening(owner, scope) <= provider.log
                  && Fresh(r.value, base, scope, |old(provider.log)|)
    {
      hide Valid, Clear, Fenced, Unfailed, Advances, Reported, TokenReady, Fresh, PrepareOpening, PrepareKey,
           Identifies;
      ghost var start := Now();
      Enter();
      ghost var before := Now();
      if !(forall n :: n in config.abi.prepareArgs ==> base.Has(n)) {
        Decline(owner, start, before, MissingResource);
        return Err(MissingResource);
      }
      var key := PrepareKey(config.abi, base);
      PrepareKeyIdentifies(config.abi, base);
      if closed || closing {
        ClosedMeansClosing();
        Decline(owner, start, before, ClosingOrClosed);
        return Err(ClosingOrClosed);
      }
      if key in preparedByKey {
        CachedToken(key);
        return Ok(preparedByKey[key]);
      }
      var capture := RequirePreCapture();
      Next(owner, start, before, Now(), ErrorOf(capture));
      if capture.Err? {
        return Err(capture.error);
      }
      before := Now();
      if |preparedByKey| >= budget.limits.maxKeys {
        Decline(owner, start, before, PreparedKeyLimit);
        return Err(PreparedKeyLimit);
      }
      var scope := CurrentScope();
      Next(owner, start, before, Now(), ErrorOf(scope));
      if scope.Err? {
        return Err(scope.error);
      }
      before := Now();
      Opened(start.log, owner, scope.value);
      r := PrepareAndPublish(base, scope.value, key);
      Next(owner, start, before, Now(), ErrorOf(r));
      LogsGrow(owner, before, Now());
      if r.Ok? {
        StillFresh(r.value, base, scope.value, |before.log|, |start.log|);
      }
    }

    /** Prepare every plan and publish the token for the key. */
    method PrepareAndPublish(base: Frame, scope: nat, key: Rows) returns (r: Result<PreparedState, RuntimeError>)
      requires Valid() && !closing && Clear(provider.log) && Fenced(provider.log) && key !in preparedByKey
      requires Unfailed(provider.log, owner) && |preparedByKey| < budget.limits.maxKeys
      modifies this`resourceFrames, this`allocatedBytes, this`allocatedKeys, this`initialized, this`destroyFrames,
               this`preparedByKey, this`preparedFrames, this`nextToken, budget, provider, provider.worker.driver
      ensures Valid() && Follows(owner, old(Now()), Now(), ErrorOf(r))
      ensures r.Err? ==> preparedByKey == old(preparedByKey)
      ensures r.Ok? ==> preparedByKey == old(preparedByKey)[key := r.value] && r.value.key == key
      ensures r.Ok? ==> TokenReady(r.value) && Fresh(r.value, base, scope, |old(provider.log)|)
    {
      hide Valid, Clear, Fenced, Unfailed, Advances, Reported, PlansRecorded, AllPrepared;
      ghost var start := Now();
      var s := PrepareSetting(base, scope, key);
      var frames := PrepareAll(s);
      if frames.Err? {
        return Err(frames.error);
      }
      ghost var built := Now();
      ReportedUnfailed(start.log, built.log, owner);
      var state := Publish(key, frames.value);
      Next(owner, start, built, Now(), None);
      AllPreparedStays(built, Now(), initialized, initialized, s, |config.plans|, |start.log|, |start.log|,
                       frames.value.byPlan);
      CachedToken(key);
      return Ok(state);
    }

    lemma StillFresh(state: PreparedState, base: Frame, scope: nat, from: nat, start: nat)
      requires Fresh(state, base, scope, from) && start <= from
      ensures Fresh(state, base, scope, start)
    {
      hide AllPrepared;
      Same(owner, Now());
      AllPreparedStays(Now(), Now(), initialized, initialized, PrepareSetting(base, scope, state.key), |config.plans|,
                       from, start, preparedFrames[state.token].byPlan);
    }

    /** Publish the token of a finished prepare. */
    method Publish(key: Rows, frames: PlanFrames) returns (state: PreparedState)
      requires Valid() && !closing && Fenced(provider.log) && Unfailed(provider.log, owner)
      requires key !in preparedByKey && |preparedByKey| < budget.limits.maxKeys
      requires PlansRecorded(destroyFrames, config.plans, |config.plans|, frames.byPlan)
      modifies this`preparedByKey, this`preparedFrames, this`nextToken, provider
      ensures Valid() && Follows(owner, old(Now()), Now(), None)
      ensures state.key == key && provider.log == old(provider.log) + [Issued(owner, state)]
      ensures preparedByKey == old(preparedByKey)[key := state]
      ensures preparedFrames == old(preparedFrames)[state.token := frames]
    {
      hide DeviceRuntime.Worker.Valid, Budget.Valid, Config.Sealed, BooksBalance, LifeSound, Disciplined, Clear,
           Fenced, PlansRecorded, Unfailed, Advances, Reported;
      ghost var start := Now();
      OpenUntilClosing(MyLife(), provider.log);
      state := PreparedState(owner, key, nextToken, nextToken);
      TokenPublished(MyLife(), provider.log, state, frames);
      provider.Record(Issued(owner, state));
      preparedFrames := preparedFrames[state.token := frames];
      preparedByKey := preparedByKey[key := state];
      nextToken := nextToken + 1;
      EventFollows(owner, start, Now(), Issued(owner, state));
    }

    /** The unique most specific plan whose specializations hold in the frame. */
    method Select(frame: Frame) returns (r: Result<Plan, RuntimeError>)
      ensures r.Ok? ==> r.value in config.plans
      ensures r.Ok? ==> exists i :: SoleBest(config.plans, frame, i) && config.plans[i] == r.value
      ensures r == Err(NoPlan) <==> forall p :: p in config.plans ==> !Matches(p, frame)
      ensures r.Err? ==> r.error in {NoPlan, AmbiguousPlan}
      ensures r == Err(AmbiguousPlan) ==>
                exists i, j :: i != j && Best(config.plans, frame, i) && Best(config.plans, frame, j)
    {
      hide Matches;
      var best: Option<nat> := None; // index of the first most specific match so far
      var rival: Option<nat> := None; // another match of the same specificity
      for k := 0 to |config.plans|
        invariant best.None? ==> rival.None? && forall j :: 0 <= j < k ==> !Matches(config.plans[j], frame)
        invariant best.Some? ==> best.value < k && Matches(config.plans[best.value], frame)
        invariant best.Some? ==> forall j :: 0 <= j < k && Matches(config.plans[j], frame) ==>
                    Specificity(config.plans[j]) <= Specificity(config.plans[best.value])
        invariant best.Some? && rival.None? ==>
                    forall j :: 0 <= j < k && j != best.value && Matches(config.plans[j], frame) ==>
                      Specificity(config.plans[j]) < Specificity(config.plans[best.value])
        invariant rival.Some? ==> best.Some? && best.value < rival.value < k
        invariant rival.Some? ==> Matches(config.plans[rival.value], frame)
        invariant rival.Some? ==> Specificity(config.plans[rival.value]) == Specificity(config.plans[best.value])
      {
        var wanted := config.plans[k].specializes.values;
        MatchesByName(config.plans[k], frame);
        if forall n :: n in wanted ==> frame.Has(n) && frame.Get(n) == wanted[n] {
          if best.None? || |wanted| > |config.plans[best.value].specializes.values| {
            best, rival := Some(k), None;
          } else if |wanted| == |config.plans[best.value].specializes.values| && rival.None? {
            rival := Some(k);
          }
        }
      }
      if best.None? {
        return Err(NoPlan);
      }
      assert config.plans[best.value] in config.plans;
      if rival.Some? {
        assert Best(config.plans, frame, best.value) && Best(config.plans, frame, rival.value);
        return Err(AmbiguousPlan);
      }
      assert SoleBest(config.plans, frame, best.value);
      return Ok(config.plans[best.value]);
    }

    /** Prepared storage of a call that carries no token, cached by what the plan reads. */
    method ImplicitFrame(plan: Plan, base: Frame, scope: nat) returns (r: Result<Frame, RuntimeError>)
      requires Valid() && !closing && plan in config.plans
      modifies this`resourceFrames, this`allocatedBytes, this`allocatedKeys, this`initialized, this`destroyFrames,
               this`implicitCache, budget, provider, provider.worker.driver
      ensures Valid() && Follows(owner, old(Now()), Now(), ErrorOf(r))
      ensures r != Err(LacksPlan)
      ensures forall k :: k in old(implicitCache) ==> k in implicitCache && implicitCache[k] == old(implicitCache)[k]
      ensures r.Ok? ==> var key := ImplicitKeyOf(config, plan, base, scope);
                        && key in implicitCache && r.value == implicitCache[key]
                        && (key in old(implicitCache) ==> Now() == old(Now()))
                        && (key !in old(implicitCache) ==>
                              PlanPrepared(Now(), initialized, ImplicitSetting(plan, base, scope), plan,
                                           |old(provider.log)|, r.value))
    {
      hide Valid, Clear, Fenced, DestroyRecorded, Advances, Reported, PlanPrepared, ImplicitNames;
      ghost var start, before := Now(), Now();
      Still(owner, start);
      if !(forall n :: n in ImplicitNames(config, plan) ==> base.Has(n)) {
        Decline(owner, start, start, MissingResource);
        return Err(MissingResource);
      }
      var key := ImplicitKeyOf(config, plan, base, scope);
      if key in implicitCache {
        assert Now() == start;
        return Ok(implicitCache[key]);
      }
      var capture := RequirePreCapture();
      if capture.Err? {
        return Err(capture.error);
      }
      before := Now();
      if |implicitCache| >= budget.limits.maxKeys {
        Decline(owner, start, before, ImplicitKeyLimit);
        return Err(ImplicitKeyLimit);
      }
      LogsGrow(owner, start, before);
      var s := ImplicitSetting(plan, base, scope);
      var frame, _ := PreparePlan(s, plan, false);
      Next(owner, start, before, Now(), ErrorOf(frame));
      if frame.Err? {
        return Err(frame.error);
      }
      Same(owner, Now());
      PlanPreparedStays(Now(), Now(), initialized, initialized, s, plan, |before.log|, |start.log|, frame.value);
      before := Now();
      CacheImplicit(key, frame.value);
      assert Now() == before;
      return Ok(frame.value);
    }

    method CacheImplicit(key: ImplicitKey, frame: Frame)
      requires Valid() && |implicitCache| < budget.limits.maxKeys
      modifies this`implicitCache
      ensures Valid() && implicitCache == old(implicitCache)[key := frame]
    {
      hide DeviceRuntime.Worker.Valid, Budget.Valid, Config.Sealed, BooksBalance, LifeSound, Disciplined;
      implicitCache := implicitCache[key := frame];
    }

    /** Take the frame a token carries for one plan.  A token that this entry did not publish is
        refused; one that it did publish always has a frame for the plan. */
    method TakeToken(plan: Plan, carried: Value) returns (r: Result<Frame, RuntimeError>)
      requires Valid() && !closing && plan in config.plans
      modifies provider
      ensures Valid() && Follows(owner, old(Now()), Now(), ErrorOf(r))
      ensures r.Err? ==> r.error == ForeignToken
      ensures r.Ok? <==> carried.Token? && carried.state.owner == owner && carried.state.key in preparedByKey &&
                         preparedByKey[carried.state.key] == carried.state
      ensures r.Ok? ==> Accepted(owner, carried.state) in provider.log
      ensures r.Ok? ==>
                carried.state.token in preparedFrames && plan.name in preparedFrames[carried.state.token].byPlan &&
                        r.value == preparedFrames[carried.state.token].byPlan[plan.name]
    {
      hide Valid, Follows, PlansRecorded;
      Still(owner, Now());
      Decline(owner, Now(), Now(), ForeignToken);
      if !carried.Token? {
        return Err(ForeignToken);
      }
      var state := carried.state;
      if state.owner != owner || state.key !in preparedByKey || preparedByKey[state.key] != state {
        return Err(ForeignToken);
      }
      CachedToken(state.key);
      PlanHasFrame(destroyFrames, config.plans, preparedFrames[state.token].byPlan, plan);
      if plan.name !in preparedFrames[state.token].byPlan {
        assert false;
        return Err(LacksPlan);
      }
      NoteAccepted(state);
      return Ok(preparedFrames[state.token].byPlan[plan.name]);
    }

    ghost method NoteAccepted(state: PreparedState)
      requires Valid() && !closing && TokenReady(state)
      modifies provider
      ensures Valid() && Follows(owner, old(Now()), Now(), None) && Accepted(owner, state) in provider.log
    {
      hide DeviceRuntime.Worker.Valid, Budget.Valid, Config.Sealed, BooksBalance, LifeSound, Disciplined, PlansRecorded,
           Advances, Reported;
      EventFollows(owner, Now(), Now().(log := provider.log + [Accepted(owner, state)]), Accepted(owner, state));
      OpenUntilClosing(MyLife(), provider.log);
      provider.Record(Accepted(owner, state));
      LogGrows(MyLife(), old(provider.log), provider.log);
    }

    /** One artifact call: select, gather frames, initialise, record teardown, launch. */
    method Call(base: Frame) returns (r: Result<(), RuntimeError>, ghost plan: Plan, ghost used: Frame)
      requires Valid()
      modifies this, budget, provider, provider.worker.driver
      ensures Valid() && Follows(owner, old(Now()), Now(), ErrorOf(r))
      ensures closing == old(closing) && closed == old(closed)
      ensures preparedByKey == old(preparedByKey) && preparedFrames == old(preparedFrames)
      ensures old(closing) ==> r.Err? && MyBooks() == old(MyBooks()) && MyLife() == old(MyLife())
      ensures old(closing) ==> provider.worker.driver.log == old(provider.worker.driver.log)
      ensures r != Err(LacksPlan)
      ensures r.Ok? ==>
                && (exists i :: SoleBest(config.plans, base, i) && config.plans[i] == plan)
                && exists scope: nat ::
                     && old(provider.log) + [Begin(owner), Scope(owner, Some(scope))] <= provider.log
                     && Performed(plan, base, scope, used, old(provider.worker.driver.log))
    {
      hide Valid, Clear, Fenced, Advances, Reported, SoleBest, Best, Matches, Performed, Unfailed;
      ghost var start, before := Now(), Now();
      Still(owner, start);
      plan, used := Plan("", EMPTY_FRAME, []), EMPTY_FRAME;
      var selected := Select(base);
      if selected.Err? {
        Decline(owner, start, start, selected.error);
        return Err(selected.error), plan, used;
      }
      plan := selected.value;
      Enter();
      before := Now();
      if closed || closing {
        ClosedMeansClosing();
        Decline(owner, start, before, ClosingOrClosed);
        return Err(ClosingOrClosed), plan, used;
      }
      var scope := CurrentScope();
      Next(owner, start, before, Now(), ErrorOf(scope));
      if scope.Err? {
        return Err(scope.error), plan, used;
      }
      before := Now();
      r, used := Perform(selected.value, base, scope.value);
      Next(owner, start, before, Now(), ErrorOf(r));
      LogsGrow(owner, before, Now());
    }

    /** What a call on `plan` that succeeds has done, the device having stood at `device` before it:
        teardown is recorded and init done for the frame used; the last events are the reset and run
        steps, each launched in order on that frame and returning; and the last the device saw are
        the plans of those steps, one whole plan after the other, every launch accepted. */
    ghost predicate Performed(plan: Plan, base: Frame, scope: nat, used: Frame, device: CubinProtocol.Log)
      reads this, provider, provider.worker, provider.worker.driver
    {
      && DestroyRecorded(destroyFrames, plan, used) && InitSatisfied(initialized, plan, used)
      && CallFrame(plan, base, scope, used)
      && (exists frame :: Equipped(CallSetting(base, frame, scope), config.workspace, used))
      && exists steps ::
           && Phase(plan, {Reset, Run}, steps)
           && EndsWith(provider.log, Invocations(owner, steps, used))
           && EndsWithRuns(provider.worker.runtimes, steps, device, provider.worker.driver.log)
    }

    /** A call on its selected plan: gather the frame, then launch. */
    method Perform(plan: Plan, base: Frame, scope: nat) returns (r: Result<(), RuntimeError>, ghost used: Frame)
      requires Valid() && !closing && plan in config.plans
      modifies this`resourceFrames, this`allocatedBytes, this`allocatedKeys, this`initialized, this`destroyFrames,
               this`implicitCache, budget, provider, provider.worker.driver
      ensures Valid() && Follows(owner, old(Now()), Now(), ErrorOf(r))
      ensures r != Err(LacksPlan)
      ensures r.Ok? ==> Performed(plan, base, scope, used, old(provider.worker.driver.log))
    {
      hide Valid, Clear, Fenced, DestroyRecorded, Advances, Reported, Filter, InitSatisfied, CallFrame, StepsRan,
           StoppedAt, Invocations, Phase, Equipped;
      ghost var start := Now();
      used := EMPTY_FRAME;
      var frame := GatherFrame(plan, base, scope);
      if frame.Err? {
        return Err(frame.error), used;
      }
      used := frame.value;
      CallIsEquipped(plan, base, scope, used);
      ghost var before := Now();
      WorldAdvanced(owner, start, before);
      FilterIsPhase(plan, {Reset, Run});
      var steps := Filter(plan.steps, {Reset, Run});
      var ok := LaunchAll(steps, frame.value);
      Next(owner, start, before, Now(), if ok then None else Some(StepFailed));
      if !ok {
        return Err(StepFailed), used;
      }
      assert EndsWith(provider.log, Invocations(owner, steps, used));
      return Ok(()), used;
    }

    /** Everything a call needs before it launches. */
    method GatherFrame(plan: Plan, base: Frame, scope: nat) returns (r: Result<Frame, RuntimeError>)
      requires Valid() && !closing && plan in config.plans
      modifies this`resourceFrames, this`allocatedBytes, this`allocatedKeys, this`initialized, this`destroyFrames,
               this`implicitCache, budget, provider, provider.worker.driver
      ensures Valid() && Follows(owner, old(Now()), Now(), ErrorOf(r))
      ensures r != Err(LacksPlan)
      ensures r.Ok? ==> DestroyRecorded(destroyFrames, plan, r.value) && InitSatisfied(initialized, plan, r.value)
      ensures r.Ok? ==> CallFrame(plan, base, scope, r.value)
    {
      hide Valid, Clear, Fenced, DestroyRecorded, Follows, Filter, CanShape, ShapeRows, Assembled, InitSatisfied,
           PlanPrepared, Phase, HasRole;
      FilterIsPhase(plan, {Role.Prepare});
      ghost var start, before := Now(), Now();
      Still(owner, start);
      var frame := base;
      if config.abi.prepareResult.Some? {
        if !base.Has(config.abi.prepareResult.value) {
          Decline(owner, start, start, MissingResource);
          return Err(MissingResource);
        }
        var carried := TakeToken(plan, base.Get(config.abi.prepareResult.value));
        if carried.Err? {
          return Err(carried.error);
        }
        frame := frame.Update(carried.value);
      } else if Filter(plan.steps, {Role.Prepare}) != [] || config.prepared != [] {
        var implicit := ImplicitFrame(plan, base, scope);
        if implicit.Err? {
          return Err(implicit.error);
        }
        frame := frame.Update(implicit.value);
      }
      before := Now();
      assert Carries(plan, base, scope, frame);
      r := CompleteFrame(CallSetting(base, frame, scope), plan);
      Next(owner, start, before, Now(), ErrorOf(r));
    }

    /** What a call brings along: the frame of its token, an implicit preparation, or nothing. */
    ghost predicate Carries(plan: Plan, base: Frame, scope: nat, frame: Frame)
      reads this
    {
      if config.abi.prepareResult.Some? then
        var name := config.abi.prepareResult.value;
        && base.Has(name) && base.Get(name).Token?
        && var token := base.Get(name).state.token;
           && token in preparedFrames && plan.name in preparedFrames[token].byPlan
           && frame == base.Update(preparedFrames[token].byPlan[plan.name])
      else if HasRole(plan, Role.Prepare) || config.prepared != [] then
        var key := ImplicitKeyOf(config, plan, base, scope);
        key in implicitCache && frame == base.Update(implicitCache[key])
      else frame == base
    }

    /** The frame a call launches on: what it brings along, engine state, and workspace. */
    ghost predicate CallFrame(plan: Plan, base: Frame, scope: nat, used: Frame)
      reads this
    {
      exists frame :: Carries(plan, base, scope, frame) &&
        Assembled(resourceFrames, CallSetting(base, frame, scope), plan, Workspace, used)
    }

    /** A call's frame has the engine state, where its shape is known, and the workspace. */
    lemma CallIsEquipped(plan: Plan, base: Frame, scope: nat, used: Frame)
      requires Valid() && CallFrame(plan, base, scope, used)
      ensures exists frame :: Equipped(CallSetting(base, frame, scope), config.workspace, used)
    {
      hide DeviceRuntime.Worker.Valid, Budget.Valid, Config.Sealed, LifeSound, Disciplined, BooksBalance, Assembled,
           Carries, Equipped;
      var frame :| Carries(plan, base, scope, frame) &&
        Assembled(resourceFrames, CallSetting(base, frame, scope), plan, Workspace, used);
      AssembledEquips(MyBooks(), budget.reservations, CallSetting(base, frame, scope), plan, Workspace, used);
    }

    /** Which storage is shared: workspace and state between calls in the same scope for the same
        groups, prepared storage between prepares of the same resources, implicit storage between
        calls that share the preparation; and never between these kinds. */
    lemma StorageScopes(plan: Plan, a: Frame, b: Frame, f: Frame, g: Frame, s: nat, t: nat)
      ensures var ours := s == t && SameResources(config.abi.groups, a, b);
              var x, y := CallSetting(a, f, s), CallSetting(b, g, t);
              var p := PrepareSetting(a, s, PrepareKey(config.abi, a));
              var q := PrepareSetting(b, t, PrepareKey(config.abi, b));
              var i, j := ImplicitSetting(plan, a, s), ImplicitSetting(plan, b, t);
              && (x.instance == y.instance <==> ours) && (x.State().instance == y.State().instance <==> ours)
              && (p.State().instance == y.State().instance <==> ours)
              && (i.State().instance == y.State().instance <==> ours)
              && (p.instance == q.instance <==> SameResources(config.abi.prepareArgs, a, b))
              && (i.instance == j.instance <==> s == t && SamePreparation(config, plan, a, b))
              && x.instance != y.State().instance && p.instance != y.instance && p.instance != y.State().instance
              && i.instance != y.instance && i.instance != y.State().instance && i.instance != q.instance
              && x.base == f && p.base == a && i.base == a
    {
      GroupScopesAgree(config.abi, a, b);
      PrepareKeysAgree(config.abi, a, b);
      ImplicitKeysAgree(config, plan, plan, a, b, s, t);
      hide GroupScope, PrepareKey, ImplicitKeyOf, SameResources, SamePreparation;
    }

    /** State and workspace storage, then init and teardown bookkeeping. */
    method CompleteFrame(s: Setting, plan: Plan) returns (r: Result<Frame, RuntimeError>)
      requires Valid() && !closing && plan in config.plans && Mine(s)
      modifies this`resourceFrames, this`allocatedBytes, this`allocatedKeys, this`initialized, this`destroyFrames,
               budget, provider, provider.worker.driver
      ensures Valid() && Follows(owner, old(Now()), Now(), ErrorOf(r))
      ensures r != Err(LacksPlan)
      ensures r.Ok? ==> DestroyRecorded(destroyFrames, plan, r.value) && InitSatisfied(initialized, plan, r.value)
      ensures r.Ok? ==> Assembled(resourceFrames, s, plan, Workspace, r.value)
    {
      hide Valid, Clear, Fenced, DestroyRecorded, Follows, Assembled, InitSatisfied;
      ghost var start, before := Now(), Now();
      r := AssembleFrame(s, plan, Workspace, false);
      if r.Err? {
        return;
      }
      before := Now();
      var init := EnsureInitialized(plan, r.value);
      Next(owner, start, before, Now(), ErrorOf(init));
      if init.Err? {
        return Err(init.error);
      }
      before := Now();
      var recorded := RecordDestroy(plan, r.value);
      Next(owner, start, before, Now(), ErrorOf(recorded));
      if recorded.Err? {
        return Err(recorded.error);
      }
    }

    /** Attempt every recorded destroy exactly once, in order, whatever fails. */
    method DestroyAll() returns (ok: bool, ghost answers: seq<bool>)
      requires Valid() && closing && !closed && Clear(provider.log)
      modifies provider, provider.worker.driver
      ensures Valid() && Clear(provider.log)
      ensures DeviceUsed(old(provider.worker.driver.log), provider.worker.driver.log)
      ensures |answers| == |destroyFrames| && (ok <==> false !in answers)
      ensures provider.log == old(provider.log) + RowEvents(owner, destroyFrames, answers)
      ensures ok ==> StepsRan(provider.worker.runtimes, StepsOf(destroyFrames), old(provider.worker.driver.log),
                              provider.worker.driver.log)
    {
      hide DeviceRuntime.Worker.Valid, Budget.Valid, Config.Sealed, BooksBalance, LifeSound, Disciplined, Clear, Fenced,
           NoNewMarkers, RowEvents, DeviceUsed, StepsRan;
      DestroyRowsAreDestroys();
      ok, answers := provider.LaunchRows(owner, destroyFrames);
      RowsAreNoMarkers(owner, old(provider.log), destroyFrames, answers);
      LogGrows(MyLife(), old(provider.log), provider.log);
    }

    lemma DestroyRowsAreDestroys()
      requires Valid()
      ensures forall row :: row in destroyFrames ==> row.step.role == Destroy
      ensures closing <==> !Open(provider.log, owner)
      ensures closed <==> Shut(provider.log, owner)
    {
      hide DeviceRuntime.Worker.Valid, Total, BooksBalance, Disciplined;
    }

    method BeginClosing()
      requires Valid()
      modifies this`closing, provider
      ensures Valid() && closing && provider.log == old(provider.log) + [Closing(owner)]
      ensures Clear(provider.log) == old(Clear(provider.log))
    {
      hide DeviceRuntime.Worker.Valid, Budget.Valid, Config.Sealed, BooksBalance, LifeSound, Disciplined, Clear, Fenced;
      CloseBegun(MyLife(), provider.log);
      provider.Record(Closing(owner));
      closing := true;
    }

    /** Drop everything and return every reservation. */
    method FinishClosing(ghost held: bool)
      requires Valid() && closing && !closed && Unfailed(provider.log, owner)
      requires forall row :: row in destroyFrames ==> Returned(provider.log, owner, row)
      requires held ==> Settled(provider.log, owner)
      modifies this, budget, provider
      ensures Valid() && closed && closing && implicitCache == map[]
      ensures OnlyOwner(owner, old(budget.reservations), budget.reservations)
      ensures provider.log == old(provider.log) + [if held then Released(owner) else Retired(owner)]
    {
      hide DeviceRuntime.Worker.Valid, Budget.Valid, Config.Sealed, BooksBalance, LifeSound, Disciplined, Clear,
           Fenced, Settled, Owned, OnlyOwner, Unfailed, Returned;
      DestroyRowsAreDestroys();
      OwedIsRecorded(MyLife(), provider.log);
      ghost var e := if held then Released(owner) else Retired(owner);
      CloseFinished(MyLife(), provider.log, e);
      ReleasedBooks(budget.reservations, owner, config);
      provider.Record(e);
      hide Allowed, Open, Shut;
      budget.ReleaseOwner(owner);
      Forget();
    }

    method Forget()
      modifies this
      ensures MyLife() == old(MyLife()).(closed := true, destroyRows := [],
                                         preparedByKey := map[], preparedFrames := map[])
      ensures MyBooks() == Books(owner, config, map[], 0, 0) && implicitCache == map[]
    {
      closed, destroyFrames, preparedByKey, preparedFrames := true, [], map[], map[];
      implicitCache, resourceFrames, allocatedBytes, allocatedKeys := map[], map[], 0, 0;
    }

    /** A close attempt that capture did not refuse. */
    method Dismantle() returns (ok: bool, ghost answers: seq<bool>, ghost fence: Log, ghost tail: Log)
      requires Valid() && !closed && Clear(provider.log) && Unfailed(provider.log, owner)
      modifies this, budget, provider, provider.worker.driver
      ensures Valid() && closing && (ok <==> closed)
      ensures DeviceUsed(old(provider.worker.driver.log), provider.worker.driver.log)
      ensures OnlyOwner(owner, old(budget.reservations), budget.reservations)
      ensures !ok ==> MyBooks() == old(MyBooks()) && budget.reservations == old(budget.reservations)
      ensures !ok ==> MyLife() == old(MyLife()).(closing := true)
      ensures provider.log == old(provider.log) + [Closing(owner)] + fence + tail
      ensures CloseEvents(owner, old(resourceFrames) != map[] || old(destroyFrames) != [],
                          old(destroyFrames), answers, fence, tail, ok)
      ensures ok ==> DestroyedOn(provider.worker.runtimes, StepsOf(old(destroyFrames)),
                                 old(provider.worker.driver.log) + FencesOf(fence), provider.worker.driver.log)
    {
      hide Valid, Clear, Fenced, Settled, NoNewMarkers, Advances, Reported, DeviceUsed, OnlyOwner, RowEvents, Unfailed,
           Returned, DestroyedOn;
      NothingUsed(provider.worker.driver.log);
      NothingTaken(owner, budget.reservations);
      UnfailedStays(provider.log, [Closing(owner)], owner);
      BeginClosing();
      var held := resourceFrames != map[] || destroyFrames != [];
      answers, fence, tail, ok := [], [], [], true;
      if held {
        UnfailedStays(provider.log, [Sync(owner, true)], owner);
        ok := Synchronize();
        fence := [Sync(owner, ok)];
      }
      if ok {
        ghost var used := provider.worker.driver.log;
        assert used == old(provider.worker.driver.log) + FencesOf(fence);
        ok, answers, tail := TearDown();
        UsedThen(old(provider.worker.driver.log), used, provider.worker.driver.log);
      }
      if ok {
        FinishClosing(held);
        tail := tail + [if held then Released(owner) else Retired(owner)];
      }
    }

    /** Fail-closed, retryable teardown.  A failed attempt keeps every frame, destroy row and
        reservation; a refused one changes nothing at all. */
    method Close()
      returns (r: Result<(), RuntimeError>, ghost answers: seq<bool>, ghost fence: Log, ghost tail: Log)
      requires Valid()
      modifies this, budget, provider, provider.worker.driver
      ensures Valid()
      ensures OnlyOwner(owner, old(budget.reservations), budget.reservations)
      ensures Extends(owner, old(provider.log), provider.log)
      ensures DeviceUsed(old(provider.worker.driver.log), provider.worker.driver.log)
      ensures r.Ok? <==> closed
      ensures closed ==> resourceFrames == map[] && forall id :: id in budget.reservations ==> id.owner != owner
      ensures !closed ==> MyBooks() == old(MyBooks()) && budget.reservations == old(budget.reservations)
      ensures !closed ==> MyLife() == old(MyLife()).(closing := closing)
      ensures r.Err? ==> r.error in {Capturing, CaptureQueryFailed, DestroyFailed}
      ensures r.Err? && r.error != DestroyFailed ==>
                && closing == old(closing)
                && provider.log == old(provider.log) + [Begin(owner), Query(owner, CaptureAnswer(r))]
      ensures r == Err(DestroyFailed) ==> closing
      ensures old(closed) ==> provider.log == old(provider.log) + [Begin(owner)]
      ensures !old(closed) && (r.Ok? || r.error == DestroyFailed) ==>
                && provider.log == old(provider.log) + CloseOpening(owner) + fence + tail
                && CloseEvents(owner, old(resourceFrames) != map[] || old(destroyFrames) != [], old(destroyFrames),
                               answers, fence, tail, r.Ok?)
      ensures !old(closed) && r.Ok? ==>
                DestroyedOn(provider.worker.runtimes, StepsOf(old(destroyFrames)),
                            old(provider.worker.driver.log) + FencesOf(fence), provider.worker.driver.log)
    {
      hide Valid, Clear, Fenced, Settled, CloseEvents, DeviceUsed, Advances, Reported, Extends, OnlyOwner, Unfailed,
           DestroyedOn, FencesOf, StepsOf, CloseOpening;
      ghost var start := Now();
      answers, fence, tail := [], [], [];
      Enter();
      ClosedHoldsNothing();
      WorldAdvanced(owner, start, Now());
      if closed {
        return Ok(()), answers, fence, tail;
      }
      ghost var entered := Now();
      var capture := RequirePreCapture();
      Then(owner, start, entered, Now());
      WorldAdvanced(owner, start, Now());
      if capture.Err? {
        return Err(capture.error), answers, fence, tail;
      }
      ghost var rows := destroyFrames;
      ghost var held := resourceFrames != map[] || rows != [];
      UnfailedStays(entered.log, [Query(owner, Some(false))], owner);
      var ok;
      ok, answers, fence, tail := Dismantle();
      CloseEventsAreMine(owner, held, rows, answers, fence, tail, ok);
      CloseOpened(start.log, owner, fence, tail);
      if !ok {
        return Err(DestroyFailed), answers, fence, tail;
      }
      ClosedHoldsNothing();
      return Ok(()), answers, fence, tail;
    }

    /** Past the first fence: every destroy, then a second fence if all of them returned. */
    method TearDown() returns (ok: bool, ghost answers: seq<bool>, ghost tail: Log)
      requires Valid() && closing && !closed && Clear(provider.log) && Unfailed(provider.log, owner)
      modifies provider, provider.worker.driver
      ensures Valid() && provider.log == old(provider.log) + tail
      ensures DeviceUsed(old(provider.worker.driver.log), provider.worker.driver.log)
      ensures |answers| == |destroyFrames| && (ok ==> false !in answers) && (destroyFrames == [] ==> ok)
      ensures tail == RowEvents(owner, destroyFrames, answers) +
                      (if destroyFrames != [] && false !in answers then [Sync(owner, ok)] else [])
      ensures ok ==> Unfailed(provider.log, owner)
      ensures ok ==> forall row :: row in destroyFrames ==> Returned(provider.log, owner, row)
      ensures ok && old(Settled(provider.log, owner)) ==> Settled(provider.log, owner)
      ensures ok ==> DestroyedOn(provider.worker.runtimes, StepsOf(destroyFrames), old(provider.worker.driver.log),
                                 provider.worker.driver.log)
    {
      hide Valid, Clear, Fenced, Settled, Advances, Reported, DeviceUsed, RowEvents, Unfailed, Returned, StepsRan;
      ok, answers := DestroyAll();
      tail := RowEvents(owner, destroyFrames, answers);
      if ok {
        RoundReturned(old(provider.log), owner, destroyFrames, answers);
        if destroyFrames != [] {
          ghost var used, before := provider.worker.driver.log, provider.log;
          ok := Synchronize();
          UsedThen(old(provider.worker.driver.log), used, provider.worker.driver.log);
          tail := tail + [Sync(owner, ok)];
          if ok {
            FencePasses(before, owner, destroyFrames);
          }
        }
      }
    }

    lemma ClosedHoldsNothing()
      requires Valid()
      ensures closed ==> resourceFrames == map[] && forall id :: id in budget.reservations ==> id.owner != owner
    {
      hide DeviceRuntime.Worker.Valid, Total, LifeSound, Disciplined;
      if closed {
        NoFramesNoReservations(MyBooks(), budget.reservations);
      }
    }
  }
}
