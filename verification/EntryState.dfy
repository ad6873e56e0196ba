/** The state of one artifact entry, over values: frames, lifecycle tables and books, the invariant
    that joins them to the shared ledger and the run, and how each transition keeps it. */
module EntryState {
  import opened Outcome
  import opened Shapes
  import opened AllocationBudget
  import opened RuntimeLog
  import opened Selection
  import CubinProtocol
  import DeviceRuntime

  datatype Prefix = Workspace | Prepared | EngineState

  datatype InstanceKey =
    | StateInstance(scope: nat, groups: Rows)
    | ExecutionInstance(scope: nat, groups: Rows)
    | PreparedInstance(rows: Rows)
    | ImplicitInstance(implicit: ImplicitKey)

  datatype ImplicitKey = ImplicitKey(plan: string, scope: nat, rows: Rows)

  /** Shapes are listed in declaration order of the prefix. */
  datatype CacheKey = CacheKey(plan: string, prefix: Prefix, instance: InstanceKey, shapes: seq<seq<int>>)

  /** The call ABI facts the lifecycle reads. */
  datatype Abi = Abi(
    names: set<string>, groups: set<string>, streams: set<string>,
    prepareArgs: set<string>, prepareResult: Option<string>)

  datatype Config = Config(
    abi: Abi, plans: seq<Plan>, workspace: seq<Resource>, prepared: seq<Resource>, state: seq<Resource>)
  {
    function Declared(prefix: Prefix): seq<Resource> {
      match prefix
      case Workspace => workspace
      case Prepared => prepared
      case EngineState => state
    }

    /** What entry construction has validated. */
    ghost predicate Sealed() {
      && (forall p :: DeclarationsSealed(Declared(p)))
      && (forall i, j :: 0 <= i < j < |plans| ==> plans[i].name != plans[j].name)
      && (forall p :: p in plans ==> DistinctNumbers(p.steps))
    }
  }

  predicate DistinctNumbers(steps: seq<Step>) {
    forall i, j :: 0 <= i < j < |steps| ==> steps[i].number != steps[j].number
  }

  lemma SealedDeclarations(config: Config, prefix: Prefix)
    requires config.Sealed()
    ensures DeclarationsSealed(config.Declared(prefix))
  {
  }

  ghost predicate DeclarationsSealed(declarations: seq<Resource>) {
    && (forall r :: r in declarations ==> r.Sealed())
    && (forall i, j :: 0 <= i < j < |declarations| ==> declarations[i].name != declarations[j].name)
  }

  datatype RuntimeError =
    | ClosingOrClosed | Capturing | CaptureQueryFailed | ScopeFailed | MissingResource
    | Shape(shape: ShapeError) | ShapeUnavailable
    | EntryKeyLimit | EntryByteLimit | Reservation(budget: BudgetError) | AllocationFailed
    | PreparedKeyLimit | ImplicitKeyLimit | StepFailed | SyncFailed
    | ForeignToken | LacksPlan | NoPlan | AmbiguousPlan | DestroyFailed

  /** The frames one prepare built, by plan name. */
  datatype PlanFrames = PlanFrames(byPlan: map<string, Frame>)

  // ---- Pure parts ----

  /** The bounded identity used in lifecycle keys: tensors compare by storage, not by object. */
  function IdentityOf(v: Value): Value {
    if v.Tensor? then Tensor(v.pointer, v.dims, v.layout, 0) else v
  }

  /** The same resource: for tensors the same memory in the same shape and layout, whatever the
      object; otherwise the same value. */
  ghost predicate SameResource(v: Value, w: Value) {
    if v.Tensor? && w.Tensor? then v.pointer == w.pointer && v.dims == w.dims && v.layout == w.layout else v == w
  }

  /** The frames hold the same resources under these names. */
  ghost predicate SameResources(names: set<string>, a: Frame, b: Frame) {
    forall n :: n in names ==>
      (n in a.values <==> n in b.values) && (n in a.values ==> SameResource(a.values[n], b.values[n]))
  }

  /** Identities are equal exactly for the same resource. */
  lemma IdentityIsResource(v: Value, w: Value)
    ensures IdentityOf(v) == IdentityOf(w) <==> SameResource(v, w)
    ensures SameResource(IdentityOf(v), v)
  {
  }

  function GroupScope(abi: Abi, frame: Frame): Rows {
    Frame(map n | n in abi.groups && frame.Has(n) :: IdentityOf(frame.Get(n)))
  }

  /** The steps of one phase. */
  function Filter(steps: seq<Step>, roles: set<Role>): (r: seq<Step>)
    ensures forall s :: s in r <==> s in steps && s.role in roles
  {
    if steps == [] then []
    else
      var n := |steps| - 1;
      Filter(steps[..n], roles) + if steps[n].role in roles then [steps[n]] else []
  }

  /** The steps of a plan with these roles: exactly those, in plan order. */
  ghost predicate Phase(plan: Plan, roles: set<Role>, steps: seq<Step>) {
    Selects(plan.steps, Positions(plan.steps, roles), steps)
  }

  ghost function Positions(steps: seq<Step>, roles: set<Role>): set<nat> {
    set i: nat | i < |steps| && steps[i].role in roles
  }

  ghost predicate HasRole(plan: Plan, role: Role) {
    exists i :: 0 <= i < |plan.steps| && plan.steps[i].role == role
  }

  /** The resources that the steps of one role read. */
  ghost function ReadBy(plan: Plan, role: Role): set<string> {
    set i, n | 0 <= i < |plan.steps| && plan.steps[i].role == role && n in plan.steps[i].resources :: n
  }

  lemma {:induction false} FilterSelects(steps: seq<Step>, roles: set<Role>)
    ensures Selects(steps, Positions(steps, roles), Filter(steps, roles))
  {
    if steps == [] {
      SelectsNothing<Step>(Positions(steps, roles));
    } else {
      hide Selects;
      var n := |steps| - 1;
      var front := steps[..n];
      FilterSelects(front, roles);
      assert front + [steps[n]] == steps;
      var keep := steps[n].role in roles;
      assert Positions(steps, roles) ==
             if keep then Positions(front, roles) + {n} else Positions(front, roles);
      SelectsOneMore(front, Positions(front, roles), Filter(front, roles), steps[n], keep, Positions(steps, roles));
    }
  }

  /** What the program computes for one role. */
  lemma FilterIsPhase(plan: Plan, roles: set<Role>)
    ensures Phase(plan, roles, Filter(plan.steps, roles))
    ensures forall role :: roles == {role} ==>
              && (Filter(plan.steps, roles) != [] <==> HasRole(plan, role))
              && ResourceNames(Filter(plan.steps, roles)) == ReadBy(plan, role)
  {
    FilterSelects(plan.steps, roles);
    var steps := Filter(plan.steps, roles);
    forall role | roles == {role}
      ensures steps != [] <==> HasRole(plan, role)
      ensures ResourceNames(steps) == ReadBy(plan, role)
    {
      if steps != [] {
        assert steps[0] in plan.steps;
      }
      forall i | 0 <= i < |plan.steps| && plan.steps[i].role == role
        ensures plan.steps[i] in steps
      {
      }
      forall n | n in ResourceNames(steps)
        ensures n in ReadBy(plan, role)
      {
        var s :| s in steps && n in s.resources;
        var i :| 0 <= i < |plan.steps| && plan.steps[i] == s;
      }
    }
  }

  /** The device fences that lifecycle fences are. */
  ghost function FencesOf(fence: Log): CubinProtocol.Log {
    seq(|fence|, i requires 0 <= i < |fence| => CubinProtocol.Fence(fence[i].Sync? && fence[i].ok))
  }

  /** The device saw the plans of the destroy steps, one whole plan after the other, and then a
      fence if there were any. */
  ghost predicate DestroyedOn(runtimes: seq<DeviceRuntime.Runtime>, steps: seq<Step>, before: CubinProtocol.Log,
                              after: CubinProtocol.Log) {
    exists middle :: StepsRan(runtimes, steps, before, middle) &&
      after == middle + (if steps == [] then [] else [CubinProtocol.Fence(true)])
  }

  /** The device saw launches and fences, and then the plans of `steps`, one after the other. */
  ghost predicate EndsWithRuns(runtimes: seq<DeviceRuntime.Runtime>, steps: seq<Step>, before: CubinProtocol.Log,
                               after: CubinProtocol.Log) {
    exists middle :: DeviceUsed(before, middle) && StepsRan(runtimes, steps, middle, after)
  }

  ghost predicate EndsWith(log: Log, suffix: Log) {
    |suffix| <= |log| && log[|log| - |suffix|..] == suffix
  }

  /** Every specialization of the plan holds in the frame. */
  ghost predicate Matches(plan: Plan, frame: Frame) {
    plan.specializes.values.Items <= frame.values.Items
  }

  lemma MatchesByName(plan: Plan, frame: Frame)
    ensures Matches(plan, frame) <==>
              forall n :: n in plan.specializes.values ==> frame.Has(n) && frame.Get(n) == plan.specializes.values[n]
  {
    var wanted, live := plan.specializes.values, frame.values;
    if wanted.Items <= live.Items {
      forall n | n in wanted
        ensures n in live && live[n] == wanted[n]
      {
        assert (n, wanted[n]) in wanted.Items;
      }
    }
  }

  /** How many specializations a plan has. */
  ghost function Specificity(plan: Plan): nat {
    |plan.specializes.values|
  }

  /** Plan `i` matches, and no matching plan is more specific. */
  ghost predicate Best(plans: seq<Plan>, frame: Frame, i: int) {
    && 0 <= i < |plans| && Matches(plans[i], frame)
    && forall j :: 0 <= j < |plans| && Matches(plans[j], frame) ==> Specificity(plans[j]) <= Specificity(plans[i])
  }

  /** Plan `i` matches, and every other matching plan is less specific. */
  ghost predicate SoleBest(plans: seq<Plan>, frame: Frame, i: int) {
    && 0 <= i < |plans| && Matches(plans[i], frame)
    && forall j :: 0 <= j < |plans| && j != i && Matches(plans[j], frame) ==>
              Specificity(plans[j]) < Specificity(plans[i])
  }

  function ResourceNames(steps: seq<Step>): set<string> {
    set s, n | s in steps && n in s.resources :: n
  }

  predicate CanShape(declarations: seq<Resource>, frame: Frame) {
    forall r, e, f :: r in declarations && e in r.shape && f in e.factors ==> f.Static? || frame.Has(f.source)
  }

  function Sources(declarations: seq<Resource>): set<string> {
    set r, e, f | r in declarations && e in r.shape && f in e.factors && f.Dynamic? :: f.source
  }

  function ShapeRows(declarations: seq<Resource>, frame: Frame): Result<seq<seq<int>>, ShapeError> {
    if declarations == [] then Ok([]) else
    match ShapeRows(declarations[..|declarations| - 1], frame)
    case Err(e) => Err(e)
    case Ok(rows) =>
      match LiveDims(declarations[|declarations| - 1].shape, frame)
      case Err(e) => Err(e)
      case Ok(dims) => Ok(rows + [dims])
  }

  /** The bytes one frame retains: the backing buffer of each declared tensor. */
  ghost function CostBytes(declarations: seq<Resource>, shapes: seq<seq<int>>): int
    requires |declarations| == |shapes|
  {
    if declarations == [] then 0
    else
      var n := |declarations| - 1;
      CostBytes(declarations[..n], shapes[..n]) +
      BackingBytes(shapes[n], declarations[n].width, declarations[n].alignment)
  }

  /** The bytes an entry asks the budget for, summed the way the runtime sums them. */
  function RequestedBytes(declarations: seq<Resource>, shapes: seq<seq<int>>): int
    requires |declarations| == |shapes| && forall r :: r in declarations ==> r.Sealed()
  {
    if declarations == [] then 0
    else
      var n := |declarations| - 1;
      assert declarations[n].Sealed();
      RequestedBytes(declarations[..n], shapes[..n]) + ReservationBytes(declarations[n], shapes[n])
  }

  /** What is requested is what the allocator will retain. */
  lemma {:induction false} RequestIsCost(declarations: seq<Resource>, shapes: seq<seq<int>>)
    requires |declarations| == |shapes|
    requires forall r :: r in declarations ==> r.Sealed()
    requires forall d :: d in shapes ==> Prod(d) >= 0
    ensures CostBytes(declarations, shapes) == RequestedBytes(declarations, shapes) >= 0
  {
    if declarations != [] {
      var n := |declarations| - 1;
      assert declarations[n].Sealed() && shapes[n] in shapes;
      RequestIsCost(declarations[..n], shapes[..n]);
      ChargeCoversAlignedView(declarations[n], shapes[n], 0);
    }
  }

  lemma {:induction false} ShapeRowsError(declarations: seq<Resource>, k: nat, frame: Frame)
    requires k <= |declarations| && ShapeRows(declarations[..k], frame).Err?
    ensures ShapeRows(declarations, frame) == ShapeRows(declarations[..k], frame)
    decreases |declarations| - k
  {
    if k == |declarations| {
      assert declarations[..k] == declarations;
    } else {
      assert declarations[..k + 1][..k] == declarations[..k];
      ShapeRowsError(declarations, k + 1, frame);
    }
  }

  ghost function Names(declarations: seq<Resource>): set<string> {
    set r | r in declarations :: r.name
  }

  /** A cached frame holds exactly the declared tensors, at the sealed shape and alignment. */
  ghost predicate FrameFits(declarations: seq<Resource>, shapes: seq<seq<int>>, frame: Frame) {
    && |shapes| == |declarations|
    && frame.values.Keys == Names(declarations)
    && forall i :: 0 <= i < |declarations| ==>
         Fits(declarations[i], shapes[i], frame)
  }

  predicate Holds(frame: Frame, declarations: seq<Resource>) {
    forall i :: 0 <= i < |declarations| ==> frame.Has(declarations[i].name)
  }

  /** One allocation per declared tensor, in declaration order: what was asked for, the tensor of
      the frame as the answer, and the provider's approval of that tensor. */
  ghost function AllocEvents(owner: nat, declarations: seq<Resource>, shapes: seq<seq<int>>, frame: Frame): Log
    requires |shapes| == |declarations| && Holds(frame, declarations)
  {
    if declarations == [] then [] else
    var n := |declarations| - 1;
    var d, tensor := declarations[n], frame.Get(declarations[n].name);
    AllocEvents(owner, declarations[..n], shapes[..n], frame) +
    [Alloc(owner, shapes[n], d.width, d.alignment, Some(tensor)), Vetted(owner, tensor, true)]
  }

  /** A tensor under a new name leaves the earlier events as they were. */
  lemma {:induction false} AllocsStay(owner: nat, declarations: seq<Resource>, shapes: seq<seq<int>>, frame: Frame,
                                      name: string, v: Value)
    requires |shapes| == |declarations| && Holds(frame, declarations)
    requires forall i :: 0 <= i < |declarations| ==> declarations[i].name != name
    ensures Holds(frame.With(name, v), declarations)
    ensures AllocEvents(owner, declarations, shapes, frame.With(name, v)) ==
            AllocEvents(owner, declarations, shapes, frame)
  {
    if declarations != [] {
      var n := |declarations| - 1;
      AllocsStay(owner, declarations[..n], shapes[..n], frame, name, v);
    }
  }

  lemma MoreAllocs(owner: nat, declarations: seq<Resource>, shapes: seq<seq<int>>, i: nat, frame: Frame, v: Value)
    requires |shapes| == |declarations| && i < |declarations| && Holds(frame, declarations[..i])
    requires forall j, k :: 0 <= j < k < |declarations| ==> declarations[j].name != declarations[k].name
    ensures var d := declarations[i];
            && Holds(frame.With(d.name, v), declarations[..i + 1])
            && AllocEvents(owner, declarations[..i + 1], shapes[..i + 1], frame.With(d.name, v)) ==
               AllocEvents(owner, declarations[..i], shapes[..i], frame) +
                 [Alloc(owner, shapes[i], d.width, d.alignment, Some(v)), Vetted(owner, v, true)]
  {
    assert declarations[..i + 1][..i] == declarations[..i] && shapes[..i + 1][..i] == shapes[..i];
    AllocsStay(owner, declarations[..i], shapes[..i], frame, declarations[i].name, v);
  }

  lemma NoAllocs(owner: nat, log: Log)
    ensures AllocEvents(owner, [], [], EMPTY_FRAME) == [] && FrameFits([], [], EMPTY_FRAME)
    ensures Extends(owner, log, log) && NoNewMarkers(log, log)
  {
  }

  lemma FitsStep(declarations: seq<Resource>, shapes: seq<seq<int>>, i: nat, frame: Frame, v: Value)
    requires |shapes| == |declarations| && i < |declarations|
    requires forall j, k :: 0 <= j < k < |declarations| ==> declarations[j].name != declarations[k].name
    requires FrameFits(declarations[..i], shapes[..i], frame)
    requires v.Tensor? && v.dims == shapes[i] &&
             declarations[i].alignment > 0 && v.pointer % declarations[i].alignment == 0
    ensures FrameFits(declarations[..i + 1], shapes[..i + 1], frame.With(declarations[i].name, v))
  {
    NamesStep(declarations, i);
    hide Names;
    var d, next := declarations[i], frame.With(declarations[i].name, v);
    var some, dims := declarations[..i + 1], shapes[..i + 1];
    forall k | 0 <= k < |some|
      ensures Fits(some[k], dims[k], next)
    {
      if k < i {
        assert Fits(declarations[..i][k], shapes[..i][k], frame);
        assert declarations[k].name != d.name;
      }
    }
  }

  lemma NamesStep(declarations: seq<Resource>, i: nat)
    requires i < |declarations|
    ensures Names(declarations[..i + 1]) == Names(declarations[..i]) + {declarations[i].name}
  {
    assert declarations[..i + 1] == declarations[..i] + [declarations[i]];
  }

  lemma SealedAlignment(r: Resource)
    requires r.Sealed()
    ensures r.alignment > 0
  {
  }

  ghost predicate Fits(r: Resource, dims: seq<int>, frame: Frame) {
    && frame.Has(r.name) && frame.Get(r.name).Tensor? && frame.Get(r.name).dims == dims
    && r.alignment > 0 && frame.Get(r.name).pointer % r.alignment == 0
  }

  ghost predicate MarksMatch(key: LifecycleKey, names: set<string>, frame: Frame) {
    && key.rows.values.Keys == names
    && forall n :: n in names ==>
         if frame.Has(n) then key.rows.values[n] == Live(IdentityOf(frame.Get(n)))
         else key.rows.values[n].CurrentStream?
  }

  /** The init steps of a plan have run for the resources of `frame`. */
  ghost predicate InitSatisfied(initialized: set<LifecycleKey>, plan: Plan, frame: Frame) {
    HasRole(plan, Init) ==> exists k :: k in initialized && InitKey(k, plan, frame)
  }

  ghost predicate InitKey(k: LifecycleKey, plan: Plan, frame: Frame) {
    k.plan == plan.name && k.role == Init && MarksMatch(k, ReadBy(plan, Init), frame)
  }

  /** One initialisation: the scopes its key mentions, a clear capture query, every init step in
      order, each returning, and only then the key. */
  ghost predicate InitRan(log: Log, log': Log, owner: nat, plan: Plan, frame: Frame, key: LifecycleKey) {
    && InitKey(key, plan, frame)
    && exists asked, steps ::
         && Asked(asked, owner) && Phase(plan, {Init}, steps)
         && log' == log + asked + InitEvents(owner, steps, frame, key)
  }

  ghost function InitEvents(owner: nat, steps: seq<Step>, frame: Frame, key: LifecycleKey): Log {
    [Query(owner, Some(false))] + Invocations(owner, steps, frame) + [InitDone(owner, key)]
  }

  lemma InitHappened(log: Log, asked: Log, log': Log, owner: nat, plan: Plan, steps: seq<Step>, frame: Frame,
                     key: LifecycleKey)
    requires InitKey(key, plan, frame) && Asked(asked, owner) && Phase(plan, {Init}, steps)
    requires log' == log + asked + [Query(owner, Some(false))] + Invocations(owner, steps, frame) +
                       [InitDone(owner, key)]
    ensures InitRan(log, log', owner, plan, frame, key)
  {
    hide InitKey, Phase, Asked, Invocations;
    assert log' == log + asked + InitEvents(owner, steps, frame, key);
  }

  /** Scope queries that were answered. */
  ghost predicate Asked(events: Log, owner: nat) {
    forall e :: e in events ==> e.Scope? && e.owner == owner && e.scope.Some?
  }

  lemma NothingAsked(owner: nat)
    ensures Asked([], owner)
  {
  }

  /** A resource is marked by its identity, and a stream the frame does not name by a scope that the
      provider answered meanwhile. */
  ghost predicate MarkSound(m: Mark, name: string, frame: Frame, owner: nat, asked: Log) {
    if frame.Has(name) then m == Live(IdentityOf(frame.Get(name)))
    else m.CurrentStream? && Scope(owner, Some(m.scope)) in asked
  }

  ghost predicate MarksSound(rows: map<string, Mark>, frame: Frame, owner: nat, asked: Log) {
    forall n :: n in rows ==> MarkSound(rows[n], n, frame, owner, asked)
  }

  /** All names but those in `todo` are marked. */
  ghost predicate Marking(names: set<string>, todo: set<string>, rows: map<string, Mark>) {
    todo <= names && rows.Keys == names - todo
  }

  lemma NoMarks(names: set<string>, frame: Frame, owner: nat)
    ensures Marking(names, names, map[]) && MarksSound(map[], frame, owner, []) && Asked([], owner)
  {
  }

  lemma OneMoreMark(names: set<string>, todo: set<string>, rows: map<string, Mark>, name: string, m: Mark, frame: Frame,
                    owner: nat, asked: Log, more: Log)
    requires Marking(names, todo, rows) && name in todo
    requires MarksSound(rows, frame, owner, asked) && MarkSound(m, name, frame, owner, more)
    requires Asked(asked, owner) && Asked(more, owner)
    ensures Marking(names, todo - {name}, rows[name := m])
    ensures MarksSound(rows[name := m], frame, owner, asked + more) && Asked(asked + more, owner)
  {
  }

  lemma SoundMarksMatch(key: LifecycleKey, names: set<string>, frame: Frame, owner: nat, asked: Log)
    requires Marking(names, {}, key.rows.values) && MarksSound(key.rows.values, frame, owner, asked)
    ensures MarksMatch(key, names, frame)
  {
    forall n | n in names
      ensures MarkSound(key.rows.values[n], n, frame, owner, asked)
    {
    }
  }

  // ---- What a foreign answer forces ----

  /** The tensor is one the entry may use for the request. */
  predicate Suits(given: Option<Value>, dims: seq<int>, alignment: int) {
    && given.Some? && given.value.Tensor? && given.value.dims == dims
    && alignment > 0 && given.value.pointer % alignment == 0
  }

  /** The error an answer forces on the method that received it. */
  function Blame(e: Event): Option<RuntimeError> {
    match e
    case Query(_, answer) =>
      if answer == Some(false) then None else Some(if answer.None? then CaptureQueryFailed else Capturing)
    case Scope(_, scope) => if scope.Some? then None else Some(ScopeFailed)
    case Alloc(_, dims, _, alignment, given) => if Suits(given, dims, alignment) then None else Some(AllocationFailed)
    case Vetted(_, _, ok) => if ok then None else Some(AllocationFailed)
    case Invoke(_, _, _, ok) => if ok then None else Some(StepFailed)
    case Sync(_, ok) => if ok then None else Some(SyncFailed)
    case _ => None
  }

  /** Errors that nothing but an answer causes. */
  predicate Foreign(e: RuntimeError) {
    e in {CaptureQueryFailed, Capturing, ScopeFailed, AllocationFailed, StepFailed, SyncFailed}
  }

  function ErrorOf<T>(r: Result<T, RuntimeError>): Option<RuntimeError> {
    match r
    case Ok(_) => None
    case Err(e) => Some(e)
  }

  /** The capture answer that a pre-capture check's result tells of. */
  function CaptureAnswer(r: Result<(), RuntimeError>): Option<bool> {
    match r
    case Ok(_) => Some(false)
    case Err(e) => if e == Capturing then Some(true) else None
  }

  /** The outcome is what the answers force: the first bad answer ends the operation with its
      error, and without one there is no such error. */
  ghost predicate Reported(log: Log, log': Log, outcome: Option<RuntimeError>) {
    && log <= log'
    && (forall i :: |log| <= i < |log'| - 1 ==> Blame(log'[i]).None?)
    && if |log| < |log'| && Blame(Last(log')).Some? then outcome == Blame(Last(log'))
       else outcome.None? || !Foreign(outcome.value)
  }

  /** The outcome of allocating. */
  function AllocationOutcome(ok: bool): Option<RuntimeError> {
    if ok then None else Some(AllocationFailed)
  }

  lemma NothingReported(log: Log, e: RuntimeError)
    ensures Reported(log, log, None) && (!Foreign(e) ==> Reported(log, log, Some(e)))
  {
  }

  lemma ReportedThen(a: Log, b: Log, c: Log, outcome: Option<RuntimeError>)
    requires Reported(a, b, None) && Reported(b, c, outcome)
    ensures Reported(a, c, outcome)
  {
    hide Blame, Foreign;
    assert forall i :: |a| <= i < |b| ==> c[i] == b[i];
  }

  /** One more stretch of `owner`'s events without lifecycle markers. */
  lemma LogThen(owner: nat, a: Log, b: Log, c: Log, outcome: Option<RuntimeError>)
    requires Extends(owner, a, b) && NoNewMarkers(a, b) && Reported(a, b, None)
    requires Extends(owner, b, c) && NoNewMarkers(b, c) && Reported(b, c, outcome)
    ensures Extends(owner, a, c) && NoNewMarkers(a, c) && Reported(a, c, outcome)
    ensures Open(b, owner) ==> Open(c, owner)
  {
    hide Reported;
    ReportedThen(a, b, c, outcome);
    assert forall i :: |a| <= i < |b| ==> c[i] == b[i];
  }

  /** A method that reports nothing stays unfailed. */
  lemma ReportedUnfailed(log: Log, log': Log, owner: nat)
    requires Reported(log, log', None) && Unfailed(log, owner)
    ensures Unfailed(log', owner)
  {
    hide Unfailed;
    var events := log'[|log|..];
    assert log' == log + events;
    forall e | e in events
      ensures !Failed(e)
    {
      var i :| 0 <= i < |events| && events[i] == e;
      assert e == log'[|log| + i];
    }
    UnfailedStays(log, events, owner);
  }

  ghost predicate Records(row: DestroyRow, plan: Plan, step: Step, frame: Frame) {
    && row.step == step && row.name == step.name && row.number == step.number
    && row.key.plan == plan.name && row.key.role == Destroy
    && MarksMatch(row.key, step.resources, row.frame) && MarksMatch(row.key, step.resources, frame)
  }

  /** A row belongs to a destroy step of one of the plans, on the frame its key describes. */
  ghost predicate RowSound(row: DestroyRow, plans: seq<Plan>) {
    row.step.role == Destroy && exists p :: p in plans && row.step in p.steps && Records(row, p, row.step, row.frame)
  }

  /** Rows with the same key are of the same step. */
  lemma SameRow(row: DestroyRow, plans: seq<Plan>, plan: Plan, step: Step, frame: Frame)
    requires RowSound(row, plans) && plan in plans && step in plan.steps
    requires forall i, j :: 0 <= i < j < |plans| ==> plans[i].name != plans[j].name
    requires DistinctNumbers(plan.steps)
    requires row.name == step.name && row.number == step.number && row.key.plan == plan.name
    requires MarksMatch(row.key, step.resources, frame)
    ensures Records(row, plan, step, frame)
  {
    var p :| p in plans && row.step in p.steps && Records(row, p, row.step, row.frame);
    var i :| 0 <= i < |plans| && plans[i] == p;
    var j :| 0 <= j < |plans| && plans[j] == plan;
    assert i == j;
    var a :| 0 <= a < |plan.steps| && plan.steps[a] == row.step;
    var b :| 0 <= b < |plan.steps| && plan.steps[b] == step;
    assert a == b;
  }

  ghost predicate StepRecorded(rows: seq<DestroyRow>, plan: Plan, step: Step, frame: Frame) {
    exists i :: 0 <= i < |rows| && Records(rows[i], plan, step, frame)
  }

  /** Every destroy step of `plan` is recorded for the resources of `frame`. */
  ghost predicate DestroyRecorded(rows: seq<DestroyRow>, plan: Plan, frame: Frame) {
    forall s :: s in plan.steps && s.role == Destroy ==> StepRecorded(rows, plan, s, frame)
  }

  lemma RecordedMono(rows: seq<DestroyRow>, more: seq<DestroyRow>, plan: Plan, frame: Frame)
    requires rows <= more && DestroyRecorded(rows, plan, frame)
    ensures DestroyRecorded(more, plan, frame)
  {
    forall s | s in plan.steps && s.role == Destroy
      ensures StepRecorded(more, plan, s, frame)
    {
      assert StepRecorded(rows, plan, s, frame);
      var i :| 0 <= i < |rows| && Records(rows[i], plan, s, frame);
      assert more[i] == rows[i];
    }
  }

  /** The first `n` plans each have a frame, and their destroy steps are recorded for it. */
  ghost predicate PlansRecorded(rows: seq<DestroyRow>, plans: seq<Plan>, n: nat, frames: map<string, Frame>)
    requires n <= |plans|
  {
    forall k :: 0 <= k < n ==>
      plans[k].name in frames && DestroyRecorded(rows, plans[k], frames[plans[k].name])
  }

  lemma PlanHasFrame(rows: seq<DestroyRow>, plans: seq<Plan>, frames: map<string, Frame>, plan: Plan)
    requires PlansRecorded(rows, plans, |plans|, frames) && plan in plans
    ensures plan.name in frames
  {
  }

  lemma PlansRecordedMono(rows: seq<DestroyRow>, more: seq<DestroyRow>, plans: seq<Plan>, n: nat, frames: map<string,
                          Frame>)
    requires n <= |plans| && PlansRecorded(rows, plans, n, frames) && rows <= more
    ensures PlansRecorded(more, plans, n, frames)
  {
    forall k | 0 <= k < n
      ensures DestroyRecorded(more, plans[k], frames[plans[k].name])
    {
      RecordedMono(rows, more, plans[k], frames[plans[k].name]);
    }
  }

  lemma PlansRecordedStep(rows: seq<DestroyRow>, more: seq<DestroyRow>, plans: seq<Plan>, n: nat,
                          frames: map<string, Frame>, frame: Frame)
    requires n < |plans| && PlansRecorded(rows, plans, n, frames) && rows <= more
    requires forall i, j :: 0 <= i < j < |plans| ==> plans[i].name != plans[j].name
    requires DestroyRecorded(more, plans[n], frame)
    ensures PlansRecorded(more, plans, n + 1, frames[plans[n].name := frame])
  {
    hide DestroyRecorded;
    PlansRecordedMono(rows, more, plans, n, frames);
  }

  ghost predicate DistinctKeys(rows: seq<DestroyRow>) {
    forall i, j :: 0 <= i < j < |rows| ==>
      (rows[i].name, rows[i].number, rows[i].key) != (rows[j].name, rows[j].number, rows[j].key)
  }

  // ---- The invariant of one entry, over values ----

  /** What an entry holds and what it thinks it has been charged. */
  datatype Books = Books(
    owner: nat,
    config: Config,
    frames: map<CacheKey, Frame>,
    bytes: int,
    keys: int)

  /** The owner's reservations are exactly its cached frames, each at the cost its cache key
      implies, and the entry's own counters are their sum. */
  ghost predicate BooksBalance(b: Books, ledger: Ledger<CacheKey>) {
    && (forall k :: Identity(b.owner, k) in ledger <==> k in b.frames)
    && (forall k :: k in b.frames ==> FrameBooked(b, ledger, k))
    && b.bytes == Total(Owned(ledger, b.owner)).bytes
    && b.keys == Total(Owned(ledger, b.owner)).keys
  }

  ghost predicate FrameBooked(b: Books, ledger: Ledger<CacheKey>, k: CacheKey)
    requires k in b.frames
  {
    && Identity(b.owner, k) in ledger
    && FrameFits(b.config.Declared(k.prefix), k.shapes, b.frames[k])
    && ledger[Identity(b.owner, k)].bytes == CostBytes(b.config.Declared(k.prefix), k.shapes)
    && ledger[Identity(b.owner, k)].keys == |b.config.Declared(k.prefix)|
  }

  /** The lifecycle half of an entry's state. */
  datatype Life = Life(
    owner: nat,
    plans: seq<Plan>,
    initialized: set<LifecycleKey>,
    preparedByKey: map<Rows, PreparedState>,
    preparedFrames: map<nat, PlanFrames>,
    nextToken: nat,
    destroyRows: seq<DestroyRow>,
    closing: bool,
    closed: bool)

  ghost predicate TokenSound(l: Life, log: Log, key: Rows)
    requires key in l.preparedByKey
  {
    var state := l.preparedByKey[key];
    && state.owner == l.owner && state.key == key
    && Issued(l.owner, state) in log
    && state.token in l.preparedFrames
  }

  /** A published token has a frame for every plan, with that plan's destroy steps recorded. */
  ghost predicate FramesComplete(l: Life, token: nat)
    requires token in l.preparedFrames
  {
    && token < l.nextToken
    && PlansRecorded(l.destroyRows, l.plans, |l.plans|, l.preparedFrames[token].byPlan)
  }

  ghost predicate LogAgrees(l: Life, log: Log) {
    && (l.closing <==> !Open(log, l.owner))
    && (l.closed <==> Shut(log, l.owner))
    && (forall k :: k in l.initialized <==> InitDone(l.owner, k) in log)
    && (forall t: PreparedState :: Issued(l.owner, t) in log ==> t.token < l.nextToken)
    && (!l.closed ==> forall row :: row in l.destroyRows <==> Owed(l.owner, row) in log)
  }

  ghost predicate LifeSound(l: Life, log: Log) {
    && LogAgrees(l, log)
    && (forall key :: key in l.preparedByKey ==> TokenSound(l, log, key))
    && (forall token :: token in l.preparedFrames ==> FramesComplete(l, token))
    && DistinctKeys(l.destroyRows)
    && (forall row :: row in l.destroyRows ==> RowSound(row, l.plans))
    && (l.closed ==> l.closing && l.destroyRows == [] && l.preparedByKey == map[])
  }

  /** Another owner's operation cannot disturb this entry. */
  lemma OthersKeepBooks(b: Books, actor: nat, ledger: Ledger<CacheKey>, ledger': Ledger<CacheKey>)
    requires BooksBalance(b, ledger) && actor != b.owner && OnlyOwner(actor, ledger, ledger')
    ensures BooksBalance(b, ledger')
  {
    OnlyOwnerKeepsOthers(actor, b.owner, ledger, ledger');
    forall k | k in b.frames
      ensures FrameBooked(b, ledger', k)
    {
      assert FrameBooked(b, ledger, k);
    }
  }

  lemma OthersKeepLife(l: Life, actor: nat, log: Log, log': Log)
    requires LifeSound(l, log) && actor != l.owner && Extends(actor, log, log')
    ensures LifeSound(l, log')
  {
    forall e: Event | e.owner == l.owner
      ensures e in log <==> e in log'
    {
      ExtendsKeeps(actor, log, log', e);
    }
    forall key | key in l.preparedByKey
      ensures TokenSound(l, log', key)
    {
      assert TokenSound(l, log, key);
    }
  }

  /** Events whose presence the invariant of an entry speaks about. */
  ghost predicate IsMarker(e: Event) {
    e.Closing? || e.Released? || e.Retired? || e.InitDone? || e.Issued? || e.Owed?
  }

  ghost predicate NoNewMarkers(log: Log, log': Log) {
    log <= log' && forall e :: e in log' && IsMarker(e) ==> e in log
  }

  lemma LogGrows(l: Life, log: Log, log': Log)
    requires LifeSound(l, log) && NoNewMarkers(log, log')
    ensures LifeSound(l, log')
  {
    forall key | key in l.preparedByKey
      ensures TokenSound(l, log', key)
    {
      assert TokenSound(l, log, key);
    }
    assert forall k :: InitDone(l.owner, k) in log' <==> InitDone(l.owner, k) in log;
  }

  // ---- How each lifecycle transition keeps the invariant ----

  lemma InitRecorded(l: Life, log: Log, key: LifecycleKey)
    requires LifeSound(l, log)
    ensures LifeSound(l.(initialized := l.initialized + {key}), log + [InitDone(l.owner, key)])
  {
    var l', log' := l.(initialized := l.initialized + {key}), log + [InitDone(l.owner, key)];
    assert forall e :: e in log' <==> e in log || e == InitDone(l.owner, key);
    forall k | k in l'.preparedByKey ensures TokenSound(l', log', k) { assert TokenSound(l, log, k); }
    forall t | t in l'.preparedFrames ensures FramesComplete(l', t) { assert FramesComplete(l, t); }
  }

  lemma DestroyAdded(l: Life, log: Log, row: DestroyRow)
    requires LifeSound(l, log) && !l.closed && RowSound(row, l.plans)
    requires forall i :: 0 <= i < |l.destroyRows| ==>
               (l.destroyRows[i].name, l.destroyRows[i].number, l.destroyRows[i].key) != (row.name, row.number, row.key)
    ensures LifeSound(l.(destroyRows := l.destroyRows + [row]), log + [Owed(l.owner, row)])
  {
    var l', log' := l.(destroyRows := l.destroyRows + [row]), log + [Owed(l.owner, row)];
    assert forall e :: e in log' <==> e in log || e == Owed(l.owner, row);
    forall k | k in l'.preparedByKey ensures TokenSound(l', log', k) { assert TokenSound(l, log, k); }
    forall t | t in l'.preparedFrames
      ensures FramesComplete(l', t)
    {
      assert FramesComplete(l, t);
      PlansRecordedMono(l.destroyRows, l'.destroyRows, l.plans, |l.plans|, l.preparedFrames[t].byPlan);
    }
  }

  lemma TokenPublished(l: Life, log: Log, state: PreparedState, frames: PlanFrames)
    requires LifeSound(l, log) && !l.closing
    requires state.owner == l.owner && state.token == l.nextToken
    requires PlansRecorded(l.destroyRows, l.plans, |l.plans|, frames.byPlan)
    ensures Issued(l.owner, state) !in log
    ensures LifeSound(l.(preparedByKey := l.preparedByKey[state.key := state],
                         preparedFrames := l.preparedFrames[state.token := frames],
                         nextToken := l.nextToken + 1),
                      log + [Issued(l.owner, state)])
  {
    var l' := l.(preparedByKey := l.preparedByKey[state.key := state],
                 preparedFrames := l.preparedFrames[state.token := frames], nextToken := l.nextToken + 1);
    var log' := log + [Issued(l.owner, state)];
    assert forall e :: e in log' <==> e in log || e == Issued(l.owner, state);
    forall k | k in l'.preparedByKey
      ensures TokenSound(l', log', k)
    {
      if k != state.key { assert TokenSound(l, log, k); }
    }
    forall t | t in l'.preparedFrames
      ensures FramesComplete(l', t)
    {
      if t != state.token { assert FramesComplete(l, t); }
    }
  }

  lemma CloseBegun(l: Life, log: Log)
    requires LifeSound(l, log)
    ensures LifeSound(l.(closing := true), log + [Closing(l.owner)])
  {
    var l', log' := l.(closing := true), log + [Closing(l.owner)];
    assert forall e :: e in log' <==> e in log || e == Closing(l.owner);
    forall k | k in l'.preparedByKey ensures TokenSound(l', log', k) { assert TokenSound(l, log, k); }
    forall t | t in l'.preparedFrames ensures FramesComplete(l', t) { assert FramesComplete(l, t); }
  }

  lemma CloseFinished(l: Life, log: Log, e: Event)
    requires LifeSound(l, log) && l.closing && e in {Released(l.owner), Retired(l.owner)}
    ensures LifeSound(l.(closed := true, destroyRows := [], preparedByKey := map[], preparedFrames := map[]), log + [e])
  {
    var log' := log + [e];
    assert forall x :: x in log' <==> x in log || x == e;
  }

  lemma InitLogged(l: Life, log: Log, key: LifecycleKey)
    requires LifeSound(l, log)
    ensures key in l.initialized <==> InitDone(l.owner, key) in log
  {
  }

  /** What is owed is exactly what is recorded, until the entry has closed. */
  lemma OwedIsRecorded(l: Life, log: Log)
    requires LifeSound(l, log) && !l.closed
    ensures forall row :: Owed(l.owner, row) in log ==> row in l.destroyRows
  {
  }

  lemma ClosedIsClosing(l: Life, log: Log)
    requires LifeSound(l, log)
    ensures l.closed ==> l.closing
  {
  }

  lemma TokenFacts(l: Life, log: Log, key: Rows)
    requires LifeSound(l, log) && key in l.preparedByKey
    ensures var state := l.preparedByKey[key];
            && state.owner == l.owner && state.key == key && Issued(l.owner, state) in log
            && state.token in l.preparedFrames
            && PlansRecorded(l.destroyRows, l.plans, |l.plans|, l.preparedFrames[state.token].byPlan)
  {
    assert TokenSound(l, log, key);
    assert FramesComplete(l, l.preparedByKey[key].token);
  }

  lemma OpenUntilClosing(l: Life, log: Log)
    requires LifeSound(l, log)
    ensures Open(log, l.owner) <==> !l.closing
  {
  }

  lemma UncachedIsUnreserved(b: Books, ledger: Ledger<CacheKey>, k: CacheKey)
    requires BooksBalance(b, ledger)
    ensures Identity(b.owner, k) in ledger <==> k in b.frames
    ensures b.bytes == Total(Owned(ledger, b.owner)).bytes && b.keys == Total(Owned(ledger, b.owner)).keys
  {
  }

  /** Booking one new frame keeps the books balanced. */
  lemma BookFrame(b: Books, b': Books, ledger: Ledger<CacheKey>, k: CacheKey, frame: Frame, cost: Charge)
    requires BooksBalance(b, ledger)
    requires k !in b.frames
    requires FrameFits(b.config.Declared(k.prefix), k.shapes, frame)
    requires cost.bytes == CostBytes(b.config.Declared(k.prefix), k.shapes)
    requires cost.keys == |b.config.Declared(k.prefix)|
    requires b' == Books(b.owner, b.config, b.frames[k := frame], b.bytes + cost.bytes, b.keys + cost.keys)
    ensures BooksBalance(b', ledger[Identity(b.owner, k) := cost])
  {
    var id := Identity(b.owner, k);
    var ledger' := ledger[id := cost];
    OwnedInsert(ledger, id, cost);
    forall j | j in b'.frames
      ensures FrameBooked(b', ledger', j)
    {
      if j != k { assert FrameBooked(b, ledger, j); }
    }
  }

  // ---- The frame a launch runs on ----

  type Frames = map<CacheKey, Frame>

  /** What a frame is assembled for: the base it starts from and where it will run. */
  datatype Setting = Setting(owner: nat, config: Config, base: Frame, scope: nat, groups: Rows, instance: InstanceKey) {
    function State(): Setting {
      this.(instance := StateInstance(scope, groups))
    }

    function On(frame: Frame): Setting {
      this.(base := frame)
    }
  }

  ghost function StorageKey(s: Setting, plan: Plan, prefix: Prefix): CacheKey
    requires ShapeRows(s.config.Declared(prefix), s.base).Ok?
  {
    CacheKey(plan.name, prefix, s.instance, ShapeRows(s.config.Declared(prefix), s.base).value)
  }

  /** The declared storage of a prefix is cached for the shapes the base implies. */
  ghost predicate Stored(frames: Frames, s: Setting, plan: Plan, prefix: Prefix) {
    s.config.Declared(prefix) == [] ||
    (ShapeRows(s.config.Declared(prefix), s.base).Ok? && StorageKey(s, plan, prefix) in frames)
  }

  ghost function Storage(frames: Frames, s: Setting, plan: Plan, prefix: Prefix): Frame
    requires Stored(frames, s, plan, prefix)
  {
    if s.config.Declared(prefix) == [] then EMPTY_FRAME else frames[StorageKey(s, plan, prefix)]
  }

  /** `used` is the base with the cached storage of `prefix`. */
  ghost predicate Completed(frames: Frames, s: Setting, plan: Plan, prefix: Prefix, used: Frame) {
    Stored(frames, s, plan, prefix) && used == s.base.Update(Storage(frames, s, plan, prefix))
  }

  /** `used` is the base with the cached engine state, where its shape is known, and then the
      cached storage of `prefix`. */
  ghost predicate Assembled(frames: Frames, s: Setting, plan: Plan, prefix: Prefix, used: Frame) {
    if CanShape(s.config.state, s.base) then
      && Stored(frames, s.State(), plan, EngineState)
      && Completed(frames, s.On(s.base.Update(Storage(frames, s.State(), plan, EngineState))), plan, prefix, used)
    else Completed(frames, s, plan, prefix, used)
  }

  /** Each declared tensor is in the frame, aligned, and of the shape that `base` gives it. */
  ghost predicate Supplied(declarations: seq<Resource>, base: Frame, used: Frame) {
    forall i :: 0 <= i < |declarations| ==> TensorSupplied(declarations[i], base, used)
  }

  ghost predicate TensorSupplied(r: Resource, base: Frame, used: Frame) {
    && r.name in used.values && used.values[r.name].Tensor?
    && r.alignment > 0 && used.values[r.name].pointer % r.alignment == 0
    && ShapeIs(r.shape, base, used.values[r.name].dims)
  }

  lemma {:induction false} ShapeRowsAt(declarations: seq<Resource>, base: Frame, i: nat)
    requires ShapeRows(declarations, base).Ok? && i < |declarations|
    ensures |ShapeRows(declarations, base).value| == |declarations|
    ensures ShapeIs(declarations[i].shape, base, ShapeRows(declarations, base).value[i])
  {
    hide ShapeIs, LiveDims;
    var n := |declarations| - 1;
    LiveDimsDecides(declarations[n].shape, base);
    if n > 0 {
      ShapeRowsAt(declarations[..n], base, if i < n then i else 0);
    }
  }

  /** The cached storage of a prefix supplies what the prefix declares. */
  lemma StorageSupplies(b: Books, ledger: Ledger<CacheKey>, s: Setting, plan: Plan, prefix: Prefix)
    requires BooksBalance(b, ledger) && s.config == b.config && Stored(b.frames, s, plan, prefix)
    ensures Supplied(s.config.Declared(prefix), s.base, s.base.Update(Storage(b.frames, s, plan, prefix)))
  {
    hide ShapeRows, ShapeIs;
    var declarations := s.config.Declared(prefix);
    if declarations != [] {
      var key := StorageKey(s, plan, prefix);
      assert FrameBooked(b, ledger, key);
      forall i | 0 <= i < |declarations|
        ensures TensorSupplied(declarations[i], s.base, s.base.Update(Storage(b.frames, s, plan, prefix)))
      {
        ShapeRowsAt(declarations, s.base, i);
        assert Fits(declarations[i], key.shapes[i], b.frames[key]);
      }
    }
  }

  /** An assembled frame supplies the engine state, where its shape is known, and then the prefix. */
  ghost predicate Equipped(s: Setting, declarations: seq<Resource>, used: Frame) {
    if CanShape(s.config.state, s.base) then
      exists middle :: Supplied(s.config.state, s.base, middle) && Supplied(declarations, middle, used)
    else Supplied(declarations, s.base, used)
  }

  lemma AssembledEquips(b: Books, ledger: Ledger<CacheKey>, s: Setting, plan: Plan, prefix: Prefix, used: Frame)
    requires BooksBalance(b, ledger) && s.config == b.config && Assembled(b.frames, s, plan, prefix, used)
    ensures prefix == Workspace ==> Equipped(s, s.config.workspace, used)
    ensures prefix == Prepared ==> Equipped(s, s.config.prepared, used)
  {
    hide BooksBalance, Supplied, Storage, Stored, CanShape;
    if CanShape(s.config.state, s.base) {
      StorageSupplies(b, ledger, s.State(), plan, EngineState);
      StorageSupplies(b, ledger, s.On(s.base.Update(Storage(b.frames, s.State(), plan, EngineState))), plan, prefix);
    } else {
      StorageSupplies(b, ledger, s, plan, prefix);
    }
  }

  /** A shape can be computed as far as its sources are concerned: each of them is in the frame. */
  lemma CanShapeMeans(declarations: seq<Resource>, frame: Frame)
    ensures CanShape(declarations, frame) <==>
              forall r, name :: r in declarations && ShapedBy(r, name) ==> name in frame.values
  {
    if CanShape(declarations, frame) {
      forall r, name | r in declarations && ShapedBy(r, name)
        ensures name in frame.values
      {
        var i, k :| 0 <= i < |r.shape| && 0 <= k < |r.shape[i].factors| && Sourced(r.shape[i].factors[k], name);
        assert r.shape[i] in r.shape && r.shape[i].factors[k] in r.shape[i].factors;
      }
    } else {
      var r, e, f :| r in declarations && e in r.shape && f in e.factors && !(f.Static? || frame.Has(f.source));
      var i :| 0 <= i < |r.shape| && r.shape[i] == e;
      var k :| 0 <= k < |e.factors| && e.factors[k] == f;
      assert Sourced(r.shape[i].factors[k], f.source);
      assert ShapedBy(r, f.source);
    }
  }

  lemma NothingDeclared(frames: Frames, s: Setting, plan: Plan, prefix: Prefix)
    requires s.config.Declared(prefix) == []
    ensures Completed(frames, s, plan, prefix, s.base)
  {
    assert s.base.values + map[] == s.base.values;
  }

  ghost predicate Grows(frames: Frames, more: Frames) {
    forall k :: k in frames ==> k in more && more[k] == frames[k]
  }

  lemma StorageStays(frames: Frames, more: Frames, s: Setting, plan: Plan, prefix: Prefix)
    requires Grows(frames, more) && Stored(frames, s, plan, prefix)
    ensures Stored(more, s, plan, prefix) && Storage(more, s, plan, prefix) == Storage(frames, s, plan, prefix)
  {
    hide ShapeRows;
  }

  lemma AssembledStays(frames: Frames, more: Frames, s: Setting, plan: Plan, prefix: Prefix, used: Frame)
    requires Grows(frames, more) && Assembled(frames, s, plan, prefix, used)
    ensures Assembled(more, s, plan, prefix, used)
  {
    hide Grows, Stored, Storage, CanShape;
    if CanShape(s.config.state, s.base) {
      StorageStays(frames, more, s.State(), plan, EngineState);
      StorageStays(frames, more, s.On(s.base.Update(Storage(frames, s.State(), plan, EngineState))), plan, prefix);
    } else {
      StorageStays(frames, more, s, plan, prefix);
    }
  }

  /** The events happened, in order and together, at or after `from`. */
  ghost predicate Ran(log: Log, from: nat, events: Log) {
    exists i :: from <= i && RanAt(log, i, events)
  }

  ghost predicate RanAt(log: Log, i: nat, events: Log) {
    i + |events| <= |log| && log[i..i + |events|] == events
  }

  lemma RanGrows(log: Log, more: Log, from: nat, events: Log)
    requires Ran(log, from, events) && log <= more
    ensures Ran(more, from, events)
  {
    var i :| from <= i && RanAt(log, i, events);
    assert RanAt(more, i, events);
  }

  lemma RanEarlier(log: Log, from: nat, start: nat, events: Log)
    requires Ran(log, from, events) && start <= from
    ensures Ran(log, start, events)
  {
  }

  /** One plan's preparation: its frame is assembled, its init steps have run for that frame, and
      its prepare steps ran on it, in order, since `from`. */
  ghost predicate PlanPrepared(w: World, initialized: set<LifecycleKey>, s: Setting, plan: Plan, from: nat,
                               frame: Frame) {
    && Assembled(w.frames, s, plan, Prepared, frame)
    && InitSatisfied(initialized, plan, frame)
    && exists steps :: Phase(plan, {Role.Prepare}, steps) && Ran(w.log, from, Invocations(s.owner, steps, frame))
  }

  lemma PlanPreparedStays(w: World, w': World, initialized: set<LifecycleKey>, more: set<LifecycleKey>, s: Setting,
                          plan: Plan, from: nat, start: nat, frame: Frame)
    requires Advances(s.owner, w, w') && initialized <= more && start <= from
    requires PlanPrepared(w, initialized, s, plan, from, frame)
    ensures PlanPrepared(w', more, s, plan, start, frame)
  {
    hide Assembled, InitKey, Phase, Ran, HasRole;
    FramesGrow(s.owner, w, w');
    AssembledStays(w.frames, w'.frames, s, plan, Prepared, frame);
    var steps :| Phase(plan, {Role.Prepare}, steps) && Ran(w.log, from, Invocations(s.owner, steps, frame));
    var events := Invocations(s.owner, steps, frame);
    RanGrows(w.log, w'.log, from, events);
    RanEarlier(w'.log, from, start, events);
  }

  /** The first `n` plans are prepared, each on its own frame. */
  ghost predicate AllPrepared(w: World, initialized: set<LifecycleKey>, s: Setting, n: nat, from: nat,
                              frames: map<string, Frame>)
  {
    forall k :: 0 <= k < n && k < |s.config.plans| ==>
      var plan := s.config.plans[k];
      plan.name in frames && PlanPrepared(w, initialized, s, plan, from, frames[plan.name])
  }

  lemma AllPreparedStays(w: World, w': World, initialized: set<LifecycleKey>, more: set<LifecycleKey>, s: Setting,
                         n: nat,
                         from: nat, start: nat, frames: map<string, Frame>)
    requires Advances(s.owner, w, w') && initialized <= more && start <= from
    requires AllPrepared(w, initialized, s, n, from, frames)
    ensures AllPrepared(w', more, s, n, start, frames)
  {
    hide PlanPrepared, Advances;
    forall k | 0 <= k < n && k < |s.config.plans|
      ensures PlanPrepared(w', more, s, s.config.plans[k], start, frames[s.config.plans[k].name])
    {
      PlanPreparedStays(w, w', initialized, more, s, s.config.plans[k], from, start, frames[s.config.plans[k].name]);
    }
  }

  lemma AllPreparedStep(w: World, w': World, initialized: set<LifecycleKey>, more: set<LifecycleKey>, s: Setting,
                        n: nat,
                        from: nat, start: nat, frames: map<string, Frame>, frame: Frame)
    requires Advances(s.owner, w, w') && initialized <= more && start <= from && n < |s.config.plans|
    requires forall i, j :: 0 <= i < j < |s.config.plans| ==> s.config.plans[i].name != s.config.plans[j].name
    requires AllPrepared(w, initialized, s, n, start, frames)
    requires PlanPrepared(w', more, s, s.config.plans[n], from, frame)
    ensures AllPrepared(w', more, s, n + 1, start, frames[s.config.plans[n].name := frame])
  {
    hide PlanPrepared, Advances;
    AllPreparedStays(w, w', initialized, more, s, n, start, start, frames);
    Same(s.owner, w');
    PlanPreparedStays(w', w', more, more, s, s.config.plans[n], from, start, frame);
  }

  /** The first `n` plans are prepared since `start`, with their destroy steps recorded. */
  ghost predicate Underway(start: World, now: World, initialized: set<LifecycleKey>, s: Setting, n: nat,
                           frames: map<string, Frame>)
    requires n <= |s.config.plans|
  {
    && Advances(s.owner, start, now)
    && PlansRecorded(now.rows, s.config.plans, n, frames)
    && AllPrepared(now, initialized, s, n, |start.log|, frames)
  }

  lemma NothingUnderway(w: World, initialized: set<LifecycleKey>, s: Setting)
    ensures Advances(s.owner, w, w) && Underway(w, w, initialized, s, 0, map[])
  {
    hide Advances;
    Same(s.owner, w);
  }

  lemma StillUnderway(start: World, now: World, later: World, initialized: set<LifecycleKey>, s: Setting, n: nat,
                      frames: map<string, Frame>)
    requires n <= |s.config.plans| && Underway(start, now, initialized, s, n, frames) && Advances(s.owner, now, later)
    ensures Underway(start, later, initialized, s, n, frames)
  {
    hide Advances, PlansRecorded, AllPrepared;
    Then(s.owner, start, now, later);
    RowsGrow(s.owner, now, later);
    PlansRecordedMono(now.rows, later.rows, s.config.plans, n, frames);
    AllPreparedStays(now, later, initialized, initialized, s, n, |start.log|, |start.log|, frames);
  }

  /** How a prepare that builds a token begins. */
  ghost function PrepareOpening(owner: nat, scope: nat): Log {
    [Begin(owner), Query(owner, Some(false)), Scope(owner, Some(scope))]
  }

  lemma Opened(log: Log, owner: nat, scope: nat)
    ensures log + [Begin(owner)] + [Query(owner, Some(false))] + [Scope(owner, Some(scope))] ==
            log + PrepareOpening(owner, scope)
    ensures Unfailed(log + PrepareOpening(owner, scope), owner)
  {
    var begun := log + [Begin(owner)];
    assert Last(begun) == Begin(owner);
    UnfailedStays(begun, [Query(owner, Some(false)), Scope(owner, Some(scope))], owner);
    assert begun + [Query(owner, Some(false)), Scope(owner, Some(scope))] == log + PrepareOpening(owner, scope);
  }

  /** The key a prepare call publishes its token under. */
  function PrepareKey(abi: Abi, base: Frame): Rows {
    Frame(map n | n in abi.prepareArgs && base.Has(n) :: IdentityOf(base.Get(n)))
  }

  /** What an implicit preparation reads of the call's resources. */
  function ImplicitNames(config: Config, plan: Plan): set<string> {
    ResourceNames(Filter(plan.steps, {Role.Prepare})) * config.abi.names - config.abi.streams + Sources(config.prepared)
  }

  function ImplicitKeyOf(config: Config, plan: Plan, base: Frame, scope: nat): ImplicitKey {
    ImplicitKey(plan.name, scope,
                Frame(map n | n in ImplicitNames(config, plan) && base.Has(n) :: IdentityOf(base.Get(n))))
  }

  /** Two prepares share a token exactly if all their arguments are the same resources. */
  lemma PrepareKeysAgree(abi: Abi, a: Frame, b: Frame)
    ensures PrepareKey(abi, a) == PrepareKey(abi, b) <==> SameResources(abi.prepareArgs, a, b)
  {
    RowsAgree(abi.prepareArgs, a, b, PrepareKey(abi, a), PrepareKey(abi, b));
  }

  /** A row per name, each the identity of that resource in the frame. */
  ghost predicate Identifies(rows: Rows, names: set<string>, frame: Frame) {
    && rows.values.Keys == names
    && forall n :: n in names ==> n in frame.values && SameResource(rows.values[n], frame.values[n])
  }

  lemma PrepareKeyIdentifies(abi: Abi, base: Frame)
    requires forall n :: n in abi.prepareArgs ==> base.Has(n)
    ensures Identifies(PrepareKey(abi, base), abi.prepareArgs, base)
  {
    forall n | n in abi.prepareArgs
      ensures SameResource(IdentityOf(base.Get(n)), base.Get(n))
    {
      IdentityIsResource(base.Get(n), base.Get(n));
    }
  }

  /** Two frames belong to the same groups exactly if their groups are the same objects. */
  lemma GroupScopesAgree(abi: Abi, a: Frame, b: Frame)
    ensures GroupScope(abi, a) == GroupScope(abi, b) <==> SameResources(abi.groups, a, b)
  {
    RowsAgree(abi.groups, a, b, GroupScope(abi, a), GroupScope(abi, b));
  }

  /** Rows of identities, one per name present. */
  ghost predicate RowsOf(names: set<string>, frame: Frame, rows: Rows) {
    && rows.values.Keys == names * frame.values.Keys
    && forall n :: n in rows.values ==> rows.values[n] == IdentityOf(frame.values[n])
  }

  lemma RowsAgree(names: set<string>, a: Frame, b: Frame, p: Rows, q: Rows)
    requires RowsOf(names, a, p) && RowsOf(names, b, q)
    ensures p == q <==> SameResources(names, a, b)
  {
    forall n | n in names && n in a.values && n in b.values
      ensures p.values[n] == q.values[n] <==> SameResource(a.values[n], b.values[n])
    {
      IdentityIsResource(a.values[n], b.values[n]);
    }
    hide IdentityOf, SameResource;
    if p == q {
      forall n | n in names
        ensures n in a.values <==> n in b.values
      {
        assert n in p.values <==> n in a.values;
      }
    }
    if SameResources(names, a, b) {
      assert p.values.Keys == q.values.Keys;
      assert p.values == q.values;
    }
  }

  /** What an implicit preparation depends on: the call resources its prepare steps read, streams
      apart, and the sources of the prepared shapes. */
  ghost predicate Prepares(config: Config, plan: Plan, name: string) {
    || (name in ReadBy(plan, Role.Prepare) && name in config.abi.names && name !in config.abi.streams)
    || exists r :: r in config.prepared && ShapedBy(r, name)
  }

  ghost predicate ShapedBy(r: Resource, name: string) {
    exists i, k :: 0 <= i < |r.shape| && 0 <= k < |r.shape[i].factors| && Sourced(r.shape[i].factors[k], name)
  }

  ghost predicate Sourced(f: Factor, name: string) {
    f.Dynamic? && f.source == name
  }

  lemma ImplicitNamesAre(config: Config, plan: Plan, name: string)
    ensures name in ImplicitNames(config, plan) <==> Prepares(config, plan, name)
  {
    FilterIsPhase(plan, {Role.Prepare});
    if name in Sources(config.prepared) {
      var r, e, f :| r in config.prepared && e in r.shape && f in e.factors && f.Dynamic? && f.source == name;
      var i :| 0 <= i < |r.shape| && r.shape[i] == e;
      var k :| 0 <= k < |e.factors| && e.factors[k] == f;
      assert Sourced(r.shape[i].factors[k], name);
      assert ShapedBy(r, name);
    }
    if r :| r in config.prepared && ShapedBy(r, name) {
      var i, k :| 0 <= i < |r.shape| && 0 <= k < |r.shape[i].factors| && Sourced(r.shape[i].factors[k], name);
      assert r.shape[i] in r.shape && r.shape[i].factors[k] in r.shape[i].factors;
    }
  }

  ghost predicate SamePreparation(config: Config, plan: Plan, a: Frame, b: Frame) {
    forall n :: Prepares(config, plan, n) ==>
      (n in a.values <==> n in b.values) && (n in a.values ==> SameResource(a.values[n], b.values[n]))
  }

  /** Two calls share an implicit preparation exactly if plan and scope are the same and so is
      everything the preparation depends on. */
  lemma ImplicitKeysAgree(config: Config, plan: Plan, other: Plan, a: Frame, b: Frame, s: nat, t: nat)
    ensures ImplicitKeyOf(config, plan, a, s) == ImplicitKeyOf(config, plan, b, t) <==>
              s == t && SamePreparation(config, plan, a, b)
    ensures plan.name != other.name ==> ImplicitKeyOf(config, plan, a, s) != ImplicitKeyOf(config, other, b, t)
  {
    SamePreparationIsSameRows(config, plan, a, b);
    hide ImplicitNames, SamePreparation, SameResources;
    RowsAgree(ImplicitNames(config, plan), a, b, ImplicitKeyOf(config, plan, a, s).rows,
              ImplicitKeyOf(config, plan, b, t).rows);
  }

  lemma SamePreparationIsSameRows(config: Config, plan: Plan, a: Frame, b: Frame)
    ensures SamePreparation(config, plan, a, b) <==> SameResources(ImplicitNames(config, plan), a, b)
  {
    hide ImplicitNames, Prepares, SameResource;
    forall n
      ensures n in ImplicitNames(config, plan) <==> Prepares(config, plan, n)
    {
      ImplicitNamesAre(config, plan, n);
    }
  }

  /** Two lifecycle keys over the same names are equal exactly if plan, role and every resource are
      the same, a stream that the frame does not name being the scope it was asked for. */
  lemma LifecycleKeysAgree(p: LifecycleKey, q: LifecycleKey, names: set<string>, a: Frame, b: Frame)
    requires MarksMatch(p, names, a) && MarksMatch(q, names, b)
    ensures p == q <==>
              && p.plan == q.plan && p.role == q.role && SameResources(names, a, b)
              && forall n :: n in names && n !in a.values ==> p.rows.values[n] == q.rows.values[n]
  {
    forall n | n in names && n in a.values && n in b.values
      ensures p.rows.values[n] == q.rows.values[n] <==> SameResource(a.values[n], b.values[n])
    {
      IdentityIsResource(a.values[n], b.values[n]);
    }
    hide IdentityOf, SameResource;
    if p.plan == q.plan && p.role == q.role && SameResources(names, a, b) &&
       (forall n :: n in names && n !in a.values ==> p.rows.values[n] == q.rows.values[n]) {
      assert p.rows.values == q.rows.values;
    }
  }

  // ---- What one entry's operation may do to the shared world ----

  datatype World = World(
    ledger: Ledger<CacheKey>, log: Log, frames: map<CacheKey, Frame>, rows: seq<DestroyRow>, device: CubinProtocol.Log)

  /** Nothing of any other entry changes, no cached frame is replaced, no destroy row is lost, and
      the device sees launches and fences only. */
  ghost predicate Advances(owner: nat, w: World, w': World) {
    && OnlyOwner(owner, w.ledger, w'.ledger)
    && Extends(owner, w.log, w'.log)
    && DeviceUsed(w.device, w'.device)
    && (forall k :: k in w.frames ==> k in w'.frames && w'.frames[k] == w.frames[k])
    && w.rows <= w'.rows
  }

  /** An operation of `owner` that ended as the answers it got force it to. */
  ghost predicate Follows(owner: nat, w: World, w': World, outcome: Option<RuntimeError>) {
    Advances(owner, w, w') && Reported(w.log, w'.log, outcome)
  }

  lemma Still(owner: nat, w: World)
    ensures Follows(owner, w, w, None)
  {
    Same(owner, w);
    NothingReported(w.log, MissingResource);
  }

  lemma Next(owner: nat, a: World, b: World, c: World, outcome: Option<RuntimeError>)
    requires Follows(owner, a, b, None) && Follows(owner, b, c, outcome)
    ensures Follows(owner, a, c, outcome)
  {
    hide Advances, Reported;
    Then(owner, a, b, c);
    ReportedThen(a.log, b.log, c.log, outcome);
  }

  /** An error of the entry's own. */
  lemma Decline(owner: nat, a: World, b: World, e: RuntimeError)
    requires Follows(owner, a, b, None) && !Foreign(e)
    ensures Follows(owner, a, b, Some(e))
  {
    hide Advances;
  }

  /** One event that forces no error. */
  lemma EventFollows(owner: nat, w: World, w': World, e: Event)
    requires w' == w.(log := w.log + [e], rows := w'.rows) && w.rows <= w'.rows
    requires e.owner == owner && Blame(e).None?
    ensures Follows(owner, w, w', None)
  {
    NothingUsed(w.device);
  }

  /** A phase's launches, carried out or stopped at the first failure. */
  lemma LaunchesFollow(owner: nat, w: World, w': World, steps: seq<Step>, frame: Frame, ok: bool)
    requires w' == w.(log := w'.log, device := w'.device) && DeviceUsed(w.device, w'.device)
    requires ok ==> w'.log == w.log + Invocations(owner, steps, frame)
    requires !ok ==> exists n :: StoppedAt(w.log, w'.log, owner, steps, frame, n)
    ensures Follows(owner, w, w', if ok then None else Some(StepFailed)) && NoNewMarkers(w.log, w'.log)
  {
    hide DeviceUsed;
    if !ok {
      var n :| StoppedAt(w.log, w'.log, owner, steps, frame, n);
    }
  }

  /** Init launches that all returned stand right before what follows them. */
  lemma {:induction false} InitsBehind(log: Log, owner: nat, steps: seq<Step>, frame: Frame)
    requires steps != [] && (forall s :: s in steps ==> s.role == Init)
    requires log != [] && !Last(log).Invoke?
    ensures BehindInits(log + Invocations(owner, steps, frame), owner)
    decreases |steps|
  {
    var n := |steps| - 1;
    var front := log + Invocations(owner, steps[..n], frame);
    var events := Invocations(owner, steps, frame);
    assert Front(log + events) == front && Last(log + events) == Invoke(owner, steps[n], frame, true);
    assert steps[n] in steps;
    if n > 0 {
      InitsBehind(log, owner, steps[..n], frame);
    } else {
      assert front == log;
    }
  }

  lemma Same(owner: nat, w: World)
    ensures Advances(owner, w, w)
  {
    NothingUsed(w.device);
  }

  lemma AdvancesLog(owner: nat, w: World, log: Log)
    requires Extends(owner, w.log, log)
    ensures Advances(owner, w, w.(log := log))
  {
  }

  lemma AdvancesBooked(owner: nat, w: World, key: CacheKey, frame: Frame, charge: Charge, log: Log)
    requires Extends(owner, w.log, log) && key !in w.frames
    ensures Advances(owner, w,
            World(w.ledger[Identity(owner, key) := charge], log, w.frames[key := frame], w.rows, w.device))
  {
  }

  lemma NothingTaken(owner: nat, ledger: Ledger<CacheKey>)
    ensures OnlyOwner(owner, ledger, ledger)
  {
  }

  lemma RowsAreNoMarkers(owner: nat, log: Log, rows: seq<DestroyRow>, answers: seq<bool>)
    requires |answers| == |rows|
    ensures NoNewMarkers(log, log + RowEvents(owner, rows, answers))
  {
  }

  lemma WorldAdvanced(owner: nat, w: World, w': World)
    requires Advances(owner, w, w')
    ensures Extends(owner, w.log, w'.log) && DeviceUsed(w.device, w'.device) && OnlyOwner(owner, w.ledger, w'.ledger)
  {
  }

  lemma FramesGrow(owner: nat, w: World, w': World)
    requires Advances(owner, w, w')
    ensures Grows(w.frames, w'.frames)
  {
  }

  lemma LogsGrow(owner: nat, w: World, w': World)
    requires Advances(owner, w, w')
    ensures w.log <= w'.log
  {
  }

  lemma JustRan(log: Log, from: nat, events: Log)
    requires from <= |log|
    ensures Ran(log + events, from, events)
  {
    assert RanAt(log + events, |log|, events);
  }

  lemma MarkersThen(a: Log, b: Log, c: Log)
    requires NoNewMarkers(a, b) && NoNewMarkers(b, c)
    ensures NoNewMarkers(a, c)
  {
  }

  lemma RowsGrow(owner: nat, w: World, w': World)
    requires Advances(owner, w, w')
    ensures w.rows <= w'.rows
  {
  }

  lemma Then(owner: nat, a: World, b: World, c: World)
    requires Advances(owner, a, b) && Advances(owner, b, c)
    ensures Advances(owner, a, c)
  {
    UsedThen(a.device, b.device, c.device);
    forall i | |a.log| <= i < |c.log|
      ensures c.log[i].owner == owner
    {
      if i < |b.log| { assert c.log[i] == b.log[i]; }
    }
  }

  lemma CloseEventsAreMine(owner: nat, held: bool, rows: seq<DestroyRow>, answers: seq<bool>, fence: Log, tail: Log,
                           closed: bool)
    requires CloseEvents(owner, held, rows, answers, fence, tail, closed)
    ensures forall e :: e in fence + tail ==> e.owner == owner
  {
  }

  /** How a close attempt begins that capture does not refuse. */
  ghost function CloseOpening(owner: nat): Log {
    [Begin(owner), Query(owner, Some(false)), Closing(owner)]
  }

  lemma CloseOpened(log: Log, owner: nat, fence: Log, tail: Log)
    requires forall e :: e in fence + tail ==> e.owner == owner
    ensures log + [Begin(owner)] + [Query(owner, Some(false))] + [Closing(owner)] + fence + tail ==
            log + CloseOpening(owner) + fence + tail
    ensures Extends(owner, log, log + CloseOpening(owner) + fence + tail)
  {
    var events := CloseOpening(owner) + (fence + tail);
    assert log + CloseOpening(owner) + fence + tail == log + events;
    assert forall e :: e in events ==> e.owner == owner;
  }

  /** The events of one close attempt after it was allowed to start: a fence if anything is held;
      past the fence every destroy row exactly once and in order; a second fence exactly if there
      were rows and all of them returned; and the release exactly if nothing at all failed. */
  ghost predicate CloseEvents(owner: nat, held: bool, rows: seq<DestroyRow>, answers: seq<bool>, fence: Log, tail: Log,
                              closed: bool) {
    if held && fence == [Sync(owner, false)] then
      tail == [] && !closed
    else
      && fence == (if held then [Sync(owner, true)] else [])
      && |answers| == |rows|
      && tail == RowEvents(owner, rows, answers) + FinalEvents(owner, held, rows != [], false !in answers, closed)
      && (closed ==> false !in answers) && (rows == [] ==> closed)
  }

  /** What follows the round of destroys: nothing after a failure, else a fence for them and, if it
      succeeds, the end of the entry. */
  ghost function FinalEvents(owner: nat, held: bool, destroyed: bool, returned: bool, closed: bool): Log {
    if !returned then []
    else (if destroyed then [Sync(owner, closed)] else []) +
         (if closed then [if held then Released(owner) else Retired(owner)] else [])
  }

  /** A round of destroys that all returned fails nothing. */
  lemma RoundReturned(log: Log, owner: nat, rows: seq<DestroyRow>, answers: seq<bool>)
    requires |answers| == |rows| && false !in answers && Unfailed(log, owner)
    ensures Unfailed(log + RowEvents(owner, rows, answers), owner)
    ensures forall row :: row in rows ==> Returned(log + RowEvents(owner, rows, answers), owner, row)
    ensures rows == [] ==> log + RowEvents(owner, rows, answers) == log
  {
    hide Unfailed, Returned;
    RowsReturned(log, owner, rows, answers);
    assert forall i :: 0 <= i < |answers| ==> answers[i] in answers;
    UnfailedStays(log, RowEvents(owner, rows, answers), owner);
  }

  lemma FencePasses(log: Log, owner: nat, rows: seq<DestroyRow>)
    requires Unfailed(log, owner) && forall row :: row in rows ==> Returned(log, owner, row)
    ensures Unfailed(log + [Sync(owner, true)], owner)
    ensures forall row :: row in rows ==> Returned(log + [Sync(owner, true)], owner, row)
  {
    hide Unfailed, Returned;
    UnfailedStays(log, [Sync(owner, true)], owner);
    forall row | row in rows
      ensures Returned(log + [Sync(owner, true)], owner, row)
    {
      ReturnedStays(log, [Sync(owner, true)], owner, row);
    }
  }

  lemma NoFramesNoReservations(b: Books, ledger: Ledger<CacheKey>)
    requires BooksBalance(b, ledger) && b.frames == map[]
    ensures forall id :: id in ledger ==> id.owner != b.owner
  {
    forall id | id in ledger
      ensures id.owner != b.owner
    {
      assert id == Identity(id.owner, id.key);
    }
  }

  /** An owner that nothing mentions starts with empty books and an empty life. */
  lemma FreshEntry(owner: nat, config: Config, ledger: Ledger<CacheKey>, log: Log)
    requires forall id :: id in ledger ==> id.owner != owner
    requires forall e :: e in log ==> e.owner != owner
    ensures BooksBalance(Books(owner, config, map[], 0, 0), ledger)
    ensures LifeSound(Life(owner, config.plans, {}, map[], map[], 0, [], false, false), log)
  {
    assert Owned(ledger, owner) == map[];
  }

  /** With its reservations returned, an owner's empty books balance. */
  lemma ReleasedBooks(ledger: Ledger<CacheKey>, owner: nat, config: Config)
    ensures BooksBalance(Books(owner, config, map[], 0, 0), ledger - Owned(ledger, owner).Keys)
    ensures OnlyOwner(owner, ledger, ledger - Owned(ledger, owner).Keys)
  {
    assert Owned(ledger - Owned(ledger, owner).Keys, owner) == map[];
  }
}
