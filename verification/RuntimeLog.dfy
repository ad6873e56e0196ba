/** The vocabulary of one artifact entry, the provider callbacks it drives, and the discipline
    that every run of every entry keeps.

    The provider answers are arbitrary: a callback may fail, lie about a shape, or change its
    mind about graph capture between two queries.  Each callback appends one event to a ghost
    log.  `Disciplined` says, event by event, what must already have happened. */
module RuntimeLog {
  import opened Outcome
  import opened Shapes
  import Expression
  import CubinProtocol
  import DeviceRuntime

  datatype Role = Init | Prepare | Reset | Run | Destroy

  /** One sealed launch row; `resources` are the names its bindings and prelaunch fills read, and
      `executor` is the device runtime it launches. */
  datatype Step = Step(name: string, number: nat, role: Role, resources: set<string>, executor: nat)

  datatype Plan = Plan(name: string, specializes: Frame, steps: seq<Step>)

  /** Resource names with their bounded identities, as used inside cache keys. */
  type Rows = Frame

  /** Identity of one resource inside a lifecycle key. */
  datatype Mark = Live(identity: Value) | CurrentStream(scope: nat)

  datatype Marks = Marks(values: map<string, Mark>)

  datatype LifecycleKey = LifecycleKey(plan: string, role: Role, rows: Marks)

  datatype Event =
    | Begin(owner: nat)                                  // a public method got the lock
    | Query(owner: nat, answer: Option<bool>)            // capture query; None: it failed
    | Scope(owner: nat, scope: Option<nat>)              // execution scope query; None: it failed
    | Alloc(owner: nat, dims: seq<int>, width: int, alignment: int, given: Option<Value>)
    | Vetted(owner: nat, tensor: Value, ok: bool)        // the provider's own check of an allocation
    | Invoke(owner: nat, step: Step, frame: Frame, ok: bool) // a step was launched, and whether it returned
    | InitDone(owner: nat, key: LifecycleKey)            // every init step of the key returned
    | Owed(owner: nat, row: DestroyRow)                  // a destroy launch was recorded for teardown
    | Sync(owner: nat, ok: bool)                         // device-wide fence
    | Issued(owner: nat, state: PreparedState)           // prepare published a token
    | Accepted(owner: nat, state: PreparedState)         // a call took a token
    | Closing(owner: nat)                                // teardown began
    | Released(owner: nat)                               // frames dropped, reservations returned
    | Retired(owner: nat)                                // closed while holding nothing

  type Log = seq<Event>

  ghost function Last(log: Log): Event
    requires log != []
  {
    log[|log| - 1]
  }

  ghost function Front(log: Log): Log
    requires log != []
  {
    log[..|log| - 1]
  }

  /** The current public method has queried capture, and its latest query answered false. */
  ghost predicate Clear(log: Log) {
    log != [] &&
    match Last(log)
    case Begin(_) => false
    case Query(_, answer) => answer == Some(false)
    case _ => Clear(Front(log))
  }

  /** The current public method has no prepare launch that a successful fence does not follow. */
  ghost predicate Fenced(log: Log) {
    log == [] ||
    match Last(log)
    case Begin(_) => true
    case Sync(_, ok) => ok || Fenced(Front(log))
    case Invoke(_, step, _, _) => step.role != Prepare && Fenced(Front(log))
    case _ => Fenced(Front(log))
  }

  /** Every launch of `owner`, in the whole run, is followed by a successful fence. */
  ghost predicate Settled(log: Log, owner: nat) {
    log == [] ||
    match Last(log)
    case Sync(_, ok) => ok || Settled(Front(log), owner)
    case Invoke(o, _, _, _) => o != owner && Settled(Front(log), owner)
    case _ => Settled(Front(log), owner)
  }

  ghost predicate Open(log: Log, owner: nat) {
    Closing(owner) !in log
  }

  ghost predicate Shut(log: Log, owner: nat) {
    Released(owner) in log || Retired(owner) in log
  }

  /** A launch or a fence that did not return. */
  predicate Failed(e: Event) {
    (e.Invoke? || e.Sync?) && !e.ok
  }

  /** The latest method of `owner` has begun, and no launch or fence of it has failed. */
  ghost predicate Unfailed(log: Log, owner: nat) {
    log != [] &&
    (Last(log) == Begin(owner) ||
     (!(Failed(Last(log)) && Last(log).owner == owner) && Unfailed(Front(log), owner)))
  }

  /** A successful init launch of `owner` came last, right behind others of its kind only. */
  ghost predicate BehindInits(log: Log, owner: nat) {
    && log != [] && InitReturned(Last(log), owner)
    && (Front(log) == [] || !Last(Front(log)).Invoke? || BehindInits(Front(log), owner))
  }

  predicate InitReturned(e: Event, owner: nat) {
    e.Invoke? && e.owner == owner && e.step.role == Init && e.ok
  }

  /** The latest method of `owner` has launched the row, and the launch returned. */
  ghost predicate Returned(log: Log, owner: nat, row: DestroyRow) {
    && log != [] && Last(log) != Begin(owner)
    && (Last(log) == Invoke(owner, row.step, row.frame, true) || Returned(Front(log), owner, row))
  }

  /** Every row ever recorded has been launched by the latest method, and returned. */
  ghost predicate DestroysReturned(log: Log, owner: nat) {
    forall row :: Owed(owner, row) in log ==> Returned(log, owner, row)
  }

  /** What must hold of the run so far for `e` to happen next. */
  ghost predicate Allowed(log: Log, e: Event) {
    match e
    case Alloc(o, _, _, _, _) => Clear(log) && Open(log, o)
    case Invoke(o, step, _, _) =>
      (match step.role
       case Init => Clear(log) && Open(log, o)
       case Prepare => Clear(log) && Open(log, o)
       case Reset => Open(log, o)
       case Run => Open(log, o)
       case Destroy => Clear(log) && !Open(log, o) && !Shut(log, o))
    case InitDone(o, _) => e !in log && Open(log, o) && BehindInits(log, o)
    case Owed(o, row) => Open(log, o) && row.step.role == Destroy
    case Issued(o, state) => state.owner == o && Fenced(log) && Unfailed(log, o) && Open(log, o) && e !in log
    case Accepted(o, state) => Issued(o, state) in log && Open(log, o)
    case Released(o) => TornDown(log, o) && Settled(log, o)
    case Retired(o) => TornDown(log, o)
    case _ => true
  }

  /** The current close attempt ran every recorded destroy, and nothing in it failed. */
  ghost predicate TornDown(log: Log, owner: nat) {
    !Open(log, owner) && !Shut(log, owner) && Unfailed(log, owner) && DestroysReturned(log, owner)
  }

  ghost predicate Disciplined(log: Log) {
    log == [] || (Disciplined(Front(log)) && Allowed(Front(log), Last(log)))
  }

  /** Unrolled: at every point of a disciplined run, the event there was allowed. */
  lemma {:induction false} DisciplinedAt(log: Log, i: nat)
    requires Disciplined(log) && i < |log|
    ensures Allowed(log[..i], log[i])
  {
    if i < |log| - 1 {
      DisciplinedAt(Front(log), i);
      assert Front(log)[..i] == log[..i];
    }
  }

  /** No allocation, init or prepare launch begins while capture is on: between the start of the
      enclosing method and the event there is a query, and the last one answered false. */
  lemma CaptureSafe(log: Log, i: nat) returns (q: nat)
    requires Disciplined(log) && i < |log|
    requires log[i].Alloc? || (log[i].Invoke? && log[i].step.role in {Init, Prepare, Destroy})
    ensures q < i && log[q].Query? && log[q].answer == Some(false)
    ensures forall k :: q < k < i ==> !log[k].Query? && !log[k].Begin?
  {
    DisciplinedAt(log, i);
    q := ClearWitness(log[..i]);
  }

  lemma {:induction false} ClearWitness(log: Log) returns (q: nat)
    requires Clear(log)
    ensures q < |log| && log[q].Query? && log[q].answer == Some(false)
    ensures forall k :: q < k < |log| ==> !log[k].Query? && !log[k].Begin?
  {
    if Last(log).Query? {
      q := |log| - 1;
    } else {
      q := ClearWitness(Front(log));
    }
  }

  /** Each init key completes at most once per entry in any run. */
  lemma {:induction false} InitOnce(log: Log, i: nat, j: nat)
    requires Disciplined(log) && i < j < |log|
    requires log[i].InitDone? && log[j].InitDone? && log[i].owner == log[j].owner
    ensures log[i].key != log[j].key
  {
    DisciplinedAt(log, j);
    assert log[..j][i] == log[i];
  }

  /** An init key is completed right behind successful init launches of that entry: back to the
      last event that is no launch there is nothing else, and at least one. */
  lemma InitsHaveReturned(log: Log, j: nat) returns (q: nat)
    requires Disciplined(log) && j < |log| && log[j].InitDone?
    ensures q < j && (q == 0 || !log[q - 1].Invoke?)
    ensures forall k :: q <= k < j ==> InitReturned(log[k], log[j].owner)
  {
    DisciplinedAt(log, j);
    q := InitsWitness(log[..j], log[j].owner);
  }

  lemma {:induction false} InitsWitness(log: Log, owner: nat) returns (q: nat)
    requires BehindInits(log, owner)
    ensures q < |log| && (q == 0 || !log[q - 1].Invoke?)
    ensures forall k :: q <= k < |log| ==> InitReturned(log[k], owner)
  {
    q := |log| - 1;
    if q > 0 && log[q - 1].Invoke? {
      q := InitsWitness(Front(log), owner);
    }
  }

  /** A call only ever runs on a token that this entry's own prepare published earlier.  The
      publishing prepare, begun at `b`, had fenced every prepare launch it made, and none of its
      launches and fences failed. */
  lemma TokensAreIssued(log: Log, j: nat) returns (i: nat, b: nat)
    requires Disciplined(log) && j < |log| && log[j].Accepted?
    ensures b < i < j && log[i] == Issued(log[j].owner, log[j].state)
    ensures Fenced(log[..i])
    ensures log[b] == Begin(log[j].owner)
    ensures forall k :: b < k < i && log[k].owner == log[j].owner ==> !Failed(log[k])
  {
    DisciplinedAt(log, j);
    i :| 0 <= i < j && log[..j][i] == Issued(log[j].owner, log[j].state);
    DisciplinedAt(log, i);
    b := UnfailedWitness(log[..i], log[j].owner);
  }

  lemma {:induction false} UnfailedWitness(log: Log, owner: nat) returns (b: nat)
    requires Unfailed(log, owner)
    ensures b < |log| && log[b] == Begin(owner)
    ensures forall k :: b < k < |log| && log[k].owner == owner ==> !Failed(log[k]) && log[k] != Begin(owner)
  {
    if Last(log) == Begin(owner) {
      b := |log| - 1;
    } else {
      b := UnfailedWitness(Front(log), owner);
    }
  }

  /** An entry closes only through an attempt in which nothing failed: whatever launch or fence of
      it failed before, a later attempt began after that and had no failure at all. */
  lemma FailureBlocksClosing(log: Log, i: nat, j: nat) returns (b: nat)
    requires Disciplined(log) && i < j < |log| && Failed(log[i])
    requires log[j] in {Released(log[i].owner), Retired(log[i].owner)}
    ensures i < b < j && log[b] == Begin(log[i].owner)
    ensures forall k :: b < k < j && log[k].owner == log[i].owner ==> !Failed(log[k])
  {
    DisciplinedAt(log, j);
    b := UnfailedWitness(log[..j], log[i].owner);
  }

  /** The attempt that closes an entry launched every destroy the entry ever recorded, and each of
      those launches returned. */
  lemma EveryDestroyReturned(log: Log, i: nat, j: nat) returns (b: nat, d: nat)
    requires Disciplined(log) && i < |log| && j < |log| && log[i].Owed?
    requires log[j] in {Released(log[i].owner), Retired(log[i].owner)}
    ensures b < d < j && i < d && log[b] == Begin(log[i].owner)
    ensures log[d] == Invoke(log[i].owner, log[i].row.step, log[i].row.frame, true)
    ensures forall k :: b < k < j && log[k].owner == log[i].owner ==> !Failed(log[k]) && !log[k].Begin?
  {
    var owner, row := log[i].owner, log[i].row;
    DisciplinedAt(log, j);
    DisciplinedAt(log, i);
    OpenIsEarlier(log, i, j, owner);
    assert log[..j][i] == log[i];
    b := UnfailedWitness(log[..j], owner);
    d := ReturnedWitness(log[..j], owner, row, b);
    DisciplinedAt(log, d);
    OpenIsEarlier(log, i, d, owner);
  }

  lemma OpenIsEarlier(log: Log, i: nat, j: nat, owner: nat)
    requires i <= |log| && j <= |log| && Open(log[..i], owner) && !Open(log[..j], owner)
    ensures i < j
  {
  }

  lemma {:induction false} ReturnedWitness(log: Log, owner: nat, row: DestroyRow, b: nat) returns (d: nat)
    requires Returned(log, owner, row) && b < |log| && log[b] == Begin(owner)
    ensures b < d < |log| && log[d] == Invoke(owner, row.step, row.frame, true)
  {
    if Last(log) == Invoke(owner, row.step, row.frame, true) {
      d := |log| - 1;
    } else {
      d := ReturnedWitness(Front(log), owner, row, b);
    }
  }

  /** Events that do not fail keep a method unfailed. */
  lemma {:induction false} UnfailedStays(log: Log, events: Log, owner: nat)
    requires Unfailed(log, owner) && forall e :: e in events ==> !Failed(e)
    ensures Unfailed(log + events, owner)
  {
    if events == [] {
      assert log + events == log;
    } else {
      UnfailedStays(log, Front(events), owner);
      assert Front(log + events) == log + Front(events) && Last(log + events) == Last(events);
      assert Last(events) in events;
    }
  }

  /** A returned row stays so within the method. */
  lemma {:induction false} ReturnedStays(log: Log, events: Log, owner: nat, row: DestroyRow)
    requires Returned(log, owner, row) && Begin(owner) !in events
    ensures Returned(log + events, owner, row)
  {
    if events == [] {
      assert log + events == log;
    } else {
      ReturnedStays(log, Front(events), owner, row);
      assert Front(log + events) == log + Front(events) && Last(log + events) == Last(events);
      assert Last(events) in events;
    }
  }

  /** Once teardown has begun an entry makes no allocation and launches nothing but destroy
      steps; once it has closed it launches nothing at all. */
  lemma {:induction false} NothingAfterClose(log: Log, i: nat, j: nat)
    requires Disciplined(log) && i < j < |log| && log[i].owner == log[j].owner
    ensures log[i].Closing? ==>
              !log[j].Alloc? && !log[j].Accepted? && !log[j].Issued? &&
              (log[j].Invoke? ==> log[j].step.role == Destroy)
    ensures log[i].Released? || log[i].Retired? ==> !log[j].Invoke? && !log[j].Released? && !log[j].Retired?
  {
    DisciplinedAt(log, j);
    var before := log[..j];
    assert before[i] == log[i];
    if log[i].Released? || log[i].Retired? {
      DisciplinedAt(log, i);
      var k :| 0 <= k < i && log[..i][k] == Closing(log[i].owner);
      assert before[k] == Closing(log[i].owner);
    }
  }

  /** Frames and reservations are only given back after a fence that follows every launch the
      entry ever made. */
  lemma ReleaseIsFenced(log: Log, i: nat, j: nat) returns (f: nat)
    requires Disciplined(log) && i < j < |log|
    requires log[i].Invoke? && log[j] == Released(log[i].owner)
    ensures i < f < j && log[f].Sync? && log[f].ok
  {
    DisciplinedAt(log, j);
    f := SettledWitness(log[..j], log[i].owner, i);
  }

  lemma {:induction false} SettledWitness(log: Log, owner: nat, i: nat) returns (f: nat)
    requires Settled(log, owner) && i < |log| && log[i].Invoke? && log[i].owner == owner
    ensures i < f < |log| && log[f].Sync? && log[f].ok
  {
    if Last(log).Sync? && Last(log).ok {
      f := |log| - 1;
    } else {
      f := SettledWitness(Front(log), owner, i);
    }
  }

  /** How one more event moves the three look-back predicates. */
  lemma Append(log: Log, e: Event)
    ensures Disciplined(log + [e]) <==> Disciplined(log) && Allowed(log, e)
    ensures Clear(log + [e]) <==> if e.Query? then e.answer == Some(false) else !e.Begin? && Clear(log)
    ensures Fenced(log + [e]) <==>
              (e.Begin? || (e.Sync? && e.ok) || (Fenced(log) && !(e.Invoke? && e.step.role == Prepare)))
    ensures forall o :: Settled(log + [e], o) <==>
              ((e.Sync? && e.ok) || (Settled(log, o) && !(e.Invoke? && e.owner == o)))
  {
    assert Front(log + [e]) == log && Last(log + [e]) == e;
  }

  /** Only `owner`'s events were added. */
  ghost predicate Extends(owner: nat, before: Log, after: Log) {
    && before <= after
    && forall i :: |before| <= i < |after| ==> after[i].owner == owner
  }

  lemma {:induction false} ExtendsKeeps(owner: nat, before: Log, after: Log, e: Event)
    requires Extends(owner, before, after) && e.owner != owner
    ensures e in before <==> e in after
  {
    if e in after {
      var i :| 0 <= i < |after| && after[i] == e;
      assert i < |before| && before[i] == e;
    }
  }

  /** One recorded destroy launch, in recording order. */
  datatype DestroyRow = DestroyRow(name: string, number: nat, key: LifecycleKey, step: Step, frame: Frame)

  /** The events of launching `steps` in order on one frame, each of them returning. */
  ghost function Invocations(owner: nat, steps: seq<Step>, frame: Frame): (events: Log)
    ensures |events| == |steps|
    ensures forall i :: 0 <= i < |steps| ==> events[i] == Invoke(owner, steps[i], frame, true)
  {
    if steps == [] then []
    else Invocations(owner, steps[..|steps| - 1], frame) + [Invoke(owner, steps[|steps| - 1], frame, true)]
  }

  /** Launching `steps` in order stopped at the first that failed, the `n`-th. */
  ghost predicate StoppedAt(log: Log, log': Log, owner: nat, steps: seq<Step>, frame: Frame, n: nat) {
    n < |steps| && log' == log + Invocations(owner, steps[..n], frame) + [Invoke(owner, steps[n], frame, false)]
  }

  /** The launches of one teardown, in recording order, with what became of each. */
  ghost function RowEvents(owner: nat, rows: seq<DestroyRow>, answers: seq<bool>): (events: Log)
    requires |answers| == |rows|
    ensures |events| == |rows|
    ensures forall i :: 0 <= i < |rows| ==> events[i] == Invoke(owner, rows[i].step, rows[i].frame, answers[i])
  {
    if rows == [] then []
    else
      var n := |rows| - 1;
      RowEvents(owner, rows[..n], answers[..n]) + [Invoke(owner, rows[n].step, rows[n].frame, answers[n])]
  }

  lemma MoreSteps(owner: nat, steps: seq<Step>, i: nat, frame: Frame)
    requires i < |steps|
    ensures Invocations(owner, steps[..i + 1], frame) ==
            Invocations(owner, steps[..i], frame) + [Invoke(owner, steps[i], frame, true)]
  {
    assert steps[..i + 1][..i] == steps[..i];
  }

  lemma MoreRows(owner: nat, rows: seq<DestroyRow>, i: nat, answers: seq<bool>, answer: bool)
    requires i < |rows| && |answers| == i
    ensures RowEvents(owner, rows[..i + 1], answers + [answer]) ==
            RowEvents(owner, rows[..i], answers) + [Invoke(owner, rows[i].step, rows[i].frame, answer)]
  {
    assert rows[..i + 1][..i] == rows[..i] && (answers + [answer])[..i] == answers;
  }

  /** A launch opens and shuts nothing. */
  lemma LaunchMarksNothing(log: Log, e: Event, owner: nat)
    requires e.Invoke?
    ensures Open(log + [e], owner) == Open(log, owner) && Shut(log + [e], owner) == Shut(log, owner)
  {
  }

  ghost function StepsOf(rows: seq<DestroyRow>): (steps: seq<Step>)
    ensures |steps| == |rows| && forall i :: 0 <= i < |rows| ==> steps[i] == rows[i].step
  {
    seq(|rows|, i requires 0 <= i < |rows| => rows[i].step)
  }

  lemma {:induction false} ReturnedAt(log: Log, owner: nat, row: DestroyRow, i: nat)
    requires i < |log| && log[i] == Invoke(owner, row.step, row.frame, true)
    requires forall k :: i < k < |log| ==> log[k] != Begin(owner)
    ensures Returned(log, owner, row)
  {
    if i < |log| - 1 {
      ReturnedAt(Front(log), owner, row, i);
    }
  }

  /** After a round of destroys that all returned, every row has returned. */
  lemma RowsReturned(log: Log, owner: nat, rows: seq<DestroyRow>, answers: seq<bool>)
    requires |answers| == |rows| && false !in answers
    ensures forall row :: row in rows ==> Returned(log + RowEvents(owner, rows, answers), owner, row)
  {
    hide Returned;
    forall row | row in rows
      ensures Returned(log + RowEvents(owner, rows, answers), owner, row)
    {
      var i :| 0 <= i < |rows| && rows[i] == row;
      assert answers[i] in answers;
      ReturnedAt(log + RowEvents(owner, rows, answers), owner, row, |log| + i);
    }
  }

  /** What an entry's operation may do to the device: launches and fences. */
  ghost predicate DeviceUsed(before: CubinProtocol.Log, after: CubinProtocol.Log) {
    CubinProtocol.OnlyUses(before, after)
  }

  lemma NothingUsed(log: CubinProtocol.Log)
    ensures DeviceUsed(log, log)
  {
  }

  lemma UsedThen(a: CubinProtocol.Log, b: CubinProtocol.Log, c: CubinProtocol.Log)
    requires DeviceUsed(a, b) && DeviceUsed(b, c)
    ensures DeviceUsed(a, c)
  {
    CubinProtocol.UsesThen(a, b, c);
  }

  /** The runtime's whole plan was launched, row by row, for some bindings. */
  ghost predicate RanForSome(runtime: DeviceRuntime.Runtime, before: CubinProtocol.Log, after: CubinProtocol.Log) {
    exists bindings: seq<Expression.Live> :: runtime.Ran(before, after, bindings)
  }

  lemma RanForThese(
    runtime: DeviceRuntime.Runtime, before: CubinProtocol.Log, after: CubinProtocol.Log,
    bindings: seq<Expression.Live>)
    requires runtime.Ran(before, after, bindings)
    ensures RanForSome(runtime, before, after)
  {
  }

  /** What a step that returned did to the device: the whole plan of its runtime, or, with an
      executor that is no device runtime, nothing. */
  ghost predicate StepRan(runtimes: seq<DeviceRuntime.Runtime>, step: Step, before: CubinProtocol.Log,
                          after: CubinProtocol.Log) {
    if step.executor < |runtimes| then RanForSome(runtimes[step.executor], before, after) else after == before
  }

  /** What steps that all returned did to the device: one plan after the other, in step order. */
  ghost predicate StepsRan(runtimes: seq<DeviceRuntime.Runtime>, steps: seq<Step>, before: CubinProtocol.Log,
                           after: CubinProtocol.Log) {
    if steps == [] then after == before
    else
      var n := |steps| - 1;
      exists middle :: StepsRan(runtimes, steps[..n], before, middle) && StepRan(runtimes, steps[n], middle, after)
  }

  lemma NoStepsRan(runtimes: seq<DeviceRuntime.Runtime>, log: CubinProtocol.Log)
    ensures StepsRan(runtimes, [], log, log)
  {
  }

  lemma StepsRanOn(runtimes: seq<DeviceRuntime.Runtime>, steps: seq<Step>, i: nat, before: CubinProtocol.Log,
                   middle: CubinProtocol.Log, after: CubinProtocol.Log)
    requires i < |steps| && StepsRan(runtimes, steps[..i], before, middle) && StepRan(runtimes, steps[i], middle, after)
    ensures StepsRan(runtimes, steps[..i + 1], before, after)
  {
    assert steps[..i + 1][..i] == steps[..i];
  }

  /** The captured provider surface, with the device runtimes that execute the steps. */
  class Provider {
    const worker: DeviceRuntime.Worker
    const queriesCapture: bool // a provider without the query never captures
    ghost var log: Log

    constructor (worker: DeviceRuntime.Worker, queriesCapture: bool)
      ensures log == [] && this.worker == worker && this.queriesCapture == queriesCapture
    {
      this.worker, this.queriesCapture := worker, queriesCapture;
      log := [];
    }

    ghost method Record(e: Event)
      requires Disciplined(log) && Allowed(log, e)
      modifies this
      ensures log == old(log) + [e] && Disciplined(log)
      ensures !e.Query? && !e.Begin? ==> Clear(log) == old(Clear(log))
      ensures !e.Invoke? && !e.Sync? && !e.Begin? ==> Fenced(log) == old(Fenced(log))
      ensures !e.Invoke? && !e.Sync? ==> forall o :: Settled(log, o) == old(Settled(log, o))
      ensures e.Begin? ==> Fenced(log)
      ensures old(worker.Valid()) ==> worker.Valid()
    {
      Append(log, e);
      Note(e);
    }

    method IsCapturing(ghost owner: nat) returns (answer: Option<bool>)
      requires Disciplined(log)
      modifies this
      ensures log == old(log) + [Query(owner, answer)] && Disciplined(log)
      ensures Clear(log) <==> answer == Some(false)
      ensures !queriesCapture ==> answer == Some(false)
      ensures old(worker.Valid()) ==> worker.Valid()
      ensures Fenced(log) == old(Fenced(log))
    {
      answer := *;
      if !queriesCapture {
        answer := Some(false);
      }
      Append(log, Query(owner, answer));
      Note(Query(owner, answer));
    }

    method Allocate(ghost owner: nat, dims: seq<int>, width: int, alignment: int) returns (tensor: Option<Value>)
      requires Disciplined(log) && Clear(log) && Open(log, owner)
      modifies this
      ensures log == old(log) + [Alloc(owner, dims, width, alignment, tensor)] && Disciplined(log)
      ensures Clear(log) && Fenced(log) == old(Fenced(log))
      ensures old(worker.Valid()) ==> worker.Valid()
    {
      tensor := *;
      Append(log, Alloc(owner, dims, width, alignment, tensor));
      Note(Alloc(owner, dims, width, alignment, tensor));
    }

    method ValidateAllocation(ghost owner: nat, tensor: Value, dims: seq<int>, alignment: int) returns (ok: bool)
      requires Disciplined(log)
      modifies this
      ensures log == old(log) + [Vetted(owner, tensor, ok)] && Disciplined(log)
      ensures Clear(log) == old(Clear(log)) && Fenced(log) == old(Fenced(log))
      ensures old(worker.Valid()) ==> worker.Valid()
    {
      ok := *;
      Record(Vetted(owner, tensor, ok));
    }

    /** Prelaunch fills and binding projection, which may fail, and then the step's device runtime
        on whatever bindings they gave.  An executor that is no device runtime answers anything and
        does not touch this device binding. */
    method Launch(ghost owner: nat, step: Step, frame: Frame) returns (ok: bool)
      requires Disciplined(log) && Allowed(log, Invoke(owner, step, frame, true)) && worker.Valid()
      modifies this, worker.driver
      ensures log == old(log) + [Invoke(owner, step, frame, ok)] && Disciplined(log)
      ensures Clear(log) == old(Clear(log))
      ensures step.role != Prepare ==> Fenced(log) == old(Fenced(log))
      ensures worker.Valid() && DeviceUsed(old(worker.driver.log), worker.driver.log)
      ensures step.executor < |worker.runtimes| ==>
                CubinProtocol.OnlyHandle(worker.runtimes[step.executor].library.origin,
                                         old(worker.driver.log), worker.driver.log)
      ensures step.executor < |worker.runtimes| && worker.runtimes[step.executor].library.closed ==> !ok
      ensures ok ==> StepRan(worker.runtimes, step, old(worker.driver.log), worker.driver.log)
    {
      hide Disciplined, Clear, Fenced, DeviceRuntime.Worker.Valid, DeviceRuntime.Runtime.Ran, RanForSome;
      ok := *;
      if ok && step.executor < |worker.runtimes| {
        var bindings: seq<Expression.Live> := *;
        var called := worker.CallOne(step.executor, bindings);
        ok := called.Ok?;
        if ok {
          RanForThese(worker.runtimes[step.executor], old(worker.driver.log), worker.driver.log, bindings);
        }
      }
      Append(log, Invoke(owner, step, frame, ok));
      Note(Invoke(owner, step, frame, ok));
    }

    /** Extend the log; the device is not touched. */
    ghost method Note(e: Event)
      modifies this
      ensures log == old(log) + [e] && (old(worker.Valid()) ==> worker.Valid())
    {
      hide DeviceRuntime.Worker.Valid;
      log := log + [e];
    }

    /** The device-wide fence. */
    method Synchronize(ghost owner: nat) returns (ok: bool)
      requires Disciplined(log) && worker.Valid()
      modifies this, worker.driver
      ensures log == old(log) + [Sync(owner, ok)] && Disciplined(log)
      ensures Clear(log) == old(Clear(log))
      ensures ok ==> Fenced(log) && forall o :: Settled(log, o)
      ensures worker.Valid() && DeviceUsed(old(worker.driver.log), worker.driver.log)
      ensures worker.driver.log == old(worker.driver.log) + [CubinProtocol.Fence(ok)]
    {
      hide Disciplined, Clear, Fenced, Settled, DeviceRuntime.Worker.Valid;
      ok := worker.Fence();
      Append(log, Sync(owner, ok));
      Note(Sync(owner, ok));
    }

    method ExecutionScope(ghost owner: nat) returns (scope: Option<nat>)
      requires Disciplined(log)
      modifies this
      ensures log == old(log) + [Scope(owner, scope)] && Disciplined(log)
      ensures Clear(log) == old(Clear(log)) && Fenced(log) == old(Fenced(log))
      ensures old(worker.Valid()) ==> worker.Valid()
    {
      scope := *;
      Record(Scope(owner, scope));
    }

    /** Hand the steps of one phase to their executors, stopping at the first failure. */
    method LaunchSteps(ghost owner: nat, steps: seq<Step>, frame: Frame) returns (ok: bool)
      requires Disciplined(log) && Open(log, owner) && worker.Valid()
      requires forall s :: s in steps ==> s.role != Destroy && (s.role in {Init, Prepare} ==> Clear(log))
      modifies this, worker.driver
      ensures worker.Valid() && DeviceUsed(old(worker.driver.log), worker.driver.log)
      ensures Disciplined(log) && Clear(log) == old(Clear(log))
      ensures old(Fenced(log)) && (forall s :: s in steps ==> s.role != Prepare) ==> Fenced(log)
      ensures ok ==> log == old(log) + Invocations(owner, steps, frame)
      ensures ok ==> StepsRan(worker.runtimes, steps, old(worker.driver.log), worker.driver.log)
      ensures !ok ==> exists n :: StoppedAt(old(log), log, owner, steps, frame, n)
    {
      hide Disciplined, Clear, Fenced, DeviceRuntime.Worker.Valid, DeviceUsed, StepRan, StepsRan, Invocations, Open;
      NothingUsed(worker.driver.log);
      assert log + Invocations(owner, steps[..0], frame) == log;
      NoStepsRan(worker.runtimes, worker.driver.log);
      for i := 0 to |steps|
        invariant Disciplined(log) && Open(log, owner)
        invariant worker.Valid() && DeviceUsed(old(worker.driver.log), worker.driver.log)
        invariant StepsRan(worker.runtimes, steps[..i], old(worker.driver.log), worker.driver.log)
        invariant log == old(log) + Invocations(owner, steps[..i], frame)
        invariant Clear(log) == old(Clear(log))
        invariant old(Fenced(log)) && (forall s :: s in steps ==> s.role != Prepare) ==> Fenced(log)
      {
        ghost var before, launched := worker.driver.log, log;
        ok := Launch(owner, steps[i], frame);
        LaunchMarksNothing(launched, Last(log), owner);
        MoreSteps(owner, steps, i, frame);
        UsedThen(old(worker.driver.log), before, worker.driver.log);
        if !ok {
          assert StoppedAt(old(log), log, owner, steps, frame, i);
          return false;
        }
        StepsRanOn(worker.runtimes, steps, i, old(worker.driver.log), before, worker.driver.log);
      }
      assert steps[..|steps|] == steps;
      return true;
    }

    /** Attempt every recorded destroy exactly once, in order, whatever fails; succeed exactly if
        all of them return. */
    method LaunchRows(ghost owner: nat, rows: seq<DestroyRow>) returns (ok: bool, ghost answers: seq<bool>)
      requires Disciplined(log) && Clear(log) && !Open(log, owner) && !Shut(log, owner) && worker.Valid()
      requires forall row :: row in rows ==> row.step.role == Destroy
      modifies this, worker.driver
      ensures worker.Valid() && DeviceUsed(old(worker.driver.log), worker.driver.log)
      ensures Disciplined(log) && Clear(log)
      ensures |answers| == |rows| && log == old(log) + RowEvents(owner, rows, answers)
      ensures ok <==> false !in answers
      ensures ok ==> StepsRan(worker.runtimes, StepsOf(rows), old(worker.driver.log), worker.driver.log)
    {
      hide Disciplined, Clear, Fenced, DeviceRuntime.Worker.Valid, DeviceUsed, RowEvents, Open, Shut, StepRan, StepsRan;
      ok, answers := true, [];
      ghost var steps := StepsOf(rows);
      NoStepsRan(worker.runtimes, worker.driver.log);
      assert log + RowEvents(owner, rows[..0], []) == log;
      NothingUsed(worker.driver.log);
      for i := 0 to |rows|
        invariant worker.Valid() && DeviceUsed(old(worker.driver.log), worker.driver.log)
        invariant Disciplined(log) && Clear(log) && !Open(log, owner) && !Shut(log, owner)
        invariant |answers| == i && log == old(log) + RowEvents(owner, rows[..i], answers)
        invariant ok <==> false !in answers
        invariant ok ==> StepsRan(worker.runtimes, steps[..i], old(worker.driver.log), worker.driver.log)
      {
        ghost var before, launched := worker.driver.log, log;
        var done := Launch(owner, rows[i].step, rows[i].frame);
        UsedThen(old(worker.driver.log), before, worker.driver.log);
        LaunchMarksNothing(launched, Last(log), owner);
        MoreRows(owner, rows, i, answers, done);
        if ok && done {
          StepsRanOn(worker.runtimes, steps, i, old(worker.driver.log), before, worker.driver.log);
        }
        ok, answers := ok && done, answers + [done];
      }
      assert rows[..|rows|] == rows && steps[..|rows|] == steps;
    }
  }
}
