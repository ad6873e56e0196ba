/** The scheduler activation window of the discovery overlay.

    Each method is one critical section of the spawn lock.  Starting a process, its liveness and
    the environment variables are outside the program and answer arbitrarily. */
module Activation {
  import opened Outcome
  import opened Permutation

  const MAX_MEMBERS := 64
  const SCHEDULER_ROLE := "scheduler"

  datatype Error =
    | BadRequest | AlreadyArmed | OutsideWindow | NotSpawn | WrongSignature | DuplicateMember
    | StartFailed | BadPid | DuplicatePid | WindowDiffers | Incomplete | NotLive | BadOrigin | ReceiptInvalid

  datatype Target = Scheduler | Trampoline | OtherTarget(id: nat)

  /** The scheduler's positional arguments, as far as they are read. */
  datatype Arguments = Arguments(
    tpSize: int, dpSize: int, ppSize: int, nodes: int, nodeRank: int,
    gpu: int, rank: int, cpRank: int, moeDpRank: int, moeEpRank: int, ppRank: int, dpRank: Option<int>)

  datatype Payload = Plain(arguments: Arguments) | Envelope(arguments: Arguments) | Unreadable(id: nat)

  datatype Member = Member(pid: int, gpu: int, rank: int, cpRank: int, moeDpRank: int, moeEpRank: int, ppRank: int,
                           dpRank: Option<int>)

  /** One armed observation window. */
  datatype Window = Window(id: nat, driverPid: int, identity: string, expected: int, observed: seq<Member>,
                           closed: bool) {
    predicate Sound() {
      && 1 <= expected <= MAX_MEMBERS && |observed| <= expected
      && Distinct(observed)
      && forall i :: 0 <= i < |observed| ==> InLane(observed[i])
    }
  }

  predicate InLane(m: Member) {
    m.pid >= 1 && m.gpu >= 0 && m.rank >= 0 && m.ppRank == 0 && m.dpRank == None
  }

  /** Ranks, devices and processes are pairwise different. */
  predicate Distinct(members: seq<Member>) {
    forall i, j :: 0 <= i < j < |members| ==> Apart(members[i], members[j])
  }

  /** Same rank or same device. */
  predicate Clashes(m: Member, n: Member) {
    m.rank == n.rank || m.gpu == n.gpu
  }

  predicate Apart(m: Member, n: Member) {
    m.rank != n.rank && m.gpu != n.gpu && m.pid != n.pid
  }

  predicate RanksBelow(members: seq<Member>, tpSize: int) {
    forall i :: 0 <= i < |members| ==> 0 <= members[i].rank < tpSize
  }

  predicate HasRank(members: seq<Member>, r: int) {
    exists i :: 0 <= i < |members| && members[i].rank == r
  }

  predicate NotDriver(members: seq<Member>, driverPid: int) {
    forall i :: 0 <= i < |members| ==> members[i].pid != driverPid
  }

  /** A usable process identifier that none of the members has. */
  predicate NewPid(child: Option<int>, members: seq<Member>) {
    child.Some? && child.value >= 1 && forall i :: 0 <= i < |members| ==> members[i].pid != child.value
  }

  datatype Receipt = Receipt(identity: string, driverPid: int, tpSize: int, members: seq<Member>) {
    /** The constructor's checks. */
    predicate Accepted() {
      && 1 <= tpSize <= MAX_MEMBERS && |members| == tpSize
      && (forall i, j :: 0 <= i < j < |members| ==> members[i].rank <= members[j].rank)
      && (forall i :: 0 <= i < |members| ==> 0 <= members[i].rank < tpSize)
      && (forall r :: 0 <= r < tpSize ==> HasRank(members, r))
      && (forall i, j :: 0 <= i < j < |members| ==>
                members[i].pid != members[j].pid && members[i].gpu != members[j].gpu)
      && (forall i :: 0 <= i < |members| ==> members[i].pid != driverPid)
      && (forall i :: 0 <= i < |members| ==> members[i].ppRank == 0 && members[i].dpRank == None)
    }
  }

  // ---- Ordering members by rank ----

  function Insert(members: seq<Member>, m: Member): (r: seq<Member>)
    ensures multiset(r) == multiset(members) + multiset{m}
  {
    if members == [] || m.rank < members[0].rank then [m] + members
    else
      assert members == [members[0]] + members[1..];
      [members[0]] + Insert(members[1..], m)
  }

  /** Python's stable sort by rank. */
  function ByRank(members: seq<Member>): (r: seq<Member>)
    ensures multiset(r) == multiset(members) && |r| == |members|
  {
    if members == [] then []
    else
      assert members == members[..|members| - 1] + [members[|members| - 1]];
      var r := Insert(ByRank(members[..|members| - 1]), members[|members| - 1]);
      assert |multiset(r)| == |r| && |multiset(members)| == |members|;
      r
  }

  predicate Ascending(members: seq<Member>) {
    forall i, j :: 0 <= i < j < |members| ==> members[i].rank <= members[j].rank
  }

  lemma {:induction false} InsertAscending(members: seq<Member>, m: Member)
    requires Ascending(members)
    ensures Ascending(Insert(members, m))
  {
    if members != [] && members[0].rank <= m.rank {
      InsertAscending(members[1..], m);
      var rest := Insert(members[1..], m);
      forall i | 0 <= i < |rest|
        ensures members[0].rank <= rest[i].rank
      {
        assert rest[i] in multiset(rest);
        if rest[i] != m {
          assert rest[i] in members[1..];
        }
      }
    }
  }

  lemma {:induction false} ByRankAscending(members: seq<Member>)
    ensures Ascending(ByRank(members))
  {
    if members != [] {
      ByRankAscending(members[..|members| - 1]);
      InsertAscending(ByRank(members[..|members| - 1]), members[|members| - 1]);
    }
  }

  /** Distinct ranks below `n`, in order, `n` of them: the member at `k` has rank `k`. */
  lemma {:induction false} RankAtLeast(members: seq<Member>, k: nat)
    requires Ascending(members) && Distinct(members) && k < |members| && members[0].rank >= 0
    ensures members[k].rank >= k
  {
    if k > 0 {
      RankAtLeast(members, k - 1);
      assert Apart(members[k - 1], members[k]);
    }
  }

  lemma {:induction false} RankAtMost(members: seq<Member>, k: nat)
    requires Ascending(members) && Distinct(members) && k < |members| && RanksBelow(members, |members|)
    ensures members[k].rank <= k
    decreases |members| - k
  {
    if k < |members| - 1 {
      RankAtMost(members, k + 1);
      assert Apart(members[k], members[k + 1]);
    }
  }

  lemma RankIsPosition(members: seq<Member>)
    requires Ascending(members) && Distinct(members) && RanksBelow(members, |members|)
    ensures forall k :: 0 <= k < |members| ==> members[k].rank == k
  {
    forall k | 0 <= k < |members|
      ensures members[k].rank == k
    {
      RankAtLeast(members, k);
      RankAtMost(members, k);
    }
  }

  /** A full window gives an acceptable receipt exactly when every recorded rank is below the
      expected count and no scheduler is the driver: the spawn hook checks neither. */
  lemma ReceiptAcceptedIff(w: Window)
    requires w.Sound() && |w.observed| == w.expected
    ensures var receipt := Receipt(w.identity, w.driverPid, w.expected, ByRank(w.observed));
            && (receipt.Accepted() <==> RanksBelow(w.observed, w.expected) && NotDriver(w.observed, w.driverPid))
            && (receipt.Accepted() ==> forall k :: 0 <= k < w.expected ==> receipt.members[k].rank == k)
  {
    hide ByRank, Ascending, RanksBelow, NotDriver, HasRank, Distinct;
    var sorted := ByRank(w.observed);
    ByRankAscending(w.observed);
    SameMembers(w.observed, sorted);
    DistinctPermutes(w.observed, sorted);
    MembersAgree(w.observed, sorted, w.expected, w.driverPid);
    SortedAccepted(Receipt(w.identity, w.driverPid, w.expected, sorted));
  }

  lemma DistinctPermutes(a: seq<Member>, b: seq<Member>)
    requires Distinct(a) && multiset(a) == multiset(b)
    ensures Distinct(b)
  {
    hide Apart;
    forall i, j | 0 <= i < j < |b|
      ensures Apart(b[i], b[j])
    {
      var x, y := PairFrom(a, b, i, j);
      ApartSymmetric(a[x], a[y]);
      assert if x < y then Apart(a[x], a[y]) else Apart(a[y], a[x]);
    }
  }

  lemma ApartSymmetric(m: Member, n: Member)
    ensures Apart(m, n) <==> Apart(n, m)
  {
  }

  lemma SortedAccepted(r: Receipt)
    requires 1 <= r.tpSize <= MAX_MEMBERS && |r.members| == r.tpSize && Ascending(r.members) && Distinct(r.members)
    requires forall i :: 0 <= i < |r.members| ==> InLane(r.members[i])
    ensures r.Accepted() <==> RanksBelow(r.members, r.tpSize) && NotDriver(r.members, r.driverPid)
    ensures r.Accepted() ==> forall k :: 0 <= k < r.tpSize ==> r.members[k].rank == k
  {
    if RanksBelow(r.members, r.tpSize) {
      RankIsPosition(r.members);
      hide RanksBelow;
      forall k | 0 <= k < r.tpSize
        ensures HasRank(r.members, k)
      {
        assert r.members[k].rank == k;
      }
      forall i, j | 0 <= i < j < |r.members|
        ensures r.members[i].pid != r.members[j].pid && r.members[i].gpu != r.members[j].gpu
      {
        assert Apart(r.members[i], r.members[j]);
      }
    }
  }

  lemma MembersAgree(a: seq<Member>, b: seq<Member>, n: int, driverPid: int)
    requires forall m :: m in a <==> m in b
    ensures RanksBelow(a, n) <==> RanksBelow(b, n)
    ensures NotDriver(a, driverPid) <==> NotDriver(b, driverPid)
    ensures (forall i :: 0 <= i < |a| ==> InLane(a[i])) <==> (forall i :: 0 <= i < |b| ==> InLane(b[i]))
  {
    assert forall i :: 0 <= i < |a| ==> a[i] in b;
    assert forall i :: 0 <= i < |b| ==> b[i] in a;
  }

  // ---- The driver process ----

  datatype Environment = Environment(
    role: Option<string>, parent: Option<int>, armed: bool, identity: Option<string>, driver: Option<int>)

  datatype Event =
    | Armed(id: nat, expected: int)
    /** A child start by `driver`, of a scheduler target or another: the environment around the start,
        the one the child inherited, and what the start answered. */
    | Spawned(driver: int, scheduler: bool, ambient: Environment, seen: Environment, ok: bool, child: Option<int>)
    | Recorded(id: nat, member: Member)
    | Issued(id: nat, receipt: Receipt)
    | Cleared

  type Log = seq<Event>

  /** The schedulers recorded in one window, in order. */
  ghost function RecordedIn(log: Log, id: nat): seq<Member> {
    if log == [] then []
    else
      var last := log[|log| - 1];
      RecordedIn(log[..|log| - 1], id) + if last.Recorded? && last.id == id then [last.member] else []
  }

  ghost predicate IssuedFor(log: Log, id: nat) {
    exists i :: 0 <= i < |log| && log[i].Issued? && log[i].id == id
  }

  /** Every window holds different schedulers, and no more than it was armed for. */
  ghost predicate WindowsSound(log: Log) {
    && (forall id :: Distinct(RecordedIn(log, id)))
    && (forall i :: 0 <= i < |log| && log[i].Armed? ==> |RecordedIn(log, log[i].id)| <= log[i].expected)
  }

  /** Every receipt was accepted, lists the schedulers recorded in its window in rank order, and is
      the only one of its window. */
  ghost predicate ReceiptsSound(log: Log) {
    && (forall i :: 0 <= i < |log| && log[i].Issued? ==> ReceiptSound(log[i].receipt, RecordedIn(log, log[i].id)))
    && (forall i, j :: 0 <= i < j < |log| && log[i].Issued? && log[j].Issued? ==> log[i].id != log[j].id)
  }

  ghost predicate ReceiptSound(r: Receipt, recorded: seq<Member>) {
    && r.Accepted() && r.members == ByRank(recorded)
    && forall k :: 0 <= k < r.tpSize ==> r.members[k].rank == k
  }

  /** The environment with the driver's scheduler markers in it. */
  function WithMarkers(env: Environment, driver: int): Environment {
    env.(role := Some(SCHEDULER_ROLE), parent := Some(driver))
  }

  /** The child inherits the markers exactly when it is a scheduler started while the flag is on, and
      otherwise the environment as it is. */
  predicate Inherits(e: Event) {
    e.Spawned? ==> e.seen == if e.ambient.armed && e.scheduler then WithMarkers(e.ambient, e.driver) else e.ambient
  }

  /** A scheduler's start under the flag that succeeded and reported this member's process. */
  predicate Started(e: Event, m: Member) {
    e.Spawned? && e.ok && e.scheduler && e.ambient.armed && e.child == Some(m.pid)
  }

  /** Every child inherits what it should, and every recorded scheduler was started right before. */
  ghost predicate StartsSound(log: Log) {
    && (forall i :: 0 <= i < |log| ==> Inherits(log[i]))
    && (forall i :: 0 <= i < |log| && log[i].Recorded? ==> i > 0 && Started(log[i - 1], log[i].member))
  }

  /** Only windows that were armed occur. */
  ghost predicate Numbered(log: Log, windows: nat) {
    && (forall i :: 0 <= i < |log| && (log[i].Armed? || log[i].Recorded? || log[i].Issued?) ==> log[i].id < windows)
    && forall id :: id >= windows ==> RecordedIn(log, id) == []
  }

  ghost predicate LogSound(log: Log, windows: nat) {
    WindowsSound(log) && ReceiptsSound(log) && StartsSound(log) && Numbered(log, windows)
  }

  /** The open window is the one the log tells of. */
  ghost predicate WindowAgrees(w: Window, log: Log, windows: nat) {
    && w.Sound() && w.id < windows && w.observed == RecordedIn(log, w.id)
    && (IssuedFor(log, w.id) <==> w.closed)
    && forall i :: 0 <= i < |log| && log[i].Armed? && log[i].id == w.id ==> log[i].expected == w.expected
  }

  // ---- How each event keeps the log ----

  lemma RecordedAppend(log: Log, e: Event)
    ensures forall id :: !(e.Recorded? && e.id == id) ==> RecordedIn(log + [e], id) == RecordedIn(log, id)
    ensures e.Recorded? ==> RecordedIn(log + [e], e.id) == RecordedIn(log, e.id) + [e.member]
  {
    assert (log + [e])[..|log|] == log;
    assert forall id :: RecordedIn(log, id) + [] == RecordedIn(log, id);
  }

  lemma IssuedAppend(log: Log, e: Event)
    ensures forall id :: IssuedFor(log + [e], id) <==> IssuedFor(log, id) || (e.Issued? && e.id == id)
  {
    var next := log + [e];
    forall id
      ensures IssuedFor(next, id) <==> IssuedFor(log, id) || (e.Issued? && e.id == id)
    {
      if IssuedFor(log, id) {
        var i :| 0 <= i < |log| && log[i].Issued? && log[i].id == id;
        assert next[i] == log[i];
      }
      assert next[|log|] == e;
    }
  }

  lemma Prefix(log: Log, e: Event)
    ensures var next := log + [e];
            |next| == |log| + 1 && next[|log|] == e && forall i :: 0 <= i < |log| ==> next[i] == log[i]
  {
  }

  lemma WindowsKept(log: Log, e: Event)
    requires WindowsSound(log)
    requires e.Armed? ==> |RecordedIn(log, e.id)| <= e.expected
    requires e.Recorded? ==> Distinct(RecordedIn(log, e.id) + [e.member])
    requires e.Recorded? ==> forall i :: 0 <= i < |log| && log[i].Armed? && log[i].id == e.id ==>
               |RecordedIn(log, e.id)| < log[i].expected
    ensures WindowsSound(log + [e])
  {
    RecordedAppend(log, e);
    Prefix(log, e);
    hide RecordedIn, Distinct;
  }

  lemma ReceiptsKept(log: Log, e: Event)
    requires ReceiptsSound(log) && (e.Recorded? || e.Issued? ==> !IssuedFor(log, e.id))
    requires e.Issued? ==> ReceiptSound(e.receipt, RecordedIn(log, e.id))
    ensures ReceiptsSound(log + [e])
  {
    RecordedAppend(log, e);
    Prefix(log, e);
    if e.Recorded? || e.Issued? {
      NotIssued(log, e.id);
    }
    hide RecordedIn, ReceiptSound, IssuedFor;
  }

  lemma NumberedKept(log: Log, e: Event, windows: nat, more: nat)
    requires Numbered(log, windows) && windows <= more
    requires e.Armed? || e.Recorded? || e.Issued? ==> e.id < more
    ensures Numbered(log + [e], more)
  {
    RecordedAppend(log, e);
    Prefix(log, e);
    hide RecordedIn;
  }

  lemma StartsKept(log: Log, e: Event)
    requires StartsSound(log) && Inherits(e)
    requires e.Recorded? ==> log != [] && Started(log[|log| - 1], e.member)
    ensures StartsSound(log + [e])
  {
    Prefix(log, e);
    hide Inherits, Started;
  }

  /** A window not concerned by the event still agrees with the log. */
  lemma AgreesKept(w: Window, log: Log, e: Event, windows: nat)
    requires WindowAgrees(w, log, windows) && (e.Spawned? || e.Cleared?)
    ensures WindowAgrees(w, log + [e], windows)
  {
    RecordedAppend(log, e);
    IssuedAppend(log, e);
    Prefix(log, e);
    hide RecordedIn, IssuedFor, Window.Sound;
  }

  /** An event that opens, fills and closes no window. */
  lemma QuietEvent(log: Log, e: Event, windows: nat)
    requires LogSound(log, windows) && (e.Spawned? || e.Cleared?) && Inherits(e)
    ensures LogSound(log + [e], windows)
    ensures forall w :: WindowAgrees(w, log, windows) ==> WindowAgrees(w, log + [e], windows)
  {
    hide WindowsSound, ReceiptsSound, StartsSound, Numbered, WindowAgrees;
    WindowsKept(log, e);
    ReceiptsKept(log, e);
    StartsKept(log, e);
    NumberedKept(log, e, windows, windows);
    forall w | WindowAgrees(w, log, windows)
      ensures WindowAgrees(w, log + [e], windows)
    {
      AgreesKept(w, log, e, windows);
    }
  }

  lemma ArmedEvent(log: Log, windows: nat, w: Window)
    requires LogSound(log, windows) && w.id == windows && w.observed == [] && !w.closed && w.Sound()
    ensures var e := Armed(windows, w.expected);
            LogSound(log + [e], windows + 1) && WindowAgrees(w, log + [e], windows + 1)
  {
    var e := Armed(windows, w.expected);
    assert w.expected >= 1;
    Unused(log, windows);
    ArmedAgrees(log, windows, w);
    hide WindowsSound, ReceiptsSound, StartsSound, Numbered, RecordedIn, IssuedFor, Window.Sound, WindowAgrees;
    WindowsKept(log, e);
    ReceiptsKept(log, e);
    StartsKept(log, e);
    NumberedKept(log, e, windows, windows + 1);
  }

  lemma ArmedAgrees(log: Log, windows: nat, w: Window)
    requires Numbered(log, windows) && w.id == windows && w.observed == [] && !w.closed && w.Sound()
    ensures WindowAgrees(w, log + [Armed(windows, w.expected)], windows + 1)
  {
    var e := Armed(windows, w.expected);
    Unused(log, windows);
    RecordedAppend(log, e);
    IssuedAppend(log, e);
    Prefix(log, e);
    hide Numbered, RecordedIn, IssuedFor, Window.Sound;
  }

  lemma Unused(log: Log, windows: nat)
    requires Numbered(log, windows)
    ensures !IssuedFor(log, windows) && RecordedIn(log, windows) == []
    ensures forall i :: 0 <= i < |log| && log[i].Armed? ==> log[i].id != windows
  {
    hide RecordedIn;
  }

  lemma RecordedEvent(log: Log, windows: nat, w: Window, m: Member)
    requires LogSound(log, windows) && WindowAgrees(w, log, windows) && !w.closed
    requires w.(observed := w.observed + [m]).Sound() && log != [] && Started(log[|log| - 1], m)
    ensures var e := Recorded(w.id, m);
            LogSound(log + [e], windows) && WindowAgrees(w.(observed := w.observed + [m]), log + [e], windows)
  {
    var e := Recorded(w.id, m);
    RecordedAppend(log, e);
    IssuedAppend(log, e);
    Prefix(log, e);
    hide WindowsSound, ReceiptsSound, StartsSound, Numbered, RecordedIn, IssuedFor, Distinct;
    WindowsKept(log, e);
    ReceiptsKept(log, e);
    StartsKept(log, e);
    NumberedKept(log, e, windows, windows);
  }

  lemma NotIssued(log: Log, id: nat)
    requires !IssuedFor(log, id)
    ensures forall i :: 0 <= i < |log| && log[i].Issued? ==> log[i].id != id
  {
  }

  lemma IssuedEvent(log: Log, windows: nat, w: Window, r: Receipt)
    requires LogSound(log, windows) && WindowAgrees(w, log, windows) && !w.closed && ReceiptSound(r, w.observed)
    ensures var e := Issued(w.id, r);
            LogSound(log + [e], windows) && WindowAgrees(w.(closed := true), log + [e], windows)
  {
    var e := Issued(w.id, r);
    RecordedAppend(log, e);
    IssuedAppend(log, e);
    Prefix(log, e);
    hide WindowsSound, ReceiptsSound, StartsSound, Numbered, RecordedIn, IssuedFor, ReceiptSound, Distinct;
    WindowsKept(log, e);
    ReceiptsKept(log, e);
    StartsKept(log, e);
    NumberedKept(log, e, windows, windows);
  }

  class Process {
    var target: Target
    var payload: Payload
    var pid: Option<int>

    constructor (target: Target, payload: Payload)
      ensures this.target == target && this.payload == payload
    {
      this.target, this.payload, pid := target, payload, None;
    }
  }

  class Hook {
    const pid: int // this process
    var window: Option<Window>
    var env: Environment
    var windows: nat // windows armed so far; stands for object identity
    ghost var log: Log

    ghost predicate Valid()
      reads this
    {
      LogSound(log, windows) && (window.Some? ==> WindowAgrees(window.value, log, windows))
    }

    constructor (pid: int, env: Environment)
      ensures Valid() && window == None && log == [] && this.env == env && this.pid == pid
    {
      this.pid, this.env := pid, env;
      window, windows, log := None, 0, [];
    }

    /** Other code may change the environment between critical sections. */
    method SetEnvironment(e: Environment)
      requires Valid()
      modifies this`env
      ensures Valid() && env == e
    {
      hide LogSound, WindowAgrees;
      env := e;
    }

    method Arm(identityValid: bool, identity: string, members: int, driverPid: int) returns (r: Result<(), Error>)
      requires Valid()
      modifies this`window, this`windows, this`log
      ensures Valid()
      ensures r.Ok? <==> identityValid && 1 <= members <= MAX_MEMBERS && driverPid >= 1 && old(window).None?
      ensures r.Ok? ==> window == Some(Window(old(windows), driverPid, identity, members, [], false))
      ensures r.Ok? ==> log == old(log) + [Armed(old(windows), members)]
      ensures r.Err? ==> window == old(window) && log == old(log)
    {
      hide LogSound, WindowAgrees;
      if !identityValid || !(1 <= members <= MAX_MEMBERS) || driverPid < 1 {
        return Err(BadRequest);
      }
      if window.Some? {
        return Err(AlreadyArmed);
      }
      var w := Window(windows, driverPid, identity, members, [], false);
      ArmedEvent(log, windows, w);
      window, log, windows := Some(w), log + [Armed(windows, members)], windows + 1;
      return Ok(());
    }

    method Clear()
      requires Valid()
      modifies this`window, this`log
      ensures Valid() && window == None && log == old(log) + [Cleared]
    {
      hide LogSound, WindowAgrees;
      QuietEvent(log, Cleared, windows);
      window, log := None, log + [Cleared];
    }

    /** The wrapped `start`: it may fail, and on success the process has some identifier.  The child
        inherits the environment as it is now. */
    method Original(p: Process, ghost scheduler: bool, ghost ambient: Environment) returns (ok: bool)
      modifies p`pid, this`log
      ensures log == old(log) + [Spawned(pid, scheduler, ambient, env, ok, p.pid)]
    {
      ok := *;
      p.pid := *;
      log := log + [Spawned(pid, scheduler, ambient, env, ok, p.pid)];
    }

    /** A scheduler start while the flag is on. */
    ghost predicate Hooked(p: Process)
      reads this`env, p`target
    {
      env.armed && p.target == Scheduler
    }

    /** The open window takes this scheduler. */
    ghost predicate Admits(payload: Payload, spawnMethod: bool, sealable: bool)
      reads this
    {
      && spawnMethod && sealable && window.Some?
      && var w := window.value;
         && !w.closed && w.driverPid == pid && |w.observed| < w.expected
         && env.identity == Some(w.identity) && env.driver == Some(w.driverPid)
         && PendingMember(payload, w.expected).Some?
         && forall i :: 0 <= i < |w.observed| ==>
              !Clashes(w.observed[i], PendingMember(payload, w.expected).value)
    }

    /** The hook on every process start.  Role markers, target and arguments are put back whatever
        happens; a scheduler is recorded only inside the armed window, only if its start succeeded,
        and only once per rank, device and process. */
    method Start(p: Process, spawnMethod: bool, sealable: bool) returns (r: Result<(), Error>)
      requires Valid()
      modifies p, this`env, this`log, this`window
      ensures Valid()
      ensures env == old(env) && p.target == old(p.target) && p.payload == old(p.payload)
      ensures r.Err? ==> window == old(window)
      ensures !Hooked(p) ==>
                && window == old(window) && (r.Err? ==> r.error == StartFailed)
                && log == old(log) + [Spawned(pid, p.target == Scheduler, env, env, r.Ok?, p.pid)]
      ensures Hooked(p) && !old(Admits(p.payload, spawnMethod, sealable)) ==>
                r.Err? && log == old(log) && p.pid == old(p.pid)
      ensures Hooked(p) && old(Admits(p.payload, spawnMethod, sealable)) ==>
                && var w, started := old(window).value, r != Err(StartFailed);
                   var spawned := Spawned(pid, true, env, WithMarkers(env, pid), started, p.pid);
                   && (r.Ok? <==> started && NewPid(p.pid, w.observed))
                   && (r.Err? ==> log == old(log) + [spawned])
                   && (r.Ok? ==>
                         var m := PendingMember(p.payload, w.expected).value.(pid := p.pid.value);
                         && window == Some(w.(observed := w.observed + [m]))
                         && log == old(log) + [spawned, Recorded(w.id, m)])
    {
      hide LogSound, WindowAgrees;
      ghost var before := log;
      if !env.armed || p.target != Scheduler {
        var started := Original(p, p.target == Scheduler, env);
        QuietEvent(before, log[|before|], windows);
        return if started then Ok(()) else Err(StartFailed);
      }
      if window.None? {
        return Err(OutsideWindow);
      }
      var w := window.value;
      if w.closed || w.driverPid != pid || |w.observed| >= w.expected ||
         env.identity != Some(w.identity) || env.driver != Some(w.driverPid) {
        return Err(OutsideWindow);
      }
      if !spawnMethod {
        return Err(NotSpawn);
      }
      var pending := PendingMember(p.payload, w.expected);
      if pending.None? || !sealable {
        return Err(WrongSignature);
      }
      if exists i :: 0 <= i < |w.observed| &&
           (w.observed[i].rank == pending.value.rank || w.observed[i].gpu == pending.value.gpu) {
        return Err(DuplicateMember);
      }
      var savedRole, savedParent, savedTarget, savedPayload := env.role, env.parent, p.target, p.payload;
      env := env.(role := Some(SCHEDULER_ROLE), parent := Some(pid));
      p.target, p.payload := Trampoline, Envelope(p.payload.arguments);
      var started := Original(p, savedTarget == Scheduler, old(env));
      QuietEvent(before, log[|before|], windows);
      r := Observe(started, p.pid, w, pending.value);
      env := env.(role := savedRole, parent := savedParent);
      p.payload, p.target := savedPayload, savedTarget;
    }

    /** What follows the start inside the guarded block. */
    method Observe(started: bool, child: Option<int>, w: Window, pending: Member) returns (r: Result<(), Error>)
      requires LogSound(log, windows) && window == Some(w) && WindowAgrees(w, log, windows)
      requires !w.closed && |w.observed| < w.expected
      requires forall q: int :: q >= 1 ==> InLane(pending.(pid := q))
      requires forall i :: 0 <= i < |w.observed| ==> !Clashes(w.observed[i], pending)
      requires log != [] && var e := log[|log| - 1];
                 e.Spawned? && e.scheduler && e.ambient.armed && e.ok == started && e.child == child
      modifies this`window, this`log
      ensures LogSound(log, windows) && window.Some? && WindowAgrees(window.value, log, windows)
      ensures r == Err(StartFailed) <==> !started
      ensures r.Ok? <==> started && NewPid(child, w.observed)
      ensures r.Err? ==> window == old(window) && log == old(log)
      ensures r.Ok? ==> window == Some(w.(observed := w.observed + [pending.(pid := child.value)]))
      ensures r.Ok? ==> log == old(log) + [Recorded(w.id, pending.(pid := child.value))]
    {
      hide LogSound;
      if !started {
        return Err(StartFailed);
      }
      if child.None? || child.value < 1 {
        return Err(BadPid);
      }
      var member := pending.(pid := child.value);
      if exists i :: 0 <= i < |w.observed| && w.observed[i].pid == member.pid {
        return Err(DuplicatePid);
      }
      RecordedEvent(log, windows, w, member);
      window, log := Some(w.(observed := w.observed + [member])), log + [Recorded(w.id, member)];
      return Ok(());
    }

    /** Close the window with one receipt, or leave it open and raise. */
    method Require(request: Request, allLive: bool, originOk: bool) returns (r: Result<Receipt, Error>)
      requires Valid()
      modifies this`window, this`log
      ensures Valid()
      ensures r.Err? ==> window == old(window) && log == old(log)
      ensures r.Ok? <==>
                && request.WellFormed() && old(window).Some? && request.Matches(old(window).value, env)
                && |old(window).value.observed| == old(window).value.expected && allLive && originOk
                && RanksBelow(old(window).value.observed, old(window).value.expected)
                && NotDriver(old(window).value.observed, old(window).value.driverPid)
      ensures r.Ok? ==> window == Some(old(window).value.(closed := true))
      ensures r.Ok? ==> log == old(log) + [Issued(window.value.id, r.value)]
      ensures r.Ok? ==>
                && r.value.identity == old(window).value.identity && r.value.driverPid == old(window).value.driverPid
                && r.value.tpSize == old(window).value.expected && ReceiptSound(r.value, old(window).value.observed)
    {
      hide RanksBelow, NotDriver, Receipt.Accepted, LogSound, WindowAgrees;
      if !request.identityValid || request.members < 1 || request.members > MAX_MEMBERS || request.driverPid < 1 {
        return Err(BadRequest);
      }
      if window.None? {
        return Err(WindowDiffers);
      }
      var w := window.value;
      if w.closed || w.driverPid != request.driverPid || w.identity != request.identity ||
         w.expected != request.members || !env.armed || env.identity != Some(request.identity) ||
         env.driver != Some(request.driverPid) || !request.rootMatches {
        return Err(WindowDiffers);
      }
      if |w.observed| != w.expected {
        return Err(Incomplete);
      }
      if !allLive {
        return Err(NotLive);
      }
      if !originOk {
        return Err(BadOrigin);
      }
      var receipt := Receipt(request.identity, request.driverPid, request.members, ByRank(w.observed));
      AgreeingIsSound(w, log, windows);
      ReceiptAcceptedIff(w);
      if !receipt.Accepted() {
        return Err(ReceiptInvalid);
      }
      IssuedEvent(log, windows, w, receipt);
      window, log := Some(w.(closed := true)), log + [Issued(w.id, receipt)];
      return Ok(receipt);
    }
  }

  lemma AgreeingIsSound(w: Window, log: Log, windows: nat)
    requires WindowAgrees(w, log, windows)
    ensures w.Sound()
  {
  }

  datatype Command =
    | DoArm(identityValid: bool, identity: string, members: int, driverPid: int)
    | DoStart(process: Process, spawnMethod: bool, sealable: bool)
    | DoRequire(request: Request, allLive: bool, originOk: bool)
    | DoClear
    | DoSetEnvironment(env: Environment)

  /** Every run of critical sections.  Each window records no more schedulers than it was armed for,
      all different; it yields at most one receipt, of exactly those schedulers with ranks 0 to
      tp-1 in order; every recorded scheduler is the process of a successful start right before; a
      child inherits the markers exactly when it is a scheduler started while the flag is on; and
      each process keeps its target and arguments. */
  method Run(hook: Hook, script: seq<Command>, ghost processes: set<Process>)
    requires hook.Valid() && forall c :: c in script && c.DoStart? ==> c.process in processes
    modifies hook, processes
    ensures hook.Valid() && old(hook.log) <= hook.log
    ensures forall id :: Distinct(RecordedIn(hook.log, id))
    ensures forall i :: 0 <= i < |hook.log| && hook.log[i].Armed? ==>
              |RecordedIn(hook.log, hook.log[i].id)| <= hook.log[i].expected
    ensures forall i, j :: 0 <= i < j < |hook.log| && hook.log[i].Issued? && hook.log[j].Issued? ==>
              hook.log[i].id != hook.log[j].id
    ensures forall i :: 0 <= i < |hook.log| && hook.log[i].Issued? ==>
              var r, recorded := hook.log[i].receipt, RecordedIn(hook.log, hook.log[i].id);
              && |r.members| == r.tpSize == |recorded| && multiset(r.members) == multiset(recorded)
              && forall k :: 0 <= k < r.tpSize ==> r.members[k].rank == k
    ensures forall i :: 0 <= i < |hook.log| && hook.log[i].Recorded? ==>
              i > 0 && Started(hook.log[i - 1], hook.log[i].member)
    ensures forall i :: 0 <= i < |hook.log| && hook.log[i].Spawned? ==>
              hook.log[i].seen ==
                if hook.log[i].ambient.armed && hook.log[i].scheduler
                then WithMarkers(hook.log[i].ambient, hook.log[i].driver) else hook.log[i].ambient
    ensures forall p :: p in processes ==> p.target == old(p.target) && p.payload == old(p.payload)
  {
    for i := 0 to |script|
      invariant hook.Valid() && old(hook.log) <= hook.log
      invariant forall p :: p in processes ==> p.target == old(p.target) && p.payload == old(p.payload)
    {
      hide Hook.Valid, ReceiptSound, PendingMember;
      assert script[i] in script;
      match script[i] {
        case DoArm(identityValid, identity, members, driverPid) =>
          var armed := hook.Arm(identityValid, identity, members, driverPid);
        case DoStart(process, spawnMethod, sealable) =>
          var started := hook.Start(process, spawnMethod, sealable);
        case DoRequire(request, allLive, originOk) =>
          var required := hook.Require(request, allLive, originOk);
        case DoClear =>
          hook.Clear();
        case DoSetEnvironment(env) =>
          hook.SetEnvironment(env);
      }
    }
    hide Distinct;
  }

  datatype Request = Request(identityValid: bool, identity: string, members: int, driverPid: int, rootMatches: bool) {
    predicate WellFormed() {
      identityValid && 1 <= members <= MAX_MEMBERS && driverPid >= 1
    }

    /** The window and the environment are the ones the caller names. */
    predicate Matches(w: Window, env: Environment) {
      && !w.closed && w.driverPid == driverPid && w.identity == identity && w.expected == members
      && env.armed && env.identity == Some(identity) && env.driver == Some(driverPid) && rootMatches
    }
  }

  /** The member a scheduler's arguments announce, its process still unknown. */
  function PendingMember(payload: Payload, expected: int): (r: Option<Member>)
    ensures r.Some? ==> forall q: int :: q >= 1 ==> InLane(r.value.(pid := q))
    ensures r.Some? ==> payload.Plain?
  {
    if !payload.Plain? then None else
    var a := payload.arguments;
    if a.tpSize != expected || a.dpSize != 1 || a.ppSize != 1 || a.nodes != 1 || a.nodeRank != 0 then None
    else if a.gpu < 0 || a.rank < 0 || a.cpRank < 0 || a.moeDpRank < 0 || a.moeEpRank < 0 || a.ppRank < 0 then None
    else if a.ppRank != 0 || a.dpRank.Some? then None
    else Some(Member(0, a.gpu, a.rank, a.cpRank, a.moeDpRank, a.moeEpRank, 0, None))
  }

  /** What a scheduler's arguments announce: one tensor-parallel rank of the expected count on a single
      node, without data or pipeline parallelism. */
  ghost predicate Announces(payload: Payload, expected: int, m: Member) {
    && payload.Plain?
    && var a := payload.arguments;
       && a.tpSize == expected && a.dpSize == a.ppSize == a.nodes == 1 && a.nodeRank == a.ppRank == 0
       && a.dpRank == None && a.gpu >= 0 && a.rank >= 0 && a.cpRank >= 0 && a.moeDpRank >= 0 && a.moeEpRank >= 0
       && m.gpu == a.gpu && m.rank == a.rank && m.cpRank == a.cpRank && m.moeDpRank == a.moeDpRank
       && m.moeEpRank == a.moeEpRank && m.ppRank == a.ppRank && m.dpRank == a.dpRank && m.pid == 0
  }

  lemma PendingIsAnnounced(payload: Payload, expected: int, m: Member)
    ensures PendingMember(payload, expected) == Some(m) <==> Announces(payload, expected, m)
  {
  }

  /** A window for one scheduler that records one with rank 5, as its own arguments announce it: the
      window is full and sound, and its receipt is refused. */
  lemma FullWindowMayBeRefused()
    ensures var pending := PendingMember(Plain(Arguments(1, 1, 1, 1, 0, 0, 5, 0, 0, 0, 0, None)), 1);
            && pending.Some?
            && var w := Window(0, 1, "overlay", 1, [pending.value.(pid := 2)], false);
               && w.Sound() && |w.observed| == w.expected
               && !Receipt(w.identity, w.driverPid, w.expected, ByRank(w.observed)).Accepted()
  {
    var m := Member(2, 0, 5, 0, 0, 0, 0, None);
    var w := Window(0, 1, "overlay", 1, [m], false);
    assert w.observed[0] == m && !RanksBelow(w.observed, 1);
    ReceiptAcceptedIff(w);
  }
}
