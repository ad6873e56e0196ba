/** The spawn lock at the level of threads.

    Threads interleave freely; a start reads the armed flag before it takes the lock, and takes
    the lock only when the flag is on.  A run is any sequence of actions: an action that is not
    enabled changes nothing. */
module SpawnLock {
  import opened Outcome

  type Thread = nat

  datatype Phase =
    | Idle
    | Direct(scheduler: bool)       // found the flag off: starts without the lock
    | Waiting(scheduler: bool)
    | Holding(scheduler: bool)      // owns the lock, markers as it found them
    | Marked(saved: Option<string>) // owns the lock, role marker exported
  {
    predicate Owns() {
      Holding? || Marked?
    }
  }

  datatype Child = Child(scheduler: bool, direct: bool, marked: bool)

  datatype State = State(armed: bool, role: Option<string>, lock: Option<Thread>, phases: map<Thread, Phase>,
                         started: seq<Child>) {
    function At(t: Thread): Phase {
      if t in phases then phases[t] else Idle
    }

    function To(t: Thread, p: Phase): State {
      this.(phases := phases[t := p])
    }
  }

  datatype Action =
    | SetArmed(on: bool)
    | Begin(t: Thread, scheduler: bool)
    | Acquire(t: Thread)
    | Mark(t: Thread)
    | Launch(t: Thread)
    | Restore(t: Thread)
    | Release(t: Thread)

  const SCHEDULER_ROLE := "scheduler"

  /** Some thread's markers are up. */
  predicate Up(s: State) {
    s.lock.Some? && s.At(s.lock.value).Marked?
  }

  function Next(s: State, a: Action): State {
    match a
    case SetArmed(on) => s.(armed := on)
    case Begin(t, scheduler) =>
      if !s.At(t).Idle? then s else s.To(t, if s.armed then Waiting(scheduler) else Direct(scheduler))
    case Acquire(t) =>
      if !s.At(t).Waiting? || s.lock.Some? then s else s.To(t, Holding(s.At(t).scheduler)).(lock := Some(t))
    case Mark(t) =>
      if !s.At(t).Holding? || !s.At(t).scheduler then s
      else s.To(t, Marked(s.role)).(role := Some(SCHEDULER_ROLE))
    case Launch(t) =>
      var p := s.At(t);
      if p.Direct? then s.To(t, Idle).(started := s.started + [Child(p.scheduler, true, Up(s))])
      else if p == Holding(false) then s.(started := s.started + [Child(false, false, Up(s))])
      else if p.Marked? then s.(started := s.started + [Child(true, false, Up(s))])
      else s
    case Restore(t) =>
      if !s.At(t).Marked? then s else s.To(t, Holding(true)).(role := s.At(t).saved)
    case Release(t) =>
      if !s.At(t).Holding? then s else s.To(t, Idle).(lock := None)
  }

  function Exec(s: State, actions: seq<Action>): State {
    if actions == [] then s else Next(Exec(s, actions[..|actions| - 1]), actions[|actions| - 1])
  }

  function Initial(armed: bool, role: Option<string>): State {
    State(armed, role, None, map[], [])
  }

  /** The lock has one owner; the marker is up exactly while that owner holds it up, over the
      ambient value it saved; a start that did not bypass the lock is under the marker exactly when it
      is a scheduler's. */
  ghost predicate Inv(s: State, ambient: Option<string>) {
    && OneOwner(s) && Exported(s, ambient)
    && forall i :: 0 <= i < |s.started| ==> Orderly(s.started[i])
  }

  ghost predicate OneOwner(s: State) {
    forall t: Thread :: s.At(t).Owns() <==> s.lock == Some(t)
  }

  predicate Exported(s: State, ambient: Option<string>) {
    if Up(s) then s.role == Some(SCHEDULER_ROLE) && s.At(s.lock.value).saved == ambient else s.role == ambient
  }

  predicate Orderly(c: Child) {
    !c.direct ==> (c.marked <==> c.scheduler)
  }

  lemma OneOwnerKept(s: State, a: Action)
    requires OneOwner(s)
    ensures OneOwner(Next(s, a))
  {
    var n := Next(s, a);
    forall t: Thread
      ensures n.At(t).Owns() <==> n.lock == Some(t)
    {
      assert s.At(t).Owns() <==> s.lock == Some(t);
      if !a.SetArmed? {
        assert s.At(a.t).Owns() <==> s.lock == Some(a.t);
      }
    }
  }

  lemma StepKeeps(s: State, a: Action, ambient: Option<string>)
    requires Inv(s, ambient)
    ensures Inv(Next(s, a), ambient)
  {
    OneOwnerKept(s, a);
    if !a.SetArmed? {
      assert s.At(a.t).Owns() <==> s.lock == Some(a.t);
    }
    hide OneOwner;
  }

  /** Every interleaving keeps the invariant; in particular the role is the ambient one whenever
      nobody holds the lock. */
  lemma {:induction false} EveryRun(armed: bool, ambient: Option<string>, actions: seq<Action>)
    ensures var s := Exec(Initial(armed, ambient), actions);
            Inv(s, ambient) && (s.lock.None? ==> s.role == ambient)
  {
    if actions != [] {
      var n := |actions| - 1;
      EveryRun(armed, ambient, actions[..n]);
      StepKeeps(Exec(Initial(armed, ambient), actions[..n]), actions[n], ambient);
    }
  }

  /** While the flag stays on nobody bypasses the lock, so a child starts under the marker exactly
      when it is a scheduler. */
  lemma {:induction false} NoLeakWhileArmed(ambient: Option<string>, actions: seq<Action>)
    requires forall i :: 0 <= i < |actions| ==> actions[i] != SetArmed(false)
    ensures var s := Exec(Initial(true, ambient), actions);
            && s.armed && (forall t: Thread :: !s.At(t).Direct?)
            && forall i :: 0 <= i < |s.started| ==> (s.started[i].marked <==> s.started[i].scheduler)
  {
    if actions != [] {
      var n := |actions| - 1;
      var before := actions[..n];
      assert forall i :: 0 <= i < |before| ==> before[i] == actions[i];
      NoLeakWhileArmed(ambient, before);
      EveryRun(true, ambient, actions);
      EveryRun(true, ambient, before);
      var s, a := Exec(Initial(true, ambient), before), actions[n];
      assert a != SetArmed(false);
      forall t: Thread
        ensures !Next(s, a).At(t).Direct?
      {
        assert !s.At(t).Direct?;
      }
      if a.Launch? {
        assert s.At(a.t).Marked? ==> s.At(a.t).Owns();
        assert s.At(a.t).Holding? ==> s.At(a.t).Owns();
      }
    }
  }

  /** Exactly when a start leaks: a start of something else bypassed the lock while another thread had
      its markers up.  And exactly when a scheduler goes unmarked: its start bypassed the lock while
      nobody had them up. */
  lemma LeakIffBypass(s: State, t: Thread, ambient: Option<string>)
    requires Inv(s, ambient) && Next(s, Launch(t)).started != s.started
    ensures var c := Next(s, Launch(t)).started[|s.started|];
            && (c.marked && !c.scheduler <==> s.At(t) == Direct(false) && Up(s))
            && (c.scheduler && !c.marked <==> s.At(t) == Direct(true) && !Up(s))
  {
    assert s.At(t).Owns() <==> s.lock == Some(t);
  }

  /** A run that leaks: a helper reads the flag while it is off and starts while a scheduler is
      being started. */
  lemma BypassLeaks()
    ensures var run := [Begin(1, false), SetArmed(true), Begin(2, true), Acquire(2), Mark(2), Launch(1)];
            Exec(Initial(false, None), run).started == [Child(false, true, true)]
  {
    var s0 := Initial(false, None);
    var r1, s1 := [Begin(1, false)], s0.To(1, Direct(false));
    Then(s0, [], Begin(1, false));
    var r2, s2 := r1 + [SetArmed(true)], s1.(armed := true);
    Then(s0, r1, SetArmed(true));
    var r3, s3 := r2 + [Begin(2, true)], s2.To(2, Waiting(true));
    Then(s0, r2, Begin(2, true));
    var r4, s4 := r3 + [Acquire(2)], s3.To(2, Holding(true)).(lock := Some(2));
    Then(s0, r3, Acquire(2));
    var r5, s5 := r4 + [Mark(2)], s4.To(2, Marked(None)).(role := Some(SCHEDULER_ROLE));
    Then(s0, r4, Mark(2));
    Then(s0, r5, Launch(1));
    assert [] + [Begin(1, false)] == r1 && Exec(s0, r5) == s5;
    assert r5 + [Launch(1)] == [Begin(1, false), SetArmed(true), Begin(2, true), Acquire(2), Mark(2), Launch(1)];
  }

  lemma Then(s: State, actions: seq<Action>, a: Action)
    ensures Exec(s, actions + [a]) == Next(Exec(s, actions), a)
  {
    assert (actions + [a])[..|actions|] == actions;
  }
}
