/** That sleep locks can be had: from every state every process can get to hold the lock, so that nobody is left
  behind in sleep, and a process that finds it free needs only itself and the scheduler. */
module SleepProgress {
  import opened Options
  import opened SleepLock

  /** Some run of the given actions leads from s to t. */
  ghost predicate Leads(s: State, t: State, using: iset<Action>) {
    exists acts :: Only(acts, using) && Exec(s, acts) == t
  }

  ghost predicate Only(acts: seq<Action>, using: iset<Action>) {
    forall i :: 0 <= i < |acts| ==> acts[i] in using
  }

  lemma {:induction false} ExecConcat(s: State, a: seq<Action>, b: seq<Action>)
    ensures Exec(s, a + b) == Exec(Exec(s, a), b)
  {
    hide Step;
    if b == [] {
      assert a + b == a;
    } else {
      ExecConcat(s, a, b[..|b| - 1]);
      assert (a + b)[..|a + b| - 1] == a + b[..|b| - 1];
    }
  }

  lemma LeadsNone(s: State, using: iset<Action>)
    ensures Leads(s, s, using)
  {
    assert Only([], using) && Exec(s, []) == s;
  }

  lemma LeadsOn(s: State, a: Action, t: State, using: iset<Action>)
    requires a in using && Leads(Step(s, a), t, using)
    ensures Leads(s, t, using)
  {
    hide Step;
    var acts :| Only(acts, using) && Exec(Step(s, a), acts) == t;
    assert [a][..0] == [] && Exec(s, [a]) == Step(s, a);
    ExecConcat(s, [a], acts);
    assert Only([a] + acts, using);
  }

  lemma LeadsTrans(s: State, m: State, t: State, few: iset<Action>, using: iset<Action>)
    requires Leads(s, m, few) && few <= using && Leads(m, t, using)
    ensures Leads(s, t, using)
  {
    hide Exec;
    var a :| Only(a, few) && Exec(s, a) == m;
    var b :| Only(b, using) && Exec(m, b) == t;
    ExecConcat(s, a, b);
    assert Only(a + b, using);
  }

  predicate Concerns(a: Action, q: nat) {
    match a
    case Run(p) => p == q
    case Pick(p, _) => p == q
    case SchedRun(p) => p == q
    case Rouse(p) => p == q
    case SchedTake => true
    case SchedDrop => true
  }

  /** What process q and the scheduler do, and the wakeups of q from other channels. */
  ghost function StepsOf(q: nat): iset<Action> { iset a: Action | Concerns(a, q) }

  ghost function AnySteps(): iset<Action> { iset a: Action | Possible(a) }

  predicate Possible(a: Action) { a == a }

  // ---- Moving one process on ----

  predicate Off1(pc: PC) { pc.Off? || pc.YieldOff? }

  /** About to take ptable.lock. */
  predicate Starts(pc: PC) { pc.WakeStart? || pc.SleepStart? || pc.YieldStart? || pc.KillStart? }

  /** What takes process q on: its next statement, or first what the scheduler has to do for it. */
  function Turn(s: State, q: nat): (a: Action)
    requires q < |s.procs|
    ensures Concerns(a, q)
  {
    var pc := s.procs[q].pc;
    if Off1(pc) then
      if s.procs[q].mode.Sleeping? then
        if s.pt.Scheduler? then SchedDrop else Rouse(q)
      else if s.pt.Nobody? then SchedTake else SchedRun(q)
    else if Starts(pc) && s.pt.Scheduler? then SchedDrop
    else if pc == Out then Pick(q, Acquire)
    else if pc == Held then Pick(q, Release)
    else Run(q)
  }

  /** How much the scheduler has to do before process q moves. */
  function Sub(s: State, q: nat): (n: nat)
    requires q < |s.procs|
    ensures n < 4
  {
    var pc := s.procs[q].pc;
    if Off1(pc) then
      if s.procs[q].mode.Sleeping? then if s.pt.Scheduler? then 3 else 2
      else if s.pt.Nobody? then 1 else 0
    else if Starts(pc) && s.pt.Scheduler? then 1 else 0
  }

  /** No other process holds a spin lock. */
  predicate Alone(s: State, q: nat) {
    s.lk in {None, Some(q)} && s.pt in {Nobody, Scheduler, By(q)}
  }

  // ---- Getting the lock ----

  /** How far a process that does not hold the sleep lock is from taking it, when it is free. */
  function ToOwn(pc: PC, n: nat): (r: nat) {
    match pc
    case SetLocked => 1 case Test => 2 case Acquire => 3 case Retake => 3 case Out => 4
    case ReleaseEnd => 5 case WakeEnd => 6 case Wake(i) => if i < n then 7 + n - i else 7
    case WakeStart => 8 + n case ClearPid => 9 + n
    case SleepEnd(_, _) => 5 case ClearChan(_, _) => 6 case Off(_, _) => 7 case Sched(_, _) => 8
    case SetSleeping(_, _) => 9 case SetChan(_, _) => 10 case SleepStart(_, _) => 11
    case YieldEnd(_) => 5 case YieldOff(_) => 6 case YieldSched(_) => 7 case SetRunnable(_) => 8 case YieldStart(_) => 9
    case KillEnd(_) => 5 case KillWake(_, _) => 6 case KillStart(_, _) => 7
    case _ => 0
  }

  lemma NotCommitted(s: State, q: nat)
    requires Inv(s) && Alone(s, q) && q < |s.procs| && !s.locked
    ensures Place(s, q) && !Committed(s, q)
  {
    assert Place(s, q) && NoLostWakeup(s, q);
  }

  lemma TurnToOwnOff(s: State, q: nat)
    requires q < |s.procs| && Place(s, q) && !Committed(s, q) && Alone(s, q) && !s.locked && !Owning(s.procs[q].pc)
    requires Off1(s.procs[q].pc)
    ensures var t, n := Step(s, Turn(s, q)), |s.procs|;
      && Alone(t, q) && |t.procs| == n
      && (Owning(t.procs[q].pc)
          || (!t.locked && 4 * ToOwn(t.procs[q].pc, n) + Sub(t, q) < 4 * ToOwn(s.procs[q].pc, n) + Sub(s, q)))
  {
  }

  lemma TurnToOwnStart(s: State, q: nat)
    requires q < |s.procs| && Place(s, q) && !Committed(s, q) && Alone(s, q) && !s.locked && !Owning(s.procs[q].pc)
    requires Starts(s.procs[q].pc)
    ensures var t, n := Step(s, Turn(s, q)), |s.procs|;
      && Alone(t, q) && |t.procs| == n
      && (Owning(t.procs[q].pc)
          || (!t.locked && 4 * ToOwn(t.procs[q].pc, n) + Sub(t, q) < 4 * ToOwn(s.procs[q].pc, n) + Sub(s, q)))
  {
  }

  lemma TurnToOwnRun(s: State, q: nat)
    requires q < |s.procs| && Place(s, q) && !Committed(s, q) && Alone(s, q) && !s.locked && !Owning(s.procs[q].pc)
    requires !Off1(s.procs[q].pc) && !Starts(s.procs[q].pc)
    ensures var t, n := Step(s, Turn(s, q)), |s.procs|;
      && Alone(t, q) && |t.procs| == n
      && (Owning(t.procs[q].pc)
          || (!t.locked && 4 * ToOwn(t.procs[q].pc, n) + Sub(t, q) < 4 * ToOwn(s.procs[q].pc, n) + Sub(s, q)))
  {
  }

  lemma TurnToOwn(s: State, q: nat)
    requires q < |s.procs| && Place(s, q) && !Committed(s, q) && Alone(s, q) && !s.locked && !Owning(s.procs[q].pc)
    ensures var t, n := Step(s, Turn(s, q)), |s.procs|;
      && Alone(t, q) && |t.procs| == n
      && (Owning(t.procs[q].pc)
          || (!t.locked && 4 * ToOwn(t.procs[q].pc, n) + Sub(t, q) < 4 * ToOwn(s.procs[q].pc, n) + Sub(s, q)))
  {
    hide Step, Turn, Sub, Place, ToOwn, Owning, Committed;
    if Off1(s.procs[q].pc) {
      TurnToOwnOff(s, q);
    } else if Starts(s.procs[q].pc) {
      TurnToOwnStart(s, q);
    } else {
      TurnToOwnRun(s, q);
    }
  }

  lemma {:induction false} Obtain(s: State, q: nat) returns (t: State)
    requires Inv(s) && Alone(s, q) && q < |s.procs| && !s.locked
    ensures Leads(s, t, StepsOf(q)) && Inv(t) && q < |t.procs| && Owning(t.procs[q].pc)
    decreases 4 * ToOwn(s.procs[q].pc, |s.procs|) + Sub(s, q)
  {
    hide Inv, Leads, Step, ToOwn, Sub, Turn, Owning, Committed, Place, Alone;
    if Owning(s.procs[q].pc) {
      t := s;
      LeadsNone(s, StepsOf(q));
    } else {
      NotCommitted(s, q);
      TurnToOwn(s, q);
      var a := Turn(s, q);
      InvKept(s, a);
      if Owning(Step(s, a).procs[q].pc) {
        t := Step(s, a);
        LeadsNone(t, StepsOf(q));
      } else {
        t := Obtain(Step(s, a), q);
      }
      LeadsOn(s, a, t, StepsOf(q));
    }
  }

  // ---- Giving the lock up ----

  /** Past the assignment that gives the sleep lock up, and not yet out of releasesleep. */
  predicate Releasing(pc: PC) { pc.ClearPid? || pc.WakeStart? || pc.Wake? || pc.WakeEnd? || pc.ReleaseEnd? }

  function ToFree(pc: PC, n: nat): (r: nat) {
    match pc
    case ReleaseEnd => 1 case WakeEnd => 2 case Wake(i) => if i < n then 3 + n - i else 3
    case WakeStart => 4 + n case ClearPid => 5 + n case ClearLocked => 6 + n case Release => 7 + n case Held => 8 + n
    case AcquireEnd => 9 + n case SetPid => 10 + n
    case SleepEnd(_, _) => 9 + n case ClearChan(_, _) => 10 + n case Off(_, _) => 11 + n case Sched(_, _) => 12 + n
    case SetSleeping(_, _) => 13 + n case SetChan(_, _) => 14 + n case SleepStart(_, _) => 15 + n
    case YieldEnd(_) => 9 + n case YieldOff(_) => 10 + n case YieldSched(_) => 11 + n
    case SetRunnable(_) => 12 + n case YieldStart(_) => 13 + n
    case KillEnd(_) => 9 + n case KillWake(_, _) => 10 + n case KillStart(_, _) => 11 + n
    case _ => 0
  }

  lemma TurnToFreeOff(s: State, p: nat)
    requires p < |s.procs| && Place(s, p) && Alone(s, p) && (Owning(s.procs[p].pc) || Releasing(s.procs[p].pc))
    requires Off1(s.procs[p].pc)
    ensures var t, n := Step(s, Turn(s, p)), |s.procs|;
      && Alone(t, p) && |t.procs| == n
      && if s.procs[p].pc == ReleaseEnd then !t.locked && t.procs[p].pc == Out
         else && (Owning(t.procs[p].pc) || Releasing(t.procs[p].pc))
              && 4 * ToFree(t.procs[p].pc, n) + Sub(t, p) < 4 * ToFree(s.procs[p].pc, n) + Sub(s, p)
  {
  }

  lemma TurnToFreeStart(s: State, p: nat)
    requires p < |s.procs| && Place(s, p) && Alone(s, p) && (Owning(s.procs[p].pc) || Releasing(s.procs[p].pc))
    requires Starts(s.procs[p].pc)
    ensures var t, n := Step(s, Turn(s, p)), |s.procs|;
      && Alone(t, p) && |t.procs| == n
      && if s.procs[p].pc == ReleaseEnd then !t.locked && t.procs[p].pc == Out
         else && (Owning(t.procs[p].pc) || Releasing(t.procs[p].pc))
              && 4 * ToFree(t.procs[p].pc, n) + Sub(t, p) < 4 * ToFree(s.procs[p].pc, n) + Sub(s, p)
  {
  }

  lemma TurnToFreeTable(s: State, p: nat)
    requires p < |s.procs| && Place(s, p) && Alone(s, p) && (Owning(s.procs[p].pc) || Releasing(s.procs[p].pc))
    requires HasPt(s.procs[p].pc)
    ensures var t, n := Step(s, Turn(s, p)), |s.procs|;
      && Alone(t, p) && |t.procs| == n
      && if s.procs[p].pc == ReleaseEnd then !t.locked && t.procs[p].pc == Out
         else && (Owning(t.procs[p].pc) || Releasing(t.procs[p].pc))
              && 4 * ToFree(t.procs[p].pc, n) + Sub(t, p) < 4 * ToFree(s.procs[p].pc, n) + Sub(s, p)
  {
  }

  lemma TurnToFreeRun(s: State, p: nat)
    requires p < |s.procs| && Place(s, p) && Alone(s, p) && (Owning(s.procs[p].pc) || Releasing(s.procs[p].pc))
    requires !Off1(s.procs[p].pc) && !Starts(s.procs[p].pc) && !HasPt(s.procs[p].pc)
    ensures var t, n := Step(s, Turn(s, p)), |s.procs|;
      && Alone(t, p) && |t.procs| == n
      && if s.procs[p].pc == ReleaseEnd then !t.locked && t.procs[p].pc == Out
         else && (Owning(t.procs[p].pc) || Releasing(t.procs[p].pc))
              && 4 * ToFree(t.procs[p].pc, n) + Sub(t, p) < 4 * ToFree(s.procs[p].pc, n) + Sub(s, p)
  {
  }

  lemma TurnToFree(s: State, p: nat)
    requires p < |s.procs| && Place(s, p) && Alone(s, p) && (Owning(s.procs[p].pc) || Releasing(s.procs[p].pc))
    ensures var t, n := Step(s, Turn(s, p)), |s.procs|;
      && Alone(t, p) && |t.procs| == n
      && if s.procs[p].pc == ReleaseEnd then !t.locked && t.procs[p].pc == Out
         else && (Owning(t.procs[p].pc) || Releasing(t.procs[p].pc))
              && 4 * ToFree(t.procs[p].pc, n) + Sub(t, p) < 4 * ToFree(s.procs[p].pc, n) + Sub(s, p)
  {
    hide Step, Turn, Sub, Place, ToFree, Owning, Releasing;
    if Off1(s.procs[p].pc) {
      TurnToFreeOff(s, p);
    } else if Starts(s.procs[p].pc) {
      TurnToFreeStart(s, p);
    } else if HasPt(s.procs[p].pc) {
      TurnToFreeTable(s, p);
    } else {
      TurnToFreeRun(s, p);
    }
  }

  lemma {:induction false} GiveUp(s: State, p: nat) returns (t: State)
    requires Inv(s) && p < |s.procs| && Alone(s, p) && (Owning(s.procs[p].pc) || Releasing(s.procs[p].pc))
    ensures Leads(s, t, StepsOf(p)) && Inv(t) && |t.procs| == |s.procs| && !t.locked && t.lk.None? && !t.pt.By?
    decreases 4 * ToFree(s.procs[p].pc, |s.procs|) + Sub(s, p)
  {
    hide Inv, Leads, Step, ToFree, Sub, Turn, Owning, Releasing, Place, Alone;
    PlaceOf(s, p);
    TurnToFree(s, p);
    var a := Turn(s, p);
    InvKept(s, a);
    if s.procs[p].pc == ReleaseEnd {
      t := Step(s, a);
      LeadsNone(t, StepsOf(p));
      OutOfIt(t, p);
    } else {
      t := GiveUp(Step(s, a), p);
    }
    LeadsOn(s, a, t, StepsOf(p));
  }

  lemma OutOfIt(s: State, p: nat)
    requires Inv(s) && Alone(s, p) && p < |s.procs| && !HasLk(s.procs[p].pc) && !HasPt(s.procs[p].pc)
    ensures s.lk.None? && !s.pt.By?
  {
    assert Place(s, p);
  }

  // ---- Giving the spin locks up ----

  predicate Busy(pc: PC) { HasLk(pc) || HasPt(pc) }

  function ToIdle(pc: PC, n: nat): (r: nat) {
    match pc
    case ReleaseEnd => 1 case WakeEnd => 2 case Wake(i) => if i < n then 3 + n - i else 3
    case WakeStart => 4 + n case ClearPid => 5 + n case ClearLocked => 6 + n
    case AcquireEnd => 1 case SetPid => 2 case SetLocked => 3 case Test => 6
    case SleepEnd(_, _) => 1 case ClearChan(_, _) => 2 case Sched(_, _) => 1
    case SetSleeping(_, _) => 2 case SetChan(_, _) => 3 case DropLk => 4 case SleepStart(_, _) => 5
    case YieldEnd(_) => 1 case YieldSched(_) => 1 case SetRunnable(_) => 2
    case KillEnd(_) => 1 case KillWake(_, _) => 2
    case _ => 0
  }

  /** The other processes are not in the way of p: ptable.lock is free for it, or it has it. */
  predicate Clear(s: State, p: nat) { s.pt in {Nobody, Scheduler, By(p)} }

  lemma TurnToIdleStart(s: State, p: nat)
    requires p < |s.procs| && Place(s, p) && Clear(s, p) && Busy(s.procs[p].pc)
    requires Starts(s.procs[p].pc)
    ensures var t, n := Step(s, Turn(s, p)), |s.procs|;
      && Clear(t, p) && |t.procs| == n && (t.lk == s.lk || (s.lk == Some(p) && t.lk.None?))
      && (Busy(t.procs[p].pc) ==>
            4 * ToIdle(t.procs[p].pc, n) + Sub(t, p) < 4 * ToIdle(s.procs[p].pc, n) + Sub(s, p))
  {
  }

  lemma TurnToIdleTable(s: State, p: nat)
    requires p < |s.procs| && Place(s, p) && Clear(s, p) && Busy(s.procs[p].pc)
    requires HasPt(s.procs[p].pc)
    ensures var t, n := Step(s, Turn(s, p)), |s.procs|;
      && Clear(t, p) && |t.procs| == n && (t.lk == s.lk || (s.lk == Some(p) && t.lk.None?))
      && (Busy(t.procs[p].pc) ==>
            4 * ToIdle(t.procs[p].pc, n) + Sub(t, p) < 4 * ToIdle(s.procs[p].pc, n) + Sub(s, p))
  {
  }

  lemma TurnToIdleRun(s: State, p: nat)
    requires p < |s.procs| && Place(s, p) && Clear(s, p) && Busy(s.procs[p].pc)
    requires !Off1(s.procs[p].pc) && !Starts(s.procs[p].pc) && !HasPt(s.procs[p].pc)
    ensures var t, n := Step(s, Turn(s, p)), |s.procs|;
      && Clear(t, p) && |t.procs| == n && (t.lk == s.lk || (s.lk == Some(p) && t.lk.None?))
      && (Busy(t.procs[p].pc) ==>
            4 * ToIdle(t.procs[p].pc, n) + Sub(t, p) < 4 * ToIdle(s.procs[p].pc, n) + Sub(s, p))
  {
  }

  lemma TurnToIdle(s: State, p: nat)
    requires p < |s.procs| && Place(s, p) && Clear(s, p) && Busy(s.procs[p].pc)
    ensures var t, n := Step(s, Turn(s, p)), |s.procs|;
      && Clear(t, p) && |t.procs| == n && (t.lk == s.lk || (s.lk == Some(p) && t.lk.None?))
      && (Busy(t.procs[p].pc) ==>
            4 * ToIdle(t.procs[p].pc, n) + Sub(t, p) < 4 * ToIdle(s.procs[p].pc, n) + Sub(s, p))
  {
    hide Step, Turn, Sub, Place, ToIdle;
    if Starts(s.procs[p].pc) {
      TurnToIdleStart(s, p);
    } else if HasPt(s.procs[p].pc) {
      TurnToIdleTable(s, p);
    } else {
      TurnToIdleRun(s, p);
    }
  }

  lemma {:induction false} Finish(s: State, p: nat) returns (t: State)
    requires Inv(s) && p < |s.procs| && Clear(s, p)
    ensures Leads(s, t, AnySteps()) && Inv(t) && |t.procs| == |s.procs| && !t.pt.By?
    ensures t.lk == (if s.lk == Some(p) then None else s.lk)
    decreases if Busy(s.procs[p].pc) then 1 + 4 * ToIdle(s.procs[p].pc, |s.procs|) + Sub(s, p) else 0
  {
    hide Inv, Leads, Step, ToIdle, Sub, Turn, Busy, Place, Clear;
    PlaceOf(s, p);
    if Busy(s.procs[p].pc) {
      TurnToIdle(s, p);
      var a := Turn(s, p);
      InvKept(s, a);
      t := Finish(Step(s, a), p);
      LeadsOn(s, a, t, AnySteps());
      NotRetaken(s, p);
    } else {
      t := s;
      LeadsNone(s, AnySteps());
      IdleOne(s, p);
    }
  }

  lemma NotRetaken(s: State, p: nat)
    requires p < |s.procs| && Place(s, p) && Clear(s, p) && Busy(s.procs[p].pc)
    ensures s.lk != Some(p) ==> Step(s, Turn(s, p)).lk == s.lk
  {
    TurnToIdle(s, p);
  }

  lemma IdleOne(s: State, p: nat)
    requires p < |s.procs| && Place(s, p) && Clear(s, p) && !Busy(s.procs[p].pc)
    ensures s.lk != Some(p) && !s.pt.By?
  {
  }

  lemma Bounds(s: State)
    requires Inv(s)
    ensures (s.lk.Some? ==> s.lk.value < |s.procs|) && (s.pt.By? ==> s.pt.p < |s.procs|)
    ensures s.locked ==> s.owner.Some? && s.owner.value < |s.procs| && Owning(s.procs[s.owner.value].pc)
  {
    if s.locked {
      assert Place(s, s.owner.value);
    }
  }

  /** Whoever holds a spin lock can give it up. */
  lemma FreeSpinLocks(s: State) returns (t: State)
    requires Inv(s)
    ensures Leads(s, t, AnySteps()) && Inv(t) && |t.procs| == |s.procs| && t.lk.None? && !t.pt.By?
  {
    hide Inv, Leads, Owning;
    Bounds(s);
    var m := s;
    LeadsNone(s, AnySteps());
    if s.pt.By? {
      m := Finish(s, s.pt.p);
    }
    Bounds(m);
    t := m;
    if m.lk.Some? {
      t := Finish(m, m.lk.value);
      LeadsTrans(s, m, t, AnySteps(), AnySteps());
    }
  }

  // ---- Main results ----

  /** In every reachable state in which the sleep lock and the spin locks are free every process, one just woken from
    the lock as well, can get the sleep lock by its own steps and the scheduler's. */
  lemma FreeLockIsTaken(n: nat, acts: seq<Action>, q: nat)
    requires q < n
    requires var s := Exec(Boot(n), acts); !s.locked && s.lk.None? && !s.pt.By?
    ensures var s := Exec(Boot(n), acts);
      exists t :: Leads(s, t, StepsOf(q)) && q < |t.procs| && Owning(t.procs[q].pc)
  {
    hide Exec, Inv, Leads, Owning;
    InvAlways(n, acts);
    var t := Obtain(Exec(Boot(n), acts), q);
  }

  /** From every reachable state every process can get to hold the sleep lock. So there is no deadlock, no lost wakeup
    and no process that is woken and never runs. */
  lemma EveryoneCanHold(n: nat, acts: seq<Action>, q: nat)
    requires q < n
    ensures var s := Exec(Boot(n), acts);
      exists t :: Leads(s, t, AnySteps()) && q < |t.procs| && Owning(t.procs[q].pc)
  {
    hide Exec, Inv, Leads, Owning, Alone;
    InvAlways(n, acts);
    var s := Exec(Boot(n), acts);
    var m := FreeSpinLocks(s);
    var u := m;
    if m.locked {
      Bounds(m);
      var p := m.owner.value;
      AloneThen(m, p);
      u := GiveUp(m, p);
      LeadsNone(u, AnySteps());
      LeadsTrans(m, u, u, StepsOf(p), AnySteps());
      LeadsTrans(s, m, u, AnySteps(), AnySteps());
    }
    AloneThen(u, q);
    var t := Obtain(u, q);
    LeadsNone(t, AnySteps());
    LeadsTrans(u, t, t, StepsOf(q), AnySteps());
    LeadsTrans(s, u, t, AnySteps(), AnySteps());
  }

  lemma AloneThen(s: State, q: nat)
    requires s.lk.None? && !s.pt.By?
    ensures Alone(s, q)
  {
  }

  /** Waiting for the sleep lock: in acquiresleep, or asleep in it. */
  predicate Wants(pc: PC) {
    match pc
    case Acquire => true case Test => true case SetLocked => true case DropLk => true case Retake => true
    case SleepStart(c, _) => c == LOCK case SetChan(c, _) => c == LOCK case SetSleeping(c, _) => c == LOCK
    case Sched(c, _) => c == LOCK case Off(c, _) => c == LOCK case ClearChan(c, _) => c == LOCK
    case SleepEnd(c, _) => c == LOCK
    case _ => false
  }

  /** Whom a process that waits for the sleep lock waits for: the holder of ptable.lock, else that of the inner lock,
    else the holder of the sleep lock, else itself. */
  function Blocker(s: State, q: nat): (p: nat) {
    if s.pt.By? then s.pt.p else if s.lk.Some? then s.lk.value else if s.owner.Some? then s.owner.value else q
  }

  /** In every reachable state in which a process waits for the sleep lock, the one it waits for, or the scheduler on
    its behalf, can take a real step. */
  lemma NoDeadlock(n: nat, acts: seq<Action>, q: nat)
    requires q < |Exec(Boot(n), acts).procs| && Wants(Exec(Boot(n), acts).procs[q].pc)
    ensures var s := Exec(Boot(n), acts);
      var p := Blocker(s, q);
      p < |s.procs| && Step(s, Turn(s, p)) != s
  {
    hide Exec, Inv, Owning, Place, Step, Turn, Sub, ToOwn, ToFree, ToIdle;
    InvAlways(n, acts);
    var s := Exec(Boot(n), acts);
    Bounds(s);
    OwnerLocked(s);
    var p := Blocker(s, q);
    PlaceOf(s, p);
    if s.pt.By? || s.lk.Some? {
      HolderBusy(s, p);
      TurnToIdle(s, p);
      StillBusy(s, p);
    } else if s.owner.Some? {
      TurnToFree(s, p);
    } else {
      NotCommitted(s, q);
      NotOwning(s, q);
      TurnToOwn(s, q);
    }
  }

  lemma OwnerLocked(s: State)
    requires Inv(s)
    ensures s.locked <==> s.owner.Some?
  {
  }

  lemma NotOwning(s: State, q: nat)
    requires q < |s.procs| && Place(s, q) && s.owner.None?
    ensures !Owning(s.procs[q].pc)
  {
  }

  lemma HolderBusy(s: State, p: nat)
    requires p < |s.procs| && Place(s, p) && (s.pt == By(p) || (!s.pt.By? && s.lk == Some(p)))
    ensures Busy(s.procs[p].pc) && Clear(s, p)
  {
  }

  lemma StillBusy(s: State, p: nat)
    requires p < |s.procs| && Place(s, p) && Clear(s, p) && Busy(s.procs[p].pc)
    ensures Step(s, Turn(s, p)) != s
  {
    TurnToIdle(s, p);
  }
}
