/** Sleep locks on top of sleep and wakeup (sleeplock.c, proc.c): any number of processes, one step per access to
  shared memory, in every interleaving. Spin locks are taken in one step when they are free. */
module SleepLock {
  import opened Options

  /** Who holds ptable.lock: nobody, a process, or a CPU's scheduler. */
  datatype Holder = Nobody | By(p: nat) | Scheduler

  datatype Mode = Running | Runnable | Sleeping

  const NONE: nat := 0     // no channel
  const LOCK: nat := 1     // the channel of the sleep lock; other numbers are other channels

  /** Where a process is: the statement it executes next. The flag of a process that is preempted, kills another
    or sleeps on another channel says whether it holds the sleep lock. */
  datatype PC =
    | Out                              // not using the lock
    | Held                             // between acquiresleep and releasesleep
    | Acquire                          // acquiresleep: acquire(&lk->lk)
    | Test                             //   while (lk->locked)
    | SetLocked                        //   lk->locked = 1
    | SetPid                           //   lk->pid = ...
    | AcquireEnd                       //   release(&lk->lk)
    | Release                          // releasesleep: acquire(&lk->lk)
    | ClearLocked                      //   lk->locked = 0
    | ClearPid                         //   lk->pid = 0
    | WakeStart                        // wakeup: acquire(&ptable.lock)
    | Wake(i: nat)                     //   wakeup1, at entry i
    | WakeEnd                          //   release(&ptable.lock)
    | ReleaseEnd                       // releasesleep: release(&lk->lk)
    | SleepStart(c: nat, held: bool)   // sleep: acquire(&ptable.lock)
    | DropLk                           //   release(lk)
    | SetChan(c: nat, held: bool)      //   p->chan = chan
    | SetSleeping(c: nat, held: bool)  //   p->state = SLEEPING
    | Sched(c: nat, held: bool)        //   sched()
    | Off(c: nat, held: bool)          //   switched out
    | ClearChan(c: nat, held: bool)    //   p->chan = 0
    | SleepEnd(c: nat, held: bool)     //   release(&ptable.lock)
    | Retake                           //   acquire(lk)
    | YieldStart(held: bool)           // yield: acquire(&ptable.lock)
    | SetRunnable(held: bool)          //   state = RUNNABLE
    | YieldSched(held: bool)           //   sched()
    | YieldOff(held: bool)             //   switched out
    | YieldEnd(held: bool)             //   release(&ptable.lock)
    | KillStart(q: nat, held: bool)    // kill: acquire(&ptable.lock)
    | KillWake(q: nat, held: bool)     //   wake process q from sleep
    | KillEnd(held: bool)              //   release(&ptable.lock)

  datatype Proc = Proc(mode: Mode, chan: nat, pc: PC)

  /** The sleep lock, the two spin locks and the process table; owner is history: who holds the sleep lock. */
  datatype State = State(locked: bool, pid: nat, lk: Option<nat>, pt: Holder, procs: seq<Proc>, owner: Option<nat>)

  /** A process runs its next statement, or picks what to do when it is free to; a scheduler does something; or
    process q is woken from another channel, by an interrupt or a process that has nothing to do with the lock. */
  datatype Action =
    | Run(p: nat)
    | Pick(p: nat, pc: PC)
    | SchedTake
    | SchedRun(q: nat)
    | SchedDrop
    | Rouse(q: nat)

  function At(s: State, p: nat, pc: PC): (t: State)
    requires p < |s.procs|
    ensures |t.procs| == |s.procs|
  {
    s.(procs := s.procs[p := s.procs[p].(pc := pc)])
  }

  function Back(held: bool): PC { if held then Held else Out }

  /** What a process outside the lock's code may turn to. */
  predicate MayPick(from: PC, to: PC) {
    match from
    case Out => to == Acquire || (to.SleepStart? && to.c !in {NONE, LOCK} && !to.held)
                || to == YieldStart(false) || (to.KillStart? && !to.held)
    case Held => to == Release || (to.SleepStart? && to.c !in {NONE, LOCK} && to.held)
                 || to == YieldStart(true) || (to.KillStart? && to.held)
    case _ => false
  }

  function TakeLk(s: State, p: nat, pc: PC): (t: State)
    requires p < |s.procs|
    ensures |t.procs| == |s.procs|
  {
    if s.lk.None? then At(s, p, pc).(lk := Some(p)) else s
  }

  function TakePt(s: State, p: nat, pc: PC): (t: State)
    requires p < |s.procs|
    ensures |t.procs| == |s.procs|
  {
    if s.pt.Nobody? then At(s, p, pc).(pt := By(p)) else s
  }

  function SetMode(s: State, q: nat, m: Mode): (t: State)
    ensures |t.procs| == |s.procs|
  {
    if q < |s.procs| then s.(procs := s.procs[q := s.procs[q].(mode := m)]) else s
  }

  predicate Asleep(s: State, q: nat) {
    q < |s.procs| && s.procs[q].mode.Sleeping? && s.procs[q].chan == LOCK
  }

  function Run1(s: State, p: nat): (t: State)
    requires p < |s.procs|
    ensures |t.procs| == |s.procs|
  {
    match s.procs[p].pc
    case Acquire => TakeLk(s, p, Test)
    case Test => At(s, p, if s.locked then SleepStart(LOCK, false) else SetLocked)
    case SetLocked => At(s, p, SetPid).(locked := true, owner := Some(p))
    case SetPid => At(s, p, AcquireEnd).(pid := p + 1)
    case AcquireEnd => At(s, p, Held).(lk := None)
    case Release => TakeLk(s, p, ClearLocked)
    case ClearLocked => At(s, p, ClearPid).(locked := false, owner := None)
    case ClearPid => At(s, p, WakeStart).(pid := 0)
    case WakeStart => TakePt(s, p, Wake(0))
    case Wake(i) =>
      if i >= |s.procs| then At(s, p, WakeEnd)
      else if Asleep(s, i) then At(SetMode(s, i, Runnable), p, Wake(i + 1))
      else At(s, p, Wake(i + 1))
    case WakeEnd => At(s, p, ReleaseEnd).(pt := Nobody)
    case ReleaseEnd => At(s, p, Out).(lk := None)
    case SleepStart(c, h) => TakePt(s, p, if c == LOCK then DropLk else SetChan(c, h))
    case DropLk => At(s, p, SetChan(LOCK, false)).(lk := None)
    case SetChan(c, h) => s.(procs := s.procs[p := s.procs[p].(chan := c, pc := SetSleeping(c, h))])
    case SetSleeping(c, h) => At(SetMode(s, p, Sleeping), p, Sched(c, h))
    case Sched(c, h) => At(s, p, Off(c, h)).(pt := Scheduler)
    case ClearChan(c, h) => s.(procs := s.procs[p := s.procs[p].(chan := NONE, pc := SleepEnd(c, h))])
    case SleepEnd(c, h) => At(s, p, if c == LOCK then Retake else Back(h)).(pt := Nobody)
    case Retake => TakeLk(s, p, Test)
    case YieldStart(h) => TakePt(s, p, SetRunnable(h))
    case SetRunnable(h) => At(SetMode(s, p, Runnable), p, YieldSched(h))
    case YieldSched(h) => At(s, p, YieldOff(h)).(pt := Scheduler)
    case YieldEnd(h) => At(s, p, Back(h)).(pt := Nobody)
    case KillStart(q, h) => TakePt(s, p, KillWake(q, h))
    case KillWake(q, h) =>
      if q < |s.procs| && s.procs[q].mode.Sleeping? then At(SetMode(s, q, Runnable), p, KillEnd(h))
      else At(s, p, KillEnd(h))
    case KillEnd(h) => At(s, p, Back(h)).(pt := Nobody)
    case _ => s
  }

  function Step(s: State, a: Action): (t: State)
    ensures |t.procs| == |s.procs|
  {
    match a
    case Run(p) => if p < |s.procs| then Run1(s, p) else s
    case Pick(p, pc) => if p < |s.procs| && MayPick(s.procs[p].pc, pc) then At(s, p, pc) else s
    case SchedTake => if s.pt.Nobody? then s.(pt := Scheduler) else s
    case SchedDrop => if s.pt.Scheduler? then s.(pt := Nobody) else s
    case SchedRun(q) =>
      if s.pt.Scheduler? && q < |s.procs| && s.procs[q].mode.Runnable? then
        match s.procs[q].pc
        case Off(c, h) => At(SetMode(s, q, Running), q, ClearChan(c, h)).(pt := By(q))
        case YieldOff(h) => At(SetMode(s, q, Running), q, YieldEnd(h)).(pt := By(q))
        case _ => s
      else s
    case Rouse(q) =>
      if s.pt.Nobody? && q < |s.procs| && s.procs[q].mode.Sleeping? && s.procs[q].chan != LOCK
      then SetMode(s, q, Runnable) else s
  }

  function Boot(n: nat): (s: State) {
    State(false, 0, None, Nobody, seq(n, i => Proc(Running, NONE, Out)), None)
  }

  function Exec(s: State, acts: seq<Action>): (t: State) {
    if acts == [] then s else Step(Exec(s, acts[..|acts| - 1]), acts[|acts| - 1])
  }

  // ---- The invariant ----

  predicate HasLk(pc: PC) {
    match pc
    case Test => true case SetLocked => true case SetPid => true case AcquireEnd => true
    case ClearLocked => true case ClearPid => true case WakeStart => true case Wake(_) => true
    case WakeEnd => true case ReleaseEnd => true case DropLk => true
    case SleepStart(c, h) => c == LOCK
    case _ => false
  }

  predicate HasPt(pc: PC) {
    match pc
    case Wake(_) => true case WakeEnd => true case DropLk => true case SetChan(_, _) => true
    case SetSleeping(_, _) => true case Sched(_, _) => true case ClearChan(_, _) => true case SleepEnd(_, _) => true
    case SetRunnable(_) => true case YieldSched(_) => true case YieldEnd(_) => true
    case KillWake(_, _) => true case KillEnd(_) => true
    case _ => false
  }

  /** Between the assignment that takes the sleep lock and the one that gives it up. */
  predicate Owning(pc: PC) {
    match pc
    case SetPid => true case AcquireEnd => true case Held => true case Release => true case ClearLocked => true
    case SleepStart(_, h) => h case SetChan(_, h) => h case SetSleeping(_, h) => h case Sched(_, h) => h
    case Off(_, h) => h case ClearChan(_, h) => h case SleepEnd(_, h) => h
    case YieldStart(h) => h case SetRunnable(h) => h case YieldSched(h) => h case YieldOff(h) => h case YieldEnd(h) => h
    case KillStart(_, h) => h case KillWake(_, h) => h case KillEnd(h) => h
    case _ => false
  }

  /** The channel and the scheduling state a process has at each statement. */
  predicate ChanAt(q: Proc) {
    q.chan ==
    match q.pc
    case SetSleeping(c, h) => c
    case Sched(c, h) => c
    case Off(c, h) => c
    case ClearChan(c, h) => c
    case _ => NONE
  }

  predicate ModeAt(q: Proc) {
    match q.pc
    case Sched(_, _) => q.mode.Sleeping?
    case YieldSched(_) => q.mode.Runnable?
    case Off(_, _) => !q.mode.Running?
    case YieldOff(_) => q.mode.Runnable?
    case _ => q.mode.Running?
  }

  /** Nobody sleeps on the sleep lock while holding it. */
  predicate Honest(pc: PC) {
    match pc
    case SleepStart(c, h) => c == LOCK ==> !h
    case SetChan(c, h) => c == LOCK ==> !h
    case SetSleeping(c, h) => c == LOCK ==> !h
    case Sched(c, h) => c == LOCK ==> !h
    case Off(c, h) => c == LOCK ==> !h
    case ClearChan(c, h) => c == LOCK ==> !h
    case SleepEnd(c, h) => c == LOCK ==> !h
    case _ => true
  }

  /** Holding the inner lock with the sleep lock free. */
  predicate NotLocked(pc: PC) {
    pc.SetLocked? || pc.ClearPid? || pc.WakeStart? || pc.Wake? || pc.WakeEnd? || pc.ReleaseEnd?
  }

  predicate Place(s: State, p: nat)
    requires p < |s.procs|
  {
    var pc := s.procs[p].pc;
    && (HasLk(pc) <==> s.lk == Some(p)) && (HasPt(pc) <==> s.pt == By(p)) && (Owning(pc) <==> s.owner == Some(p))
    && (Owning(pc) && pc != SetPid ==> s.pid == p + 1)
    && ChanAt(s.procs[p]) && ModeAt(s.procs[p]) && Honest(pc)
    && (NotLocked(pc) ==> !s.locked) && (((pc.SleepStart? && pc.c == LOCK) || pc == DropLk) ==> s.locked)
  }

  /** Asleep on the sleep lock, or past the release of its inner lock on the way there. */
  predicate Committed(s: State, q: nat) {
    Asleep(s, q) || (q < |s.procs| && (s.procs[q].pc.SetChan? || s.procs[q].pc.SetSleeping?) && s.procs[q].pc.c == LOCK)
  }

  /** A releaser that has cleared the lock has still to look at process q. */
  predicate ToBeWoken(s: State, q: nat) {
    && s.lk.Some? && s.lk.value < |s.procs|
    && match s.procs[s.lk.value].pc
       case ClearPid => true
       case WakeStart => true
       case Wake(i) => i <= q
       case _ => false
  }

  predicate NoLostWakeup(s: State, q: nat) {
    Committed(s, q) ==> s.locked || ToBeWoken(s, q)
  }

  ghost predicate Inv(s: State) {
    && (s.locked <==> s.owner.Some?) && (s.owner.Some? ==> s.owner.value < |s.procs|)
    && (s.lk.Some? ==> s.lk.value < |s.procs|) && (s.pt.By? ==> s.pt.p < |s.procs|)
    && (forall p :: 0 <= p < |s.procs| ==> Place(s, p))
    && forall q :: 0 <= q < |s.procs| ==> NoLostWakeup(s, q)
  }

  /** Process p changes its own entry, and locks and fields only where it may. */
  ghost predicate Local(s: State, t: State, p: nat) {
    && p < |s.procs| == |t.procs| && (forall q :: 0 <= q < |s.procs| && q != p ==> t.procs[q] == s.procs[q])
    && (t.lk == s.lk || (s.lk in {None, Some(p)} && t.lk in {None, Some(p)}))
    && (t.pt == s.pt || (s.pt in {Nobody, Scheduler, By(p)} && t.pt in {Nobody, Scheduler, By(p)}))
    && (t.owner == s.owner || (s.owner in {None, Some(p)} && t.owner in {None, Some(p)}))
    && (t.pid == s.pid || s.owner in {None, Some(p)})
    && (t.locked == s.locked || s.lk == Some(p))
    && (t.locked <==> t.owner.Some?)
  }

  lemma OthersPlaced(s: State, t: State, p: nat)
    requires Inv(s) && Local(s, t, p)
    ensures forall q :: 0 <= q < |s.procs| && q != p ==> Place(t, q)
    ensures (t.owner.Some? ==> t.owner.value < |t.procs|) && (t.lk.Some? ==> t.lk.value < |t.procs|)
    ensures t.pt.By? ==> t.pt.p < |t.procs|
  {
    hide Owning, ChanAt, ModeAt, Honest, NoLostWakeup;
    forall q | 0 <= q < |s.procs| && q != p ensures Place(t, q) {
      assert Place(s, q) && Place(s, p);
    }
  }

  /** A step by process p that leaves the others alone keeps the invariant, if it keeps what concerns p and
    loses no wakeup. */
  lemma LocalStep(s: State, t: State, p: nat)
    requires Inv(s) && Local(s, t, p) && Place(t, p)
    requires forall q :: 0 <= q < |t.procs| ==> NoLostWakeup(t, q)
    ensures Inv(t)
  {
    hide Place, NoLostWakeup;
    OthersPlaced(s, t, p);
  }

  predicate AcquireCode(pc: PC) { pc in {Acquire, Retake, Test, SetLocked, SetPid, AcquireEnd, DropLk} }
  predicate ReleaseCode(pc: PC) { pc in {Release, ClearLocked, ClearPid, ReleaseEnd} }

  lemma AcquireLocal(s: State, p: nat)
    requires Inv(s) && p < |s.procs| && AcquireCode(s.procs[p].pc)
    ensures Local(s, Run1(s, p), p) && Place(Run1(s, p), p)
  {
    assert Place(s, p);
  }

  lemma AcquireWaits(s: State, p: nat)
    requires Inv(s) && p < |s.procs| && AcquireCode(s.procs[p].pc)
    ensures forall q :: 0 <= q < |s.procs| ==> NoLostWakeup(Run1(s, p), q)
  {
    assert Place(s, p);
    hide Place;
    forall q | 0 <= q < |s.procs| ensures NoLostWakeup(Run1(s, p), q) {
      assert NoLostWakeup(s, q);
    }
  }

  /** The steps of acquiresleep on the sleep lock and its inner lock. */
  lemma AcquireStep(s: State, p: nat)
    requires Inv(s) && p < |s.procs| && AcquireCode(s.procs[p].pc)
    ensures Inv(Run1(s, p))
  {
    hide Inv, Place, Local, NoLostWakeup, Run1;
    AcquireLocal(s, p);
    AcquireWaits(s, p);
    LocalStep(s, Run1(s, p), p);
  }

  /** The steps of releasesleep on the sleep lock and its inner lock. */
  lemma ReleaseStep(s: State, p: nat)
    requires Inv(s) && p < |s.procs| && ReleaseCode(s.procs[p].pc)
    ensures Inv(Run1(s, p))
  {
    var t := Run1(s, p);
    assert Place(s, p);
    assert Local(s, t, p) && Place(t, p);
    hide Place, Local;
    forall q | 0 <= q < |s.procs| ensures NoLostWakeup(t, q) {
      assert NoLostWakeup(s, q);
    }
    LocalStep(s, t, p);
  }

  predicate TableCode(pc: PC) { pc.SleepStart? || pc.SleepEnd? || pc.ClearChan? }
  predicate WakeCode(pc: PC) { pc.WakeStart? || pc.WakeEnd? }
  predicate YieldCode(pc: PC) { pc.YieldStart? || pc.SetRunnable? || pc.YieldSched? || pc.YieldEnd? }
  predicate KillCode(pc: PC) { pc.KillStart? || pc.KillEnd? }

  /** Taking and giving up ptable.lock in sleep. */
  lemma TableStep(s: State, p: nat)
    requires Inv(s) && p < |s.procs| && TableCode(s.procs[p].pc)
    ensures Inv(Run1(s, p))
  {
    var t := Run1(s, p);
    assert Place(s, p);
    assert Local(s, t, p) && Place(t, p);
    hide Place, Local;
    forall q | 0 <= q < |s.procs| ensures NoLostWakeup(t, q) {
      assert NoLostWakeup(s, q);
    }
    LocalStep(s, t, p);
  }

  /** Taking and giving up ptable.lock in wakeup. */
  lemma WakeTableStep(s: State, p: nat)
    requires Inv(s) && p < |s.procs| && WakeCode(s.procs[p].pc)
    ensures Inv(Run1(s, p))
  {
    var t := Run1(s, p);
    assert Place(s, p);
    assert Local(s, t, p) && Place(t, p);
    hide Place, Local;
    forall q | 0 <= q < |s.procs| ensures NoLostWakeup(t, q) {
      assert NoLostWakeup(s, q);
    }
    LocalStep(s, t, p);
  }

  lemma YieldInLocal(s: State, p: nat)
    requires Inv(s) && p < |s.procs| && (s.procs[p].pc.YieldStart? || s.procs[p].pc.SetRunnable?)
    ensures Local(s, Run1(s, p), p) && Place(Run1(s, p), p)
  {
    assert Place(s, p);
  }

  lemma YieldOutLocal(s: State, p: nat)
    requires Inv(s) && p < |s.procs| && (s.procs[p].pc.YieldSched? || s.procs[p].pc.YieldEnd?)
    ensures Local(s, Run1(s, p), p) && Place(Run1(s, p), p)
  {
    assert Place(s, p);
  }

  lemma YieldWaits(s: State, p: nat)
    requires Inv(s) && p < |s.procs| && YieldCode(s.procs[p].pc)
    ensures forall q :: 0 <= q < |s.procs| ==> NoLostWakeup(Run1(s, p), q)
  {
    assert Place(s, p);
    hide Place;
    forall q | 0 <= q < |s.procs| ensures NoLostWakeup(Run1(s, p), q) {
      assert NoLostWakeup(s, q);
    }
  }

  /** The steps of yield. */
  lemma YieldStep(s: State, p: nat)
    requires Inv(s) && p < |s.procs| && YieldCode(s.procs[p].pc)
    ensures Inv(Run1(s, p))
  {
    hide Inv, Place, Local, NoLostWakeup, Run1;
    if s.procs[p].pc.YieldStart? || s.procs[p].pc.SetRunnable? {
      YieldInLocal(s, p);
    } else {
      YieldOutLocal(s, p);
    }
    YieldWaits(s, p);
    LocalStep(s, Run1(s, p), p);
  }

  /** Taking and giving up ptable.lock in kill. */
  lemma KillTableStep(s: State, p: nat)
    requires Inv(s) && p < |s.procs| && KillCode(s.procs[p].pc)
    ensures Inv(Run1(s, p))
  {
    var t := Run1(s, p);
    assert Place(s, p);
    assert Local(s, t, p) && Place(t, p);
    hide Place, Local;
    forall q | 0 <= q < |s.procs| ensures NoLostWakeup(t, q) {
      assert NoLostWakeup(s, q);
    }
    LocalStep(s, t, p);
  }

  predicate SleepCode(pc: PC) { pc.SetChan? || pc.SetSleeping? || pc.Sched? }

  /** The steps of sleep with ptable.lock held. */
  lemma SleepStep(s: State, p: nat)
    requires Inv(s) && p < |s.procs| && SleepCode(s.procs[p].pc)
    ensures Inv(Run1(s, p))
  {
    var t := Run1(s, p);
    assert Place(s, p);
    assert Local(s, t, p) && Place(t, p);
    hide Place, Local;
    forall q | 0 <= q < |s.procs| ensures NoLostWakeup(t, q) {
      assert NoLostWakeup(s, q);
    }
    LocalStep(s, t, p);
  }

  /** Making a sleeping process runnable, while it does not hold ptable.lock. */
  lemma Woken(s: State, q: nat)
    requires Inv(s) && q < |s.procs| && s.procs[q].mode.Sleeping? && s.pt != By(q)
    ensures Inv(SetMode(s, q, Runnable))
  {
    var t := SetMode(s, q, Runnable);
    assert Place(s, q);
    assert Local(s, t, q) && Place(t, q);
    hide Place, Local;
    forall r | 0 <= r < |s.procs| ensures NoLostWakeup(t, r) {
      assert NoLostWakeup(s, r);
    }
    LocalStep(s, t, q);
  }

  function Pass(s: State, p: nat): (t: State)
    requires p < |s.procs| && s.procs[p].pc.Wake?
    ensures |t.procs| == |s.procs|
  {
    At(s, p, if s.procs[p].pc.i < |s.procs| then Wake(s.procs[p].pc.i + 1) else WakeEnd)
  }

  lemma PassLocal(s: State, p: nat)
    requires Inv(s) && p < |s.procs| && s.procs[p].pc.Wake?
    ensures Local(s, Pass(s, p), p) && Place(Pass(s, p), p)
  {
    assert Place(s, p);
  }

  lemma PassWaits(s: State, p: nat)
    requires Inv(s) && p < |s.procs| && s.procs[p].pc.Wake? && !Asleep(s, s.procs[p].pc.i)
    ensures forall q :: 0 <= q < |s.procs| ==> NoLostWakeup(Pass(s, p), q)
  {
    var i := s.procs[p].pc.i;
    assert Place(s, p) && (i < |s.procs| ==> Place(s, i));
    hide Place;
    forall q | 0 <= q < |s.procs| ensures NoLostWakeup(Pass(s, p), q) {
      assert NoLostWakeup(s, q);
    }
  }

  /** wakeup1 passes a process that is not asleep on the lock. */
  lemma WakePass(s: State, p: nat)
    requires Inv(s) && p < |s.procs| && s.procs[p].pc.Wake? && !Asleep(s, s.procs[p].pc.i)
    ensures Inv(Pass(s, p))
  {
    hide Inv, Place, Local, NoLostWakeup;
    PassLocal(s, p);
    PassWaits(s, p);
    LocalStep(s, Pass(s, p), p);
  }

  lemma WakeStep(s: State, p: nat)
    requires Inv(s) && p < |s.procs| && s.procs[p].pc.Wake?
    ensures Inv(Run1(s, p))
  {
    hide Inv;
    var i := s.procs[p].pc.i;
    PlaceOf(s, p);
    if Asleep(s, i) {
      Woken(s, i);
      WakePass(SetMode(s, i, Runnable), p);
    } else {
      WakePass(s, p);
    }
  }

  lemma KillStep(s: State, p: nat)
    requires Inv(s) && p < |s.procs| && s.procs[p].pc.KillWake?
    ensures Inv(Run1(s, p))
  {
    hide Inv;
    var q := s.procs[p].pc.q;
    PlaceOf(s, p);
    if q < |s.procs| && s.procs[q].mode.Sleeping? {
      Woken(s, q);
      KillPass(SetMode(s, q, Runnable), p);
    } else {
      KillPass(s, p);
    }
  }

  lemma PlaceOf(s: State, p: nat)
    requires Inv(s) && p < |s.procs|
    ensures Place(s, p)
  {
  }

  lemma KillPass(s: State, p: nat)
    requires Inv(s) && p < |s.procs| && s.procs[p].pc.KillWake?
    ensures Inv(At(s, p, KillEnd(s.procs[p].pc.held)))
  {
    var t := At(s, p, KillEnd(s.procs[p].pc.held));
    assert Place(s, p);
    assert Local(s, t, p) && Place(t, p);
    hide Place, Local;
    forall q | 0 <= q < |s.procs| ensures NoLostWakeup(t, q) {
      assert NoLostWakeup(s, q);
    }
    LocalStep(s, t, p);
  }

  lemma PickStep(s: State, p: nat, pc: PC)
    requires Inv(s) && p < |s.procs| && MayPick(s.procs[p].pc, pc)
    ensures Inv(At(s, p, pc))
  {
    var t := At(s, p, pc);
    assert Place(s, p);
    assert Local(s, t, p) && Place(t, p);
    hide Place, Local;
    forall q | 0 <= q < |s.procs| ensures NoLostWakeup(t, q) {
      assert NoLostWakeup(s, q);
    }
    LocalStep(s, t, p);
  }

  lemma SchedStep(s: State, a: Action)
    requires Inv(s) && (a.SchedTake? || a.SchedDrop?)
    ensures Inv(Step(s, a))
  {
    var t := Step(s, a);
    forall p | 0 <= p < |s.procs| ensures Place(t, p) && NoLostWakeup(t, p) {
      assert Place(s, p) && NoLostWakeup(s, p);
    }
  }

  lemma DispatchStep(s: State, q: nat)
    requires Inv(s)
    ensures Inv(Step(s, SchedRun(q)))
  {
    var t := Step(s, SchedRun(q));
    if t != s {
      assert Place(s, q);
      assert Local(s, t, q) && Place(t, q);
      hide Place, Local;
      forall r | 0 <= r < |s.procs| ensures NoLostWakeup(t, r) {
        assert NoLostWakeup(s, r);
      }
      LocalStep(s, t, q);
    }
  }

  /** Every step of every process and scheduler keeps the invariant. */
  lemma InvKept(s: State, a: Action)
    requires Inv(s)
    ensures Inv(Step(s, a))
  {
    hide Inv, Run1, At;
    match a
    case Run(p) =>
      if p < |s.procs| {
        var pc := s.procs[p].pc;
        if AcquireCode(pc) { AcquireStep(s, p); }
        else if ReleaseCode(pc) { ReleaseStep(s, p); }
        else if TableCode(pc) { TableStep(s, p); }
        else if WakeCode(pc) { WakeTableStep(s, p); }
        else if YieldCode(pc) { YieldStep(s, p); }
        else if KillCode(pc) { KillTableStep(s, p); }
        else if SleepCode(pc) { SleepStep(s, p); }
        else if pc.Wake? { WakeStep(s, p); }
        else if pc.KillWake? { KillStep(s, p); }
        else { Idle(s, p); }
      }
    case Pick(p, pc) => if p < |s.procs| && MayPick(s.procs[p].pc, pc) { PickStep(s, p, pc); }
    case SchedTake => SchedStep(s, a);
    case SchedDrop => SchedStep(s, a);
    case SchedRun(q) => DispatchStep(s, q);
    case Rouse(q) => if Step(s, a) != s { Woken(s, q); }
  }

  lemma Idle(s: State, p: nat)
    requires p < |s.procs|
    requires var pc := s.procs[p].pc;
             && !AcquireCode(pc) && !ReleaseCode(pc) && !TableCode(pc) && !WakeCode(pc) && !YieldCode(pc)
             && !KillCode(pc)
             && !SleepCode(pc) && !pc.Wake? && !pc.KillWake?
    ensures Run1(s, p) == s
  {
  }

  lemma {:induction false} InvAlways(n: nat, acts: seq<Action>)
    ensures Inv(Exec(Boot(n), acts)) && |Exec(Boot(n), acts).procs| == n
  {
    if acts == [] {
      var s := Boot(n);
      assert forall p :: 0 <= p < n ==> Place(s, p) && NoLostWakeup(s, p);
    } else {
      InvAlways(n, acts[..|acts| - 1]);
      var s := Exec(Boot(n), acts[..|acts| - 1]);
      InvKept(s, acts[|acts| - 1]);
    }
  }

  // ---- Main results ----

  /** In every reachable state where the inner lock is free, a process asleep on the sleep lock, or committed to
    sleep, waits for a lock that is held, by a process that is not itself asleep on it. */
  lemma NoLostWakeups(n: nat, acts: seq<Action>, q: nat)
    ensures var s := Exec(Boot(n), acts);
            s.lk.None? && Committed(s, q) ==>
              && s.locked && s.owner.Some? && s.owner.value < |s.procs|
              && Owning(s.procs[s.owner.value].pc) && !Committed(s, s.owner.value)
  {
    InvAlways(n, acts);
    var s := Exec(Boot(n), acts);
    hide Exec;
    if s.lk.None? && Committed(s, q) {
      assert NoLostWakeup(s, q) && Place(s, s.owner.value);
    }
  }

  /** At most one process holds the sleep lock, and holdingsleep, whose test is made with the inner lock, is true for
    this process alone, wherever it is. */
  lemma MutualExclusion(n: nat, acts: seq<Action>, p: nat, q: nat)
    requires p < n && q < n
    ensures var s := Exec(Boot(n), acts);
            && |s.procs| == n
            && (Owning(s.procs[p].pc) && Owning(s.procs[q].pc) ==> p == q)
            && (s.lk.None? ==> (s.locked && s.pid == q + 1 <==> Owning(s.procs[q].pc)))
  {
    InvAlways(n, acts);
    var s := Exec(Boot(n), acts);
    hide Exec;
    assert Place(s, p) && Place(s, q);
    if s.lk.None? && s.owner.Some? {
      assert Place(s, s.owner.value);
    }
  }

  /** When releasesleep has made its wakeup, nobody is asleep on the lock. */
  lemma AllWoken(n: nat, acts: seq<Action>, p: nat, q: nat)
    requires p < n && q < n
    ensures var s := Exec(Boot(n), acts);
            |s.procs| == n && (s.procs[p].pc in {WakeEnd, ReleaseEnd} ==> !Committed(s, q))
  {
    InvAlways(n, acts);
    var s := Exec(Boot(n), acts);
    hide Exec;
    assert Place(s, p) && NoLostWakeup(s, q);
  }
}
