/** Group commit: every interleaving of begin_op, log_write and end_op by any number
  of processes, with the committer's block writes as separate steps and crashes
  allowed at every point, during commit and during recovery included.

  The state holds the variables of struct log, the disk and the pinned buffers.  The
  fields after them are history: which operation wrote what, and which groups of
  operations were closed by a commit or lost to a crash. */
module LogSystem {
  import opened Options
  import opened RedoLog

  datatype Proc =
    | Idle
      /** Between begin_op and end_op; pending is a log_write past its checks. */
    | InOp(op: nat, appended: nat, pending: Option<Write>)
      /** In commit(), after `done` of the writes that d, pins and list determine. */
    | InCommit(d: Disk, pins: map<int, Block>, list: seq<int>, done: nat)

  datatype PanicKind = NoPanic | TooBig | OutsideTrans | WhileCommitting

  datatype Record = Record(op: nat, w: Write)
  datatype Group = Group(records: seq<Record>, committed: bool)

  datatype State = State(
    outstanding: int,
    committing: bool,
    lh: seq<int>,
    disk: Disk,
    cache: map<int, Block>,
    procs: seq<Proc>,
    /** The disk recovery started from and the number of writes it has made. */
    recovering: Option<(Disk, nat)>,
    panic: PanicKind,
    history: seq<Group>,
    current: seq<Record>,
    /** The group an operation belongs to, by its position in history. */
    epoch: map<nat, nat>,
    ended: set<nat>)

  /** Log geometry and the number of blocks an operation may add to the log. */
  datatype Config = Config(g: Geometry, limit: nat)

  datatype Action =
    | Begin(p: nat)
    | Check(p: nat, w: Write)
    | Append(p: nat)
    | End(p: nat)
    | CommitWrite(p: nat)
    | CommitDone(p: nat)
    | Crash
    | RecoverWrite
    | RecoverDone

  predicate Up(s: State) {
    s.panic == NoPanic && s.recovering.None?
  }

  predicate WritingCommit(c: Config, s: State, p: nat) {
    && p < |s.procs| && s.procs[p].InCommit?
    && GoodDisk(c.g, s.procs[p].d) && GoodHeader(c.g, |s.procs[p].d|, s.procs[p].list)
  }

  predicate Enabled(c: Config, s: State, a: Action) {
    match a
    case Begin(p) =>
      && Up(s) && p < |s.procs| && s.procs[p].Idle?
      && !s.committing
      && |s.lh| + (s.outstanding + 1) * MAXOPBLOCKS <= LOGSIZE
    case Check(p, w) =>
      && Up(s) && p < |s.procs| && s.procs[p].InOp? && s.procs[p].pending.None?
      && 0 <= w.blockno < |s.disk| && !InLog(c.g, w.blockno)
      && (s.procs[p].appended < c.limit || w.blockno in s.lh)
    case Append(p) =>
      Up(s) && p < |s.procs| && s.procs[p].InOp? && s.procs[p].pending.Some?
    case End(p) =>
      Up(s) && p < |s.procs| && s.procs[p].InOp? && s.procs[p].pending.None?
    case CommitWrite(p) =>
      && Up(s) && WritingCommit(c, s, p)
      && s.procs[p].done < |CommitWrites(c.g, s.procs[p].d, s.procs[p].pins, s.procs[p].list)|
    case CommitDone(p) =>
      && Up(s) && WritingCommit(c, s, p)
      && s.procs[p].done == |CommitWrites(c.g, s.procs[p].d, s.procs[p].pins, s.procs[p].list)|
    case Crash => true
    case RecoverWrite =>
      && s.recovering.Some? && GoodDisk(c.g, s.recovering.value.0)
      && s.recovering.value.1 < |RecoveryWrites(c.g, s.recovering.value.0)|
    case RecoverDone =>
      && s.recovering.Some? && GoodDisk(c.g, s.recovering.value.0)
      && s.recovering.value.1 == |RecoveryWrites(c.g, s.recovering.value.0)|
  }

  function DoBegin(s: State, p: nat): (t: State)
    requires p < |s.procs|
  {
    var op := |s.epoch|;
    s.(outstanding := s.outstanding + 1,
       procs := s.procs[p := InOp(op, 0, None)],
       epoch := s.epoch[op := |s.history|])
  }

  function DoCheck(c: Config, s: State, p: nat, w: Write): (t: State)
    requires p < |s.procs| && s.procs[p].InOp?
  {
    if |s.lh| >= LOGSIZE || |s.lh| >= c.g.size - 1 then s.(panic := TooBig)
    else if s.outstanding < 1 then s.(panic := OutsideTrans)
    else s.(procs := s.procs[p := s.procs[p].(pending := Some(w))])
  }

  function DoAppend(s: State, p: nat): (t: State)
    requires p < |s.procs| && s.procs[p].InOp? && s.procs[p].pending.Some?
  {
    var q := s.procs[p];
    var w := q.pending.value;
    var added := if w.blockno in s.lh then 0 else 1;
    s.(lh := Absorb(s.lh, w.blockno),
       cache := s.cache[w.blockno := w.data],
       procs := s.procs[p := InOp(q.op, q.appended + added, None)],
       current := s.current + [Record(q.op, w)])
  }

  function DoEnd(s: State, p: nat): (t: State)
    requires p < |s.procs| && s.procs[p].InOp?
  {
    var left := s.outstanding - 1;
    var s1 := s.(outstanding := left, ended := s.ended + {s.procs[p].op});
    if s.committing then s1.(panic := WhileCommitting)
    else if left == 0 then
      s1.(committing := true, procs := s.procs[p := InCommit(s.disk, s.cache, s.lh, 0)])
    else s1.(procs := s.procs[p := Idle])
  }

  function DoCommitWrite(c: Config, s: State, p: nat): (t: State)
    requires Enabled(c, s, CommitWrite(p))
  {
    var q := s.procs[p];
    var cw := CommitWrites(c.g, q.d, q.pins, q.list);
    var w := cw[q.done];
    var s1 := s.(
      disk := Apply1(s.disk, w),
      cache := s.cache - {w.blockno},
      lh := if q.done + 1 == |cw| then [] else s.lh,
      procs := s.procs[p := q.(done := q.done + 1)]);
    if q.done == |q.list| then Close(s1, true) else s1
  }

  /** The group of the operations begun so far is complete. */
  function Close(s: State, committed: bool): (t: State) {
    s.(history := s.history + [Group(s.current, committed)], current := [])
  }

  function DoCommitDone(s: State, p: nat): (t: State)
    requires p < |s.procs| && s.procs[p].InCommit?
  {
    var s1 := s.(committing := false, procs := s.procs[p := Idle]);
    if s.procs[p].list == [] then Close(s1, true) else s1
  }

  function DoCrash(s: State): (t: State) {
    Close(s.(outstanding := 0, committing := false, lh := [], cache := map[],
             procs := seq(|s.procs|, _ => Idle),
             recovering := Some((s.disk, 0)), panic := NoPanic), false)
  }

  function DoRecoverWrite(c: Config, s: State): (t: State)
    requires Enabled(c, s, RecoverWrite)
  {
    var (d, k) := s.recovering.value;
    s.(disk := Apply1(s.disk, RecoveryWrites(c.g, d)[k]), recovering := Some((d, k + 1)))
  }

  function Next(c: Config, s: State, a: Action): (t: State)
    requires Enabled(c, s, a)
  {
    match a
    case Begin(p) => DoBegin(s, p)
    case Check(p, w) => DoCheck(c, s, p, w)
    case Append(p) => DoAppend(s, p)
    case End(p) => DoEnd(s, p)
    case CommitWrite(p) => DoCommitWrite(c, s, p)
    case CommitDone(p) => DoCommitDone(s, p)
    case Crash => DoCrash(s)
    case RecoverWrite => DoRecoverWrite(c, s)
    case RecoverDone => s.(recovering := None)
  }

  /** Power on: nothing in memory, recovery about to start. */
  function Boot(d: Disk, nprocs: nat): (s: State) {
    State(0, false, [], d, map[], seq(nprocs, _ => Idle), Some((d, 0)), NoPanic, [], [], map[], {})
  }

  /** The state after a run, None when some action was not enabled. */
  function Exec(c: Config, s: State, acts: seq<Action>): (r: Option<State>) {
    if acts == [] then Some(s)
    else
      var m := Exec(c, s, acts[..|acts| - 1]);
      if m.Some? && Enabled(c, m.value, acts[|acts| - 1])
      then Some(Next(c, m.value, acts[|acts| - 1])) else None
  }

  // ---------------------------------------------------------------------------
  // Counting processes

  function Ops(ps: seq<Proc>): (r: nat) {
    if ps == [] then 0 else Ops(ps[..|ps| - 1]) + if ps[|ps| - 1].InOp? then 1 else 0
  }

  function Reserve(q: Proc, limit: nat): (r: nat) {
    if q.InOp? && q.appended <= limit then limit - q.appended else 0
  }

  /** The log blocks that the running operations may still add. */
  function Reserved(ps: seq<Proc>, limit: nat): (r: nat) {
    if ps == [] then 0 else Reserved(ps[..|ps| - 1], limit) + Reserve(ps[|ps| - 1], limit)
  }

  lemma {:induction false} OpsUpdate(ps: seq<Proc>, p: nat, q: Proc)
    requires p < |ps|
    ensures Ops(ps[p := q]) ==
      Ops(ps) - (if ps[p].InOp? then 1 else 0) + (if q.InOp? then 1 else 0)
  {
    var n := |ps| - 1;
    if p < n {
      OpsUpdate(ps[..n], p, q);
      assert ps[p := q][..n] == ps[..n][p := q];
    } else {
      assert ps[p := q][..n] == ps[..n];
    }
  }

  lemma {:induction false} ReservedUpdate(ps: seq<Proc>, limit: nat, p: nat, q: Proc)
    requires p < |ps|
    ensures Reserved(ps[p := q], limit) ==
      Reserved(ps, limit) - Reserve(ps[p], limit) + Reserve(q, limit)
  {
    var n := |ps| - 1;
    if p < n {
      ReservedUpdate(ps[..n], limit, p, q);
      assert ps[p := q][..n] == ps[..n][p := q];
    } else {
      assert ps[p := q][..n] == ps[..n];
    }
  }

  lemma {:induction false} ReservedBound(ps: seq<Proc>, limit: nat)
    ensures Reserved(ps, limit) <= limit * Ops(ps)
  {
    if ps != [] {
      ReservedBound(ps[..|ps| - 1], limit);
      MulStep(limit, Ops(ps[..|ps| - 1]));
    }
  }

  lemma MulStep(a: nat, b: nat)
    ensures a * (b + 1) == a * b + a
  {
  }

  lemma {:induction false} NoOps(ps: seq<Proc>)
    ensures Ops(ps) == 0 <==> forall p :: 0 <= p < |ps| ==> !ps[p].InOp?
    ensures Ops(ps) == 0 ==> forall limit: nat :: Reserved(ps, limit) == 0
  {
    if ps != [] {
      NoOps(ps[..|ps| - 1]);
      assert forall p :: 0 <= p < |ps| - 1 ==> ps[p] == ps[..|ps| - 1][p];
    }
  }

  // ---------------------------------------------------------------------------
  // Control: who runs what

  predicate Committer(s: State, p: int) {
    0 <= p < |s.procs| && s.procs[p].InCommit?
  }

  /** At most one process is in commit(), only while log.committing is set and no
    operation is outstanding; an idle log is empty; during commit the list is the one
    commit started with until its count is reset for the last header write. */
  ghost predicate Control(s: State) {
    && s.outstanding == Ops(s.procs)
    && (s.panic == NoPanic || s.panic == TooBig)
    && (s.committing <==> exists p :: Committer(s, p))
    && (forall p, q :: Committer(s, p) && Committer(s, q) ==> p == q)
    && (s.committing ==> s.outstanding == 0)
    && (s.outstanding == 0 && !s.committing ==> s.lh == [])
    && (s.recovering.Some? ==> s.outstanding == 0 && !s.committing)
    && (forall p :: Committer(s, p) ==> ListOf(s.procs[p]) == s.lh)
  }

  /** log.lh as seen from inside commit(). */
  function ListOf(q: Proc): (r: seq<int>)
    requires q.InCommit?
  {
    if q.done < 2 * |q.list| + 2 then q.list else []
  }

  lemma ControlBegin(c: Config, s: State, p: nat)
    requires Control(s) && Enabled(c, s, Begin(p))
    ensures Control(DoBegin(s, p))
  {
    var t := DoBegin(s, p);
    OpsUpdate(s.procs, p, t.procs[p]);
    assert forall q :: Committer(t, q) ==> Committer(s, q);
  }

  lemma ControlCheck(c: Config, s: State, p: nat, w: Write)
    requires Control(s) && Enabled(c, s, Check(p, w))
    ensures Control(DoCheck(c, s, p, w))
  {
    var t := DoCheck(c, s, p, w);
    NoOps(s.procs);
    OpsUpdate(s.procs, p, t.procs[p]);
    assert s.procs[p := s.procs[p]] == s.procs;
    assert forall q :: Committer(t, q) <==> Committer(s, q);
  }

  lemma ControlAppend(c: Config, s: State, p: nat)
    requires Control(s) && Enabled(c, s, Append(p))
    ensures Control(DoAppend(s, p))
  {
    var t := DoAppend(s, p);
    NoOps(s.procs);
    OpsUpdate(s.procs, p, t.procs[p]);
    assert forall q :: Committer(t, q) <==> Committer(s, q);
  }

  lemma ControlEnd(c: Config, s: State, p: nat)
    requires Control(s) && Enabled(c, s, End(p))
    ensures Control(DoEnd(s, p))
  {
    var t := DoEnd(s, p);
    NoOps(s.procs);
    OpsUpdate(s.procs, p, t.procs[p]);
    assert forall q :: q != p ==> (Committer(t, q) <==> Committer(s, q));
    assert t.committing ==> Committer(t, p);
  }

  lemma ControlCommitWrite(c: Config, s: State, p: nat)
    requires Control(s) && Enabled(c, s, CommitWrite(p))
    ensures Control(DoCommitWrite(c, s, p))
  {
    hide Apply1, GoodDisk, GoodHeader, CommitWrites;
    var t := DoCommitWrite(c, s, p);
    var q := s.procs[p];
    CommitLength(c.g, q.d, q.pins, q.list);
    OpsUpdate(s.procs, p, t.procs[p]);
    assert Committer(s, p) && Committer(t, p);
    assert forall r :: r != p ==> (Committer(t, r) <==> Committer(s, r));
  }

  lemma ControlCommitDone(c: Config, s: State, p: nat)
    requires Control(s) && Enabled(c, s, CommitDone(p))
    ensures Control(DoCommitDone(s, p))
  {
    hide GoodDisk, GoodHeader, CommitWrites;
    var t := DoCommitDone(s, p);
    var q := s.procs[p];
    CommitLength(c.g, q.d, q.pins, q.list);
    OpsUpdate(s.procs, p, t.procs[p]);
    assert Committer(s, p);
    assert forall r :: Committer(t, r) ==> Committer(s, r) && r != p;
  }

  lemma ControlKept(c: Config, s: State, a: Action)
    requires Control(s) && Enabled(c, s, a)
    ensures Control(Next(c, s, a))
  {
    hide Control;
    match a {
      case Begin(p) => ControlBegin(c, s, p);
      case Check(p, w) => ControlCheck(c, s, p, w);
      case Append(p) => ControlAppend(c, s, p);
      case End(p) => ControlEnd(c, s, p);
      case CommitWrite(p) => ControlCommitWrite(c, s, p);
      case CommitDone(p) => ControlCommitDone(c, s, p);
      case Crash => ControlCrash(s);
      case RecoverWrite => ControlRecover(c, s, DoRecoverWrite(c, s));
      case RecoverDone => ControlRecover(c, s, s.(recovering := None));
    }
  }

  lemma ControlCrash(s: State)
    ensures Control(DoCrash(s))
  {
    var t := DoCrash(s);
    NoOps(t.procs);
    assert forall q :: !Committer(t, q);
  }

  lemma ControlRecover(c: Config, s: State, t: State)
    requires Control(s) && s.recovering.Some?
    requires t == s.(disk := t.disk, recovering := t.recovering)
    ensures Control(t)
  {
    assert forall q :: Committer(t, q) <==> Committer(s, q);
  }

  lemma CommitLength(g: Geometry, d: Disk, cache: map<int, Block>, lh: seq<int>)
    requires GoodDisk(g, d) && GoodHeader(g, |d|, lh)
    ensures |CommitWrites(g, d, cache, lh)| == if lh == [] then 0 else 2 * |lh| + 2
  {
    if lh != [] {
      CommittedLayout(g, d, cache, lh);
    }
  }

  // ---------------------------------------------------------------------------
  // Space: begin_op's reservation

  /** What the running operations may still add fits behind what is logged.  With
    MAXOPBLOCKS - 1 blocks per operation two blocks of the log stay unused. */
  ghost predicate Space(c: Config, s: State) {
    && c.limit <= MAXOPBLOCKS
    && (forall p :: 0 <= p < |s.procs| && s.procs[p].InOp? ==>
          (&& s.procs[p].appended <= c.limit
           && (s.procs[p].pending.Some? ==>
                 s.procs[p].appended < c.limit || s.procs[p].pending.value.blockno in s.lh)))
    && |s.lh| + Reserved(s.procs, c.limit) <= Bound(c)
    && (c.limit < MAXOPBLOCKS && LOGSIZE <= c.g.size ==> s.panic != TooBig)
  }

  function Bound(c: Config): (n: nat) {
    if c.limit < MAXOPBLOCKS then LOGSIZE - 2 else LOGSIZE
  }

  lemma SpaceBegin(c: Config, s: State, p: nat)
    requires Control(s) && Space(c, s) && Enabled(c, s, Begin(p))
    ensures Space(c, DoBegin(s, p))
  {
    var t := DoBegin(s, p);
    NoOps(s.procs);
    ReservedBound(s.procs, c.limit);
    ReservedUpdate(s.procs, c.limit, p, t.procs[p]);
    LinearGuard(c.limit, s.outstanding);
  }

  lemma LinearGuard(limit: nat, outstanding: int)
    requires limit <= MAXOPBLOCKS && 0 <= outstanding
    ensures limit * outstanding + limit <= (outstanding + 1) * MAXOPBLOCKS
    ensures limit < MAXOPBLOCKS ==> limit * outstanding + limit + outstanding + 1 <= (outstanding + 1) * MAXOPBLOCKS
  {
  }

  lemma SpaceCheck(c: Config, s: State, p: nat, w: Write)
    requires Space(c, s) && Enabled(c, s, Check(p, w))
    ensures Space(c, DoCheck(c, s, p, w))
  {
    var t := DoCheck(c, s, p, w);
    if t.panic == s.panic {
      hide Bound;
      ReservedUpdate(s.procs, c.limit, p, t.procs[p]);
    }
  }

  lemma SpaceAppend(c: Config, s: State, p: nat)
    requires Space(c, s) && Enabled(c, s, Append(p))
    ensures Space(c, DoAppend(s, p))
  {
    ReservedUpdate(s.procs, c.limit, p, DoAppend(s, p).procs[p]);
  }

  lemma SpaceEnd(c: Config, s: State, p: nat)
    requires Space(c, s) && Enabled(c, s, End(p))
    ensures Space(c, DoEnd(s, p))
  {
    hide Bound;
    var t := DoEnd(s, p);
    if t.panic == s.panic {
      ReservedUpdate(s.procs, c.limit, p, t.procs[p]);
    }
  }

  lemma SpaceCommit(c: Config, s: State, p: nat, t: State)
    requires Control(s) && Space(c, s) && p < |s.procs| && s.procs[p].InCommit?
    requires |t.procs| == |s.procs| && t.procs == s.procs[p := t.procs[p]] && !t.procs[p].InOp?
    requires t.panic == s.panic && |t.lh| <= |s.lh|
    ensures Space(c, t)
  {
    assert Committer(s, p);
    NoOps(s.procs);
    ReservedUpdate(s.procs, c.limit, p, t.procs[p]);
  }

  lemma SpaceKept(c: Config, s: State, a: Action)
    requires Control(s) && Space(c, s) && Enabled(c, s, a)
    ensures Space(c, Next(c, s, a))
  {
    hide Control, Space, CommitWrites, RecoveryWrites, GoodDisk, GoodHeader, Apply1;
    var t := Next(c, s, a);
    match a {
      case Begin(p) => SpaceBegin(c, s, p);
      case Check(p, w) => SpaceCheck(c, s, p, w);
      case Append(p) => SpaceAppend(c, s, p);
      case End(p) => SpaceEnd(c, s, p);
      case CommitWrite(p) => SpaceCommit(c, s, p, t);
      case CommitDone(p) => SpaceCommit(c, s, p, t);
      case Crash => SpaceSame(c, s, t);
      case RecoverWrite => SpaceSame(c, s, t);
      case RecoverDone => SpaceSame(c, s, t);
    }
  }

  lemma SpaceSame(c: Config, s: State, t: State)
    requires Space(c, s) && |t.lh| <= |s.lh| && t.panic in {NoPanic, s.panic}
    requires (t.procs == s.procs && t.lh == s.lh) || (forall p :: 0 <= p < |t.procs| ==> t.procs[p].Idle?)
    ensures Space(c, t)
  {
    NoOps(t.procs);
  }

  // ---------------------------------------------------------------------------
  // Membership: every operation lies inside one group

  predicate From(s: State, op: nat, e: int) {
    op in s.epoch && s.epoch[op] == e
  }

  predicate Runs(s: State, p: int, k: nat) {
    0 <= p < |s.procs| && s.procs[p].InOp? && s.procs[p].op == k
  }

  /** An operation of the current group runs in one process or has ended; those of a
    committed group have all ended. */
  ghost predicate Placed(s: State) {
    && s.ended <= s.epoch.Keys
    && (forall k :: k in s.epoch ==> k < |s.epoch| && s.epoch[k] <= |s.history|)
    && (forall p, k :: Runs(s, p, k) ==> From(s, k, |s.history|) && k !in s.ended)
    && (forall p, q, k :: Runs(s, p, k) && Runs(s, q, k) ==> p == q)
    && (forall k :: From(s, k, |s.history|) ==> k in s.ended || exists p :: Runs(s, p, k))
    && (forall k, e :: From(s, k, e) && 0 <= e < |s.history| && s.history[e].committed ==> k in s.ended)
  }

  /** Every record of a group comes from an operation of that group. */
  ghost predicate Recorded(s: State) {
    && (forall e, i :: 0 <= e < |s.history| && 0 <= i < |s.history[e].records| ==>
          From(s, s.history[e].records[i].op, e))
    && (forall i :: 0 <= i < |s.current| ==> From(s, s.current[i].op, |s.history|))
  }

  ghost predicate Membership(s: State) {
    Placed(s) && Recorded(s)
  }

  lemma RecordedSame(s: State, t: State)
    requires Recorded(s) && t.history == s.history
    requires forall k, e :: From(s, k, e) ==> From(t, k, e)
    requires t.current == s.current
      || exists r: Record :: From(s, r.op, |s.history|) && t.current == s.current + [r]
    ensures Recorded(t)
  {
  }

  lemma RecordedClose(s: State, t: State, committed: bool)
    requires Recorded(s) && t.epoch == s.epoch
    requires t.history == s.history + [Group(s.current, committed)] && t.current == []
    ensures Recorded(t)
  {
    assert forall k, e :: From(s, k, e) ==> From(t, k, e);
  }

  lemma PlacedBegin(c: Config, s: State, p: nat)
    requires Placed(s) && Enabled(c, s, Begin(p))
    ensures Placed(DoBegin(s, p))
    ensures forall k, e :: From(s, k, e) ==> From(DoBegin(s, p), k, e)
  {
    var t := DoBegin(s, p);
    var op := |s.epoch|;
    assert op !in s.epoch;
    assert t.epoch.Keys == s.epoch.Keys + {op};
    assert |t.epoch| == |s.epoch.Keys + {op}|;
    assert Runs(t, p, op);
    assert forall q, k :: Runs(s, q, k) ==> Runs(t, q, k);
    assert forall q, k :: Runs(t, q, k) ==> Runs(s, q, k) || (q == p && k == op);
  }

  lemma PlacedSame(s: State, t: State)
    requires Placed(s)
    requires forall p, k :: Runs(s, p, k) <==> Runs(t, p, k)
    requires t.epoch == s.epoch && t.history == s.history && t.ended == s.ended
    ensures Placed(t)
  {
    assert forall k, e :: From(s, k, e) <==> From(t, k, e);
  }

  lemma PlacedEnd(s: State, t: State, p: nat, op: nat)
    requires Placed(s) && Runs(s, p, op)
    requires forall q, k :: Runs(t, q, k) <==> Runs(s, q, k) && q != p
    requires t.epoch == s.epoch && t.history == s.history && t.ended == s.ended + {op}
    ensures Placed(t)
  {
    assert forall k, e :: From(s, k, e) <==> From(t, k, e);
  }

  lemma PlacedClose(s: State, t: State, committed: bool)
    requires Placed(s)
    requires forall p, k :: !Runs(t, p, k)
    requires committed ==> forall p, k :: !Runs(s, p, k)
    requires t.epoch == s.epoch && t.ended == s.ended
    requires t.history == s.history + [Group(s.current, committed)]
    ensures Placed(t)
  {
    assert forall k, e :: From(s, k, e) <==> From(t, k, e);
  }

  lemma MembershipInside(s: State, t: State)
    requires Membership(s)
    requires forall p, k :: Runs(s, p, k) <==> Runs(t, p, k)
    requires t.epoch == s.epoch && t.history == s.history && t.ended == s.ended
    requires t.current == s.current
      || exists r: Record :: From(s, r.op, |s.history|) && t.current == s.current + [r]
    ensures Membership(t)
  {
    PlacedSame(s, t);
    RecordedSame(s, t);
  }

  lemma MembershipBegin(c: Config, s: State, p: nat)
    requires Membership(s) && Enabled(c, s, Begin(p))
    ensures Membership(DoBegin(s, p))
  {
    PlacedBegin(c, s, p);
    hide Placed;
    RecordedSame(s, DoBegin(s, p));
  }

  lemma MembershipAppend(c: Config, s: State, p: nat)
    requires Membership(s) && Enabled(c, s, Append(p))
    ensures Membership(DoAppend(s, p))
  {
    hide Recorded, Absorb;
    var t := DoAppend(s, p);
    var r := t.current[|s.current|];
    assert Runs(s, p, r.op);
    MembershipInside(s, t);
  }

  lemma MembershipEnd(c: Config, s: State, p: nat)
    requires Membership(s) && Control(s) && Enabled(c, s, End(p))
    ensures Membership(DoEnd(s, p))
  {
    NoOps(s.procs);
    hide Placed, Recorded;
    var t := DoEnd(s, p);
    PlacedEnd(s, t, p, s.procs[p].op);
    RecordedSame(s, t);
  }

  lemma MembershipClose(s: State, t: State, committed: bool)
    requires Membership(s)
    requires forall p, k :: !Runs(t, p, k)
    requires committed ==> forall p, k :: !Runs(s, p, k)
    requires t.epoch == s.epoch && t.ended == s.ended
    requires t.history == s.history + [Group(s.current, committed)] && t.current == []
    ensures Membership(t)
  {
    PlacedClose(s, t, committed);
    RecordedClose(s, t, committed);
  }

  lemma MembershipCommit(c: Config, s: State, p: nat, a: Action)
    requires Control(s) && Membership(s) && Enabled(c, s, a)
    requires a == CommitWrite(p) || a == CommitDone(p)
    ensures Membership(Next(c, s, a))
  {
    hide Membership, CommitWrites, GoodDisk, GoodHeader, Apply1;
    var t := Next(c, s, a);
    NoOps(s.procs);
    assert Committer(s, p);
    if t.history == s.history {
      MembershipInside(s, t);
    } else {
      MembershipClose(s, t, true);
    }
  }

  lemma MembershipKept(c: Config, s: State, a: Action)
    requires Control(s) && Membership(s) && Enabled(c, s, a)
    ensures Membership(Next(c, s, a))
  {
    hide Control, Membership, CommitWrites, RecoveryWrites, GoodDisk, GoodHeader, Apply1;
    var t := Next(c, s, a);
    match a {
      case Begin(p) => MembershipBegin(c, s, p);
      case Check(p, _) => MembershipInside(s, t);
      case Append(p) => MembershipAppend(c, s, p);
      case End(p) => MembershipEnd(c, s, p);
      case CommitWrite(p) => MembershipCommit(c, s, p, a);
      case CommitDone(p) => MembershipCommit(c, s, p, a);
      case Crash => MembershipClose(s, t, false);
      case RecoverWrite => MembershipInside(s, t);
      case RecoverDone => MembershipInside(s, t);
    }
  }

  // ---------------------------------------------------------------------------
  // Durability

  function Writes(rs: seq<Record>): (ws: seq<Write>) {
    seq(|rs|, i requires 0 <= i < |rs| => rs[i].w)
  }

  /** The log_writes of the committed groups, in order, over the disk at power on. */
  function Replay(base: Disk, h: seq<Group>): (r: Disk)
    ensures |r| == |base|
  {
    if h == [] then base else
      var d := Replay(base, h[..|h| - 1]);
      if h[|h| - 1].committed then Apply(d, Writes(h[|h| - 1].records)) else d
  }

  /** The contents a reader must see: committed groups and the current one. */
  function Latest(base: Disk, s: State): (r: Disk)
    ensures |r| == |base|
  {
    Apply(Replay(base, s.history), Writes(s.current))
  }

  ghost predicate Pinned(cache: map<int, Block>, lh: seq<int>) {
    forall b :: b in cache <==> b in lh
  }

  /** No commit under way: the header is empty and disk plus pins are the latest. */
  ghost predicate Open(c: Config, base: Disk, s: State) {
    && GoodDisk(c.g, s.disk) && HeaderOf(s.disk[c.g.start]) == []
    && GoodHeader(c.g, |s.disk|, s.lh)
    && Pinned(s.cache, s.lh)
    && HomeEq(c.g, Overlay(s.disk, s.cache, s.lh), Latest(base, s))
  }

  /** The commit of q has made its first q.done writes. */
  ghost predicate InProgress(c: Config, base: Disk, s: State, q: Proc)
    requires q.InCommit?
  {
    && GoodDisk(c.g, q.d) && HeaderOf(q.d[c.g.start]) == [] && |q.d| == |base|
    && GoodHeader(c.g, |q.d|, q.list)
    && Pinned(q.pins, q.list)
    && q.done <= |CommitWrites(c.g, q.d, q.pins, q.list)|
    && s.disk == Apply(q.d, CommitWrites(c.g, q.d, q.pins, q.list)[..q.done])
    && HomeEq(c.g, Overlay(q.d, q.pins, q.list), Latest(base, s))
    && (if q.done <= |q.list| then HomeEq(c.g, q.d, Replay(base, s.history)) else s.current == [])
    && (forall b :: b in s.cache ==> b in q.pins && s.cache[b] == q.pins[b])
    && (forall i :: 0 <= i < |q.list| ==> (q.list[i] in s.cache <==> q.done <= i + |q.list| + 1))
  }

  ghost predicate Rebooting(c: Config, s: State, d: Disk, k: nat) {
    && GoodDisk(c.g, d)
    && k <= |RecoveryWrites(c.g, d)|
    && s.disk == Apply(d, RecoveryWrites(c.g, d)[..k])
    && s.cache == map[] && s.current == [] && s.lh == []
  }

  /** The disk always means the committed groups, whatever is under way. */
  ghost predicate Durable(c: Config, base: Disk, s: State) {
    && |s.disk| == |base|
    && GoodDisk(c.g, s.disk)
    && HomeEq(c.g, Meaning(c.g, s.disk), Replay(base, s.history))
    && (s.recovering.Some? ==> Rebooting(c, s, s.recovering.value.0, s.recovering.value.1))
    && (s.recovering.None? && !s.committing ==> Open(c, base, s))
    && (s.recovering.None? ==> forall p :: Committer(s, p) ==> InProgress(c, base, s, s.procs[p]))
    && (forall p :: 0 <= p < |s.procs| && s.procs[p].InOp? && s.procs[p].pending.Some? ==>
          HomeBlock(c, base, s.procs[p].pending.value.blockno))
  }

  predicate HomeBlock(c: Config, base: Disk, b: int) {
    0 <= b < |base| && !InLog(c.g, b)
  }

  lemma WritesSnoc(rs: seq<Record>, r: Record)
    ensures Writes(rs + [r]) == Writes(rs) + [r.w]
  {
  }

  lemma LatestSnoc(base: Disk, s: State, t: State, r: Record)
    requires t.history == s.history && t.current == s.current + [r]
    ensures Latest(base, t) == Apply1(Latest(base, s), r.w)
  {
    hide Apply1, Replay;
    WritesSnoc(s.current, r);
    var d, ws := Replay(base, s.history), Writes(s.current);
    assert (ws + [r.w])[..|ws|] == ws;
    ApplySnoc(d, ws + [r.w], |ws|);
    assert (ws + [r.w])[..|ws| + 1] == ws + [r.w];
  }

  /** Closing the group by a commit turns the latest contents into the durable ones. */
  lemma CloseCommitted(base: Disk, s: State, t: State)
    requires t.history == s.history + [Group(s.current, true)] && t.current == []
    ensures Replay(base, t.history) == Latest(base, s) == Latest(base, t)
  {
    hide Apply;
    assert t.history[..|t.history| - 1] == s.history;
    assert Writes(t.current) == [];
    ApplyNone(Replay(base, t.history));
  }

  lemma CloseAborted(base: Disk, s: State, t: State)
    requires t.history == s.history + [Group(s.current, false)] && t.current == []
    ensures Replay(base, t.history) == Replay(base, s.history) == Latest(base, t)
  {
    hide Apply;
    assert t.history[..|t.history| - 1] == s.history;
    assert Writes(t.current) == [];
    ApplyNone(Replay(base, t.history));
  }

  lemma OverlayAppend(d: Disk, cache: map<int, Block>, lh: seq<int>, w: Write)
    requires 0 <= w.blockno < |d| && Pinned(cache, lh)
    ensures Overlay(d, cache[w.blockno := w.data], Absorb(lh, w.blockno)) == Apply1(Overlay(d, cache, lh), w)
  {
  }

  lemma HomeApply1(g: Geometry, d: Disk, e: Disk, w: Write)
    requires HomeEq(g, d, e)
    ensures HomeEq(g, Apply1(d, w), Apply1(e, w))
  {
  }

  lemma AbsorbGood(g: Geometry, n: nat, lh: seq<int>, b: int)
    requires GoodHeader(g, n, lh) && 0 <= b < n && !InLog(g, b)
    requires b in lh || (|lh| < LOGSIZE && |lh| + 1 < g.size)
    ensures GoodHeader(g, n, Absorb(lh, b))
  {
  }

  lemma OpenAppend(c: Config, base: Disk, s: State, p: nat)
    requires Open(c, base, s) && |s.disk| == |base| && GoodDisk(c.g, s.disk)
    requires Enabled(c, s, Append(p)) && HomeBlock(c, base, s.procs[p].pending.value.blockno)
    requires GoodHeader(c.g, |base|, DoAppend(s, p).lh)
    ensures Open(c, base, DoAppend(s, p))
  {
    hide Apply, Overlay, Latest, GoodHeader, Absorb, HeaderOf;
    var t := DoAppend(s, p);
    var w := s.procs[p].pending.value;
    OverlayAppend(s.disk, s.cache, s.lh, w);
    LatestSnoc(base, s, t, Record(s.procs[p].op, w));
    HomeApply1(c.g, Overlay(s.disk, s.cache, s.lh), Latest(base, s), w);
  }

  /** Steps that touch neither disk, pins nor history. */
  lemma DurableFrame(c: Config, base: Disk, s: State, t: State)
    requires Durable(c, base, s)
    requires t.disk == s.disk && t.cache == s.cache && t.lh == s.lh && t.recovering == s.recovering
    requires t.history == s.history && t.current == s.current && t.committing == s.committing
    requires forall p :: Committer(t, p) ==> Committer(s, p) && t.procs[p] == s.procs[p]
    requires forall p :: 0 <= p < |t.procs| && t.procs[p].InOp? && t.procs[p].pending.Some? ==>
      HomeBlock(c, base, t.procs[p].pending.value.blockno)
    ensures Durable(c, base, t)
  {
    hide Apply, Meaning, Overlay, GoodHeader, GoodDisk, HomeEq, CommitWrites, RecoveryWrites, Replay, HeaderOf;
  }

  lemma DurableAppend(c: Config, base: Disk, s: State, p: nat)
    requires Durable(c, base, s) && Control(s) && Space(c, s)
    requires Enabled(c, s, Append(p)) && |DoAppend(s, p).lh| < c.g.size
    ensures Durable(c, base, DoAppend(s, p))
  {
    hide Open, InProgress, Rebooting, Meaning, Replay, HomeEq, GoodDisk;
    var t := DoAppend(s, p);
    NoOps(s.procs);
    SpaceAppend(c, s, p);
    assert GoodHeader(c.g, |base|, t.lh) by {
      assert Open(c, base, s);
      OpenHeader(c, base, s);
      AbsorbGood(c.g, |base|, s.lh, s.procs[p].pending.value.blockno);
    }
    OpenAppend(c, base, s, p);
    assert forall q :: Committer(t, q) ==> Committer(s, q);
  }

  lemma OpenHeader(c: Config, base: Disk, s: State)
    requires Open(c, base, s)
    ensures GoodHeader(c.g, |s.disk|, s.lh)
  {
  }

  /** The snapshot end_op takes when it starts to commit. */
  lemma StartCommit(c: Config, base: Disk, s: State, t: State, q: Proc)
    requires Open(c, base, s) && |s.disk| == |base|
    requires HomeEq(c.g, Meaning(c.g, s.disk), Replay(base, s.history))
    requires q == InCommit(s.disk, s.cache, s.lh, 0)
    requires t.disk == s.disk && t.cache == s.cache && t.history == s.history && t.current == s.current
    ensures InProgress(c, base, t, q)
  {
    hide Apply, Overlay, Replay, Latest, GoodHeader, GoodDisk, HomeEq, HeaderOf, CommitWrites;
    EmptyMeaning(c.g, s.disk);
    ApplyNone(s.disk);
    LatestSame(base, s, t);
    assert CommitWrites(c.g, q.d, q.pins, q.list)[..0] == [];
    forall i | 0 <= i < |q.list|
      ensures q.list[i] in t.cache
    {
      assert Pinned(s.cache, s.lh);
      var b := s.lh[i];
      assert b in s.lh;
    }
  }

  lemma DurableEnd(c: Config, base: Disk, s: State, p: nat)
    requires Durable(c, base, s) && Control(s) && Enabled(c, s, End(p))
    ensures Durable(c, base, DoEnd(s, p))
  {
    hide Open, InProgress, Rebooting, Meaning, Replay, HomeEq, GoodDisk;
    var t := DoEnd(s, p);
    NoOps(s.procs);
    assert !s.committing;
    if t.committing {
      StartCommit(c, base, s, t, t.procs[p]);
      assert forall q :: Committer(t, q) ==> q == p || Committer(s, q);
    } else {
      assert forall q :: Committer(t, q) ==> Committer(s, q);
      DurableFrame(c, base, s, t);
    }
  }

  /** The shape of commit's k-th write. */
  lemma CommitWriteAt(g: Geometry, d: Disk, pins: map<int, Block>, list: seq<int>, k: nat)
    requires GoodDisk(g, d) && GoodHeader(g, |d|, list)
    requires k < |CommitWrites(g, d, pins, list)|
    ensures |CommitWrites(g, d, pins, list)| == 2 * |list| + 2
    ensures var w := CommitWrites(g, d, pins, list)[k];
      if |list| < k < 2 * |list| + 1 then w.blockno == list[k - |list| - 1] else InLog(g, w.blockno)
  {
    hide CommitWrites, RecoveryWrites, GoodDisk, HeaderOf, Committed, HeaderWith, View, Apply;
    var cw, e := CommitWrites(g, d, pins, list), Committed(g, d, pins, list);
    CommitLength(g, d, pins, list);
    CommitSplit(g, d, pins, list);
    CommittedHeader(g, d, pins, list);
    if k < |list| {
      assert cw[k] == cw[..|list|][k];
    } else if k > |list| {
      RecoveryWriteAt(g, e, k - |list| - 1);
      assert cw[k] == cw[|list| + 1..][k - |list| - 1];
    }
  }

  lemma CommittedHeader(g: Geometry, d: Disk, pins: map<int, Block>, list: seq<int>)
    requires GoodDisk(g, d) && GoodHeader(g, |d|, list)
    ensures GoodDisk(g, Committed(g, d, pins, list))
    ensures HeaderOf(Committed(g, d, pins, list)[g.start]) == list
  {
    CommittedLayout(g, d, pins, list);
  }

  lemma RecoveryWriteAt(g: Geometry, d: Disk, k: nat)
    requires GoodDisk(g, d) && k < |RecoveryWrites(g, d)|
    ensures |RecoveryWrites(g, d)| == |HeaderOf(d[g.start])| + 1
    ensures RecoveryWrites(g, d)[k].blockno
      == if k < |HeaderOf(d[g.start])| then HeaderOf(d[g.start])[k] else g.start
  {
  }

  lemma ProgressCache(c: Config, base: Disk, s: State, q: Proc, cache: map<int, Block>)
    requires q.InCommit? && InProgress(c, base, s, q)
    requires q.done < |CommitWrites(c.g, q.d, q.pins, q.list)|
    requires cache == s.cache - {CommitWrites(c.g, q.d, q.pins, q.list)[q.done].blockno}
    ensures forall b :: b in cache ==> b in q.pins && cache[b] == q.pins[b]
    ensures forall i :: 0 <= i < |q.list| ==> (q.list[i] in cache <==> q.done + 1 <= i + |q.list| + 1)
  {
    hide Apply, Overlay, Replay, CommitWrites, HomeEq, HeaderOf;
    CommitWriteAt(c.g, q.d, q.pins, q.list, q.done);
  }

  lemma ProgressStep(c: Config, base: Disk, s: State, t: State, q: Proc)
    requires q.InCommit? && InProgress(c, base, s, q)
    requires q.done < |CommitWrites(c.g, q.d, q.pins, q.list)|
    requires t.disk == Apply1(s.disk, CommitWrites(c.g, q.d, q.pins, q.list)[q.done])
    requires t.cache == s.cache - {CommitWrites(c.g, q.d, q.pins, q.list)[q.done].blockno}
    requires if q.done == |q.list| then t.history == s.history + [Group(s.current, true)] && t.current == []
             else t.history == s.history && t.current == s.current
    ensures InProgress(c, base, t, q.(done := q.done + 1))
  {
    hide Apply, Overlay, Replay, CommitWrites, HomeEq, HeaderOf, Apply1, GoodDisk, GoodHeader, Latest;
    ProgressCache(c, base, s, q, t.cache);
    ApplySnoc(q.d, CommitWrites(c.g, q.d, q.pins, q.list), q.done);
    if q.done == |q.list| {
      CloseCommitted(base, s, t);
    } else {
      LatestSame(base, s, t);
    }
  }

  lemma LatestSame(base: Disk, s: State, t: State)
    requires t.history == s.history && t.current == s.current
    ensures Latest(base, t) == Latest(base, s)
  {
  }

  /** What the disk means while a commit is under way. */
  lemma ProgressMeaning(c: Config, base: Disk, s: State, q: Proc)
    requires q.InCommit? && InProgress(c, base, s, q)
    ensures |s.disk| == |base| && GoodDisk(c.g, s.disk)
    ensures HomeEq(c.g, Meaning(c.g, s.disk), Replay(base, s.history))
  {
    hide Apply, Overlay, Replay, CommitWrites, HomeEq, HeaderOf, Meaning, GoodDisk, GoodHeader;
    if q.done <= |q.list| {
      CommitBefore(c.g, q.d, q.pins, q.list, q.done);
      HomeTrans(c.g, Meaning(c.g, s.disk), q.d, Replay(base, s.history));
    } else {
      CommitAfter(c.g, q.d, q.pins, q.list, q.done);
      assert Writes(s.current) == [];
      ApplyNone(Replay(base, s.history));
      HomeTrans(c.g, Meaning(c.g, s.disk), Overlay(q.d, q.pins, q.list), Replay(base, s.history));
    }
  }

  lemma DurableCommitWrite(c: Config, base: Disk, s: State, p: nat)
    requires Durable(c, base, s) && Control(s) && Enabled(c, s, CommitWrite(p))
    ensures Durable(c, base, DoCommitWrite(c, s, p))
  {
    hide Open, InProgress, Rebooting, Meaning, Replay, HomeEq, GoodDisk, GoodHeader, CommitWrites, Apply1, Ops;
    var t := DoCommitWrite(c, s, p);
    var q := s.procs[p];
    assert Committer(s, p);
    NoOps(s.procs);
    ProgressStep(c, base, s, t, q);
    ProgressMeaning(c, base, t, t.procs[p]);
    assert forall r :: Committer(t, r) ==> r == p || Committer(s, r);
  }

  /** Once commit has made its last write nothing is pinned and the log is open. */
  lemma FinishCommit(c: Config, base: Disk, s: State, t: State, q: Proc)
    requires q.InCommit? && InProgress(c, base, s, q) && |s.disk| == |base|
    requires q.done == |CommitWrites(c.g, q.d, q.pins, q.list)|
    requires t.disk == s.disk && t.cache == s.cache && t.lh == []
    requires if q.list == [] then t.history == s.history + [Group(s.current, true)] && t.current == []
             else t.history == s.history && t.current == s.current
    ensures Open(c, base, t)
  {
    hide Apply, Overlay, Replay, CommitWrites, HomeEq, HeaderOf, Latest;
    var cw := CommitWrites(c.g, q.d, q.pins, q.list);
    assert cw[..|cw|] == cw;
    CommitEnds(c.g, q.d, q.pins, q.list);
    CommitLength(c.g, q.d, q.pins, q.list);
    assert forall b :: b !in s.cache;
    if q.list == [] {
      CloseCommitted(base, s, t);
    } else {
      LatestSame(base, s, t);
    }
    OverlayNothing(t.disk, t.cache);
    HomeTrans(c.g, t.disk, Overlay(q.d, q.pins, q.list), Latest(base, t));
  }

  lemma OverlayNothing(d: Disk, cache: map<int, Block>)
    ensures Overlay(d, cache, []) == d
  {
  }

  lemma DurableCommitDone(c: Config, base: Disk, s: State, p: nat)
    requires Durable(c, base, s) && Control(s) && Enabled(c, s, CommitDone(p))
    ensures Durable(c, base, DoCommitDone(s, p))
  {
    hide Open, InProgress, Rebooting, Meaning, Replay, HomeEq, GoodDisk, GoodHeader, CommitWrites, Ops;
    var t := DoCommitDone(s, p);
    var q := s.procs[p];
    assert Committer(s, p);
    NoOps(s.procs);
    CommitLength(c.g, q.d, q.pins, q.list);
    FinishCommit(c, base, s, t, q);
    assert forall r :: Committer(t, r) ==> Committer(s, r) && r != p;
    if q.list == [] {
      EmptyCommit(c, base, s, t, q);
    }
  }

  /** A commit of an empty log changes nothing. */
  lemma EmptyCommit(c: Config, base: Disk, s: State, t: State, q: Proc)
    requires q.InCommit? && InProgress(c, base, s, q) && q.list == []
    requires q.done == |CommitWrites(c.g, q.d, q.pins, q.list)|
    requires t.disk == s.disk && t.history == s.history + [Group(s.current, true)] && t.current == []
    ensures HomeEq(c.g, Meaning(c.g, t.disk), Replay(base, t.history))
  {
    hide Apply, Replay, HomeEq, HeaderOf, Latest, Overlay, Meaning, GoodDisk, GoodHeader;
    ApplyNone(q.d);
    CloseCommitted(base, s, t);
    EmptyMeaning(c.g, q.d);
    OverlayNothing(q.d, q.pins);
  }

  lemma DurableCrash(c: Config, base: Disk, s: State)
    requires Durable(c, base, s)
    ensures Durable(c, base, DoCrash(s))
  {
    hide Open, InProgress, Meaning, Replay, HomeEq, GoodDisk, Apply, RecoveryWrites;
    var t := DoCrash(s);
    CloseAborted(base, s, t);
    ApplyNone(s.disk);
    assert forall q :: !Committer(t, q);
  }

  lemma DurableRecoverWrite(c: Config, base: Disk, s: State)
    requires Durable(c, base, s) && Control(s) && Enabled(c, s, RecoverWrite)
    ensures Durable(c, base, DoRecoverWrite(c, s))
  {
    hide Open, InProgress, Meaning, Replay, HomeEq, GoodDisk, Apply, Apply1, RecoveryWrites, Ops;
    var t := DoRecoverWrite(c, s);
    var (d, k) := s.recovering.value;
    NoOps(s.procs);
    ApplySnoc(d, RecoveryWrites(c.g, d), k);
    RecoveryPrefix(c.g, d, k);
    RecoveryPrefix(c.g, d, k + 1);
    RecoveredHome(c.g, Meaning(c.g, t.disk), Meaning(c.g, s.disk), Meaning(c.g, d), Replay(base, s.history));
  }

  lemma RecoveredHome(g: Geometry, a: Disk, b: Disk, d: Disk, r: Disk)
    requires HomeEq(g, a, d) && HomeEq(g, b, d) && HomeEq(g, b, r)
    ensures HomeEq(g, a, r)
  {
  }

  lemma DurableRecoverDone(c: Config, base: Disk, s: State)
    requires Durable(c, base, s) && Control(s) && Enabled(c, s, RecoverDone)
    ensures Durable(c, base, s.(recovering := None))
  {
    hide InProgress, Meaning, Replay, HomeEq, Apply, Apply1, RecoveryWrites, Ops, Overlay, HeaderOf;
    var t := s.(recovering := None);
    var (d, k) := s.recovering.value;
    var rw := RecoveryWrites(c.g, d);
    assert rw[..|rw|] == rw;
    RecoveryEnds(c.g, d);
    EmptyMeaning(c.g, s.disk);
    OverlayNothing(s.disk, s.cache);
    assert Writes(s.current) == [];
    ApplyNone(Replay(base, s.history));
    assert forall q :: Committer(t, q) ==> Committer(s, q);
  }

  // ---------------------------------------------------------------------------
  // Whole runs

  /** The log is longer than the reservation can fill it. */
  predicate Fits(c: Config) {
    c.limit <= MAXOPBLOCKS && Bound(c) < c.g.size
  }

  /** In the run the log always has a block for every block on the list, besides the header. */
  ghost predicate Within(c: Config, s: State, acts: seq<Action>) {
    acts == [] ||
    (&& Within(c, s, acts[..|acts| - 1])
     && (Exec(c, s, acts).Some? ==> |Exec(c, s, acts).value.lh| < c.g.size))
  }

  ghost predicate Inv(c: Config, base: Disk, s: State) {
    Control(s) && Space(c, s) && Membership(s) && Durable(c, base, s)
  }

  lemma InvBoot(c: Config, d: Disk, nprocs: nat)
    requires c.limit <= MAXOPBLOCKS && GoodDisk(c.g, d)
    ensures Inv(c, Meaning(c.g, d), Boot(d, nprocs))
  {
    hide Meaning, GoodDisk, Apply, RecoveryWrites;
    var s := Boot(d, nprocs);
    NoOps(s.procs);
    ApplyNone(d);
    assert forall q :: !Committer(s, q);
    MeaningLength(c.g, d);
  }

  lemma MeaningLength(g: Geometry, d: Disk)
    requires GoodDisk(g, d)
    ensures |Meaning(g, d)| == |d|
  {
  }

  lemma DurableKept(c: Config, base: Disk, s: State, a: Action)
    requires Inv(c, base, s) && Enabled(c, s, a) && |Next(c, s, a).lh| < c.g.size
    ensures Durable(c, base, Next(c, s, a))
  {
    var t := Next(c, s, a);
    match a {
      case Begin(p) => DurableBegin(c, base, s, p);
      case Check(p, w) => DurableCheck(c, base, s, p, w);
      case Append(p) => hide Control, Space, Membership, Durable; DurableAppend(c, base, s, p);
      case End(p) => hide Control, Space, Membership, Durable; DurableEnd(c, base, s, p);
      case CommitWrite(p) => hide Control, Space, Membership, Durable; DurableCommitWrite(c, base, s, p);
      case CommitDone(p) => hide Control, Space, Membership, Durable; DurableCommitDone(c, base, s, p);
      case Crash => hide Control, Space, Membership, Durable; DurableCrash(c, base, s);
      case RecoverWrite => hide Control, Space, Membership, Durable; DurableRecoverWrite(c, base, s);
      case RecoverDone => hide Control, Space, Membership, Durable; DurableRecoverDone(c, base, s);
    }
  }

  lemma DurableBegin(c: Config, base: Disk, s: State, p: nat)
    requires Durable(c, base, s) && Control(s) && Enabled(c, s, Begin(p))
    ensures Durable(c, base, DoBegin(s, p))
  {
    hide Open, InProgress, Rebooting, Meaning, Replay, HomeEq, GoodDisk;
    var t := DoBegin(s, p);
    assert forall q :: Committer(t, q) ==> Committer(s, q);
    DurableFrame(c, base, s, t);
  }

  lemma DurableCheck(c: Config, base: Disk, s: State, p: nat, w: Write)
    requires Durable(c, base, s) && Control(s) && Enabled(c, s, Check(p, w))
    ensures Durable(c, base, DoCheck(c, s, p, w))
  {
    hide Open, InProgress, Rebooting, Meaning, Replay, HomeEq, GoodDisk;
    var t := DoCheck(c, s, p, w);
    assert forall q :: Committer(t, q) ==> Committer(s, q);
    DurableFrame(c, base, s, t);
  }

  lemma InvKept(c: Config, base: Disk, s: State, a: Action)
    requires Inv(c, base, s) && Enabled(c, s, a) && |Next(c, s, a).lh| < c.g.size
    ensures Inv(c, base, Next(c, s, a))
  {
    hide Control, Space, Membership, Durable, Enabled, Next;
    ControlKept(c, s, a);
    SpaceKept(c, s, a);
    MembershipKept(c, s, a);
    DurableKept(c, base, s, a);
  }

  /** Every run that stays within the log keeps the invariant, whatever the interleaving and the crashes. */
  lemma {:induction false} InvAlways(c: Config, d: Disk, nprocs: nat, acts: seq<Action>)
    requires c.limit <= MAXOPBLOCKS && GoodDisk(c.g, d)
    requires Exec(c, Boot(d, nprocs), acts).Some? && Within(c, Boot(d, nprocs), acts)
    ensures Inv(c, Meaning(c.g, d), Exec(c, Boot(d, nprocs), acts).value)
  {
    hide Inv, Next, Enabled;
    if acts == [] {
      InvBoot(c, d, nprocs);
    } else {
      InvAlways(c, d, nprocs, acts[..|acts| - 1]);
      var m := Exec(c, Boot(d, nprocs), acts[..|acts| - 1]).value;
      InvKept(c, Meaning(c.g, d), m, acts[|acts| - 1]);
    }
  }

  /** The part of the invariant that does not depend on the size of the log. */
  lemma {:induction false} ControlAlways(c: Config, d: Disk, nprocs: nat, acts: seq<Action>)
    requires c.limit <= MAXOPBLOCKS && Exec(c, Boot(d, nprocs), acts).Some?
    ensures var s := Exec(c, Boot(d, nprocs), acts).value; Control(s) && Space(c, s) && Membership(s)
  {
    if acts == [] {
      var s := Boot(d, nprocs);
      NoOps(s.procs);
      assert forall q :: !Committer(s, q);
    } else {
      hide Control, Space, Membership, Enabled, Next;
      ControlAlways(c, d, nprocs, acts[..|acts| - 1]);
      var m, a := Exec(c, Boot(d, nprocs), acts[..|acts| - 1]).value, acts[|acts| - 1];
      ControlKept(c, m, a);
      SpaceKept(c, m, a);
      MembershipKept(c, m, a);
    }
  }

  /** Group commit: in every run at most one process is in commit(), and while one is
    no operation is outstanding and the logged list is the one commit started with;
    neither end_op's nor log_write's other panic is reached, and the "too big"
    panic is not reached when operations keep to MAXOPBLOCKS - 1 blocks and the log
    has LOGSIZE blocks. */
  lemma GroupCommit(c: Config, d: Disk, nprocs: nat, acts: seq<Action>, p: nat, q: nat)
    requires c.limit <= MAXOPBLOCKS && Exec(c, Boot(d, nprocs), acts).Some?
    ensures var s := Exec(c, Boot(d, nprocs), acts).value;
      && (Committer(s, p) && Committer(s, q) ==> p == q)
      && (Committer(s, p) ==> s.committing && s.outstanding == 0 && ListOf(s.procs[p]) == s.lh)
      && (Committer(s, p) && q < |s.procs| ==> !s.procs[q].InOp?)
      && s.panic != WhileCommitting && s.panic != OutsideTrans
      && (c.limit < MAXOPBLOCKS && LOGSIZE <= c.g.size ==> s.panic == NoPanic)
      && |s.lh| <= Bound(c) <= LOGSIZE
  {
    hide Exec, Membership;
    ControlAlways(c, d, nprocs, acts);
    var s := Exec(c, Boot(d, nprocs), acts).value;
    NoOps(s.procs);
  }

  /** A log that fits is never outgrown. */
  lemma {:induction false} FitsWithin(c: Config, d: Disk, nprocs: nat, acts: seq<Action>)
    requires Fits(c)
    ensures Within(c, Boot(d, nprocs), acts)
  {
    if acts != [] {
      hide Exec;
      FitsWithin(c, d, nprocs, acts[..|acts| - 1]);
      if Exec(c, Boot(d, nprocs), acts).Some? {
        GroupCommit(c, d, nprocs, acts, 0, 0);
      }
    }
  }

  /** Atomic operations: in every run that stays within the log, once no recovery and no commit is under way,
    the home blocks on disk are exactly the writes of the committed groups; every
    write of an operation is in one group, and a committed group's operations had
    all ended.  So of each operation either every write survives a crash or none. */
  lemma OperationsAreAtomic(c: Config, d: Disk, nprocs: nat, acts: seq<Action>)
    requires c.limit <= MAXOPBLOCKS && GoodDisk(c.g, d)
    requires Exec(c, Boot(d, nprocs), acts).Some? && Within(c, Boot(d, nprocs), acts)
    ensures var s := Exec(c, Boot(d, nprocs), acts).value;
      && GoodDisk(c.g, s.disk)
      && HomeEq(c.g, Meaning(c.g, s.disk), Replay(Meaning(c.g, d), s.history))
      && (s.recovering.None? && !s.committing ==> HomeEq(c.g, s.disk, Replay(Meaning(c.g, d), s.history)))
      && (forall e, i :: 0 <= e < |s.history| && 0 <= i < |s.history[e].records| ==>
            From(s, s.history[e].records[i].op, e))
      && (forall k, e :: From(s, k, e) && 0 <= e < |s.history| && s.history[e].committed ==> k in s.ended)
  {
    hide Exec, Within, Control, Space, HomeEq, Meaning, Replay, GoodDisk, InProgress, Rebooting, Latest, Overlay;
    InvAlways(c, d, nprocs, acts);
    var s := Exec(c, Boot(d, nprocs), acts).value;
    if s.recovering.None? && !s.committing {
      EmptyMeaning(c.g, s.disk);
    }
  }

  /** Reads see the latest writes: outside recovery the buffer cache in front of the
    disk gives the committed groups and the current one, also between the writes of
    a commit. */
  lemma ReadsSeeLatest(c: Config, d: Disk, nprocs: nat, acts: seq<Action>, b: int)
    requires c.limit <= MAXOPBLOCKS && GoodDisk(c.g, d)
    requires Exec(c, Boot(d, nprocs), acts).Some? && Within(c, Boot(d, nprocs), acts)
    requires 0 <= b < |d| && !InLog(c.g, b)
    requires Exec(c, Boot(d, nprocs), acts).value.recovering.None?
    ensures var s := Exec(c, Boot(d, nprocs), acts).value;
      && |s.disk| == |d|
      && View(s.disk, s.cache, b) == Latest(Meaning(c.g, d), s)[b]
  {
    hide Exec, Within, Space, Membership, Meaning, Replay, InProgress, Rebooting, Latest, Overlay, Ops;
    InvAlways(c, d, nprocs, acts);
    var s := Exec(c, Boot(d, nprocs), acts).value;
    MeaningLength(c.g, d);
    if s.committing {
      var p :| Committer(s, p);
      ProgressView(c, Meaning(c.g, d), s, s.procs[p], b);
    } else {
      OverlayView(s.disk, s.cache, s.lh, b);
    }
  }

  lemma OverlayView(d: Disk, cache: map<int, Block>, lh: seq<int>, b: int)
    requires 0 <= b < |d| && Pinned(cache, lh)
    ensures Overlay(d, cache, lh)[b] == View(d, cache, b)
  {
  }

  lemma ProgressView(c: Config, base: Disk, s: State, q: Proc, b: int)
    requires q.InCommit? && InProgress(c, base, s, q) && |s.disk| == |base|
    requires 0 <= b < |base| && !InLog(c.g, b)
    ensures View(s.disk, s.cache, b) == Latest(base, s)[b]
  {
    hide Apply, Replay, CommitWrites, Latest, HeaderOf, GoodDisk;
    OverlayView(q.d, q.pins, q.list, b);
    if b !in s.cache {
      CommitHome(c.g, q.d, q.pins, q.list, q.done, b);
    }
  }

  /** A home block on disk in the middle of a commit. */
  lemma CommitHome(g: Geometry, d: Disk, pins: map<int, Block>, list: seq<int>, k: nat, b: int)
    requires GoodDisk(g, d) && GoodHeader(g, |d|, list) && k <= |CommitWrites(g, d, pins, list)|
    requires 0 <= b < |d| && !InLog(g, b)
    ensures var e := Apply(d, CommitWrites(g, d, pins, list)[..k]);
      && (b !in list ==> e[b] == d[b])
      && (forall i :: 0 <= i < |list| && list[i] == b && i + |list| + 1 < k ==> e[b] == View(d, pins, b))
  {
    hide RecoveryWrites, Committed, Apply, HeaderOf, HeaderWith;
    ApplyNone(d);
    if list == [] {
    } else if k <= |list| {
      hide CommitWrites;
      CommitSplit(g, d, pins, list);
      assert CommitWrites(g, d, pins, list)[..k] == LogWrites(g, d, pins, list)[..k];
      LogPrefix(g, d, pins, list, k);
    } else {
      hide CommitWrites, GoodDisk;
      CommitTail(g, d, pins, list, k);
      CommittedLayout(g, d, pins, list);
      RecoveryHome(g, Committed(g, d, pins, list), k - |list| - 1, b);
    }
  }

  lemma RecoveryHome(g: Geometry, d: Disk, k: nat, b: int)
    requires GoodDisk(g, d) && k <= |RecoveryWrites(g, d)| && 0 <= b < |d| && !InLog(g, b)
    ensures var e := Apply(d, RecoveryWrites(g, d)[..k]); var list := HeaderOf(d[g.start]);
      && (b !in list ==> e[b] == d[b])
      && (forall i :: 0 <= i < |list| && list[i] == b && i < k ==> e[b] == d[g.start + 1 + i])
  {
    var rw, list := RecoveryWrites(g, d), HeaderOf(d[g.start]);
    if k <= |list| {
      assert rw[..k] == InstallWrites(g, d, list)[..k];
      InstallPrefix(g, d, list, k);
    } else {
      assert rw[..k] == rw;
      RecoveryEnds(g, d);
      MeaningAt(g, d);
    }
  }

  // ---------------------------------------------------------------------------
  // The bound is exact

  lemma {:induction false} ExecConcat(c: Config, s: State, a: seq<Action>, b: seq<Action>)
    requires Exec(c, s, a).Some?
    ensures Exec(c, s, a + b) == Exec(c, Exec(c, s, a).value, b)
  {
    hide Next, Enabled;
    if b == [] {
      assert a + b == a;
    } else {
      ExecConcat(c, s, a, b[..|b| - 1]);
      assert (a + b)[..|a + b| - 1] == a + b[..|b| - 1];
    }
  }

  lemma ExecOne(c: Config, s: State, a: Action)
    requires Enabled(c, s, a)
    ensures Exec(c, s, [a]) == Some(Next(c, s, a))
  {
    hide Next, Enabled;
    assert [a][..0] == [];
    assert Exec(c, s, []) == Some(s);
  }

  /** Process p logging the k blocks from b0 on. */
  function FillActs(p: nat, b0: nat, data: Block, k: nat): (acts: seq<Action>) {
    if k == 0 then []
    else FillActs(p, b0, data, k - 1) + [Check(p, Write(b0 + k - 1, data))] + [Append(p)]
  }

  predicate FreshFrom(c: Config, s: State, b0: int, k: nat) {
    && c.g.start + c.g.size <= b0 && b0 + k <= |s.disk|
    && forall x :: x in s.lh ==> x < b0
  }

  predicate Ready(s: State, p: nat) {
    Up(s) && p < |s.procs| && s.procs[p].InOp? && s.procs[p].pending.None? && 1 <= s.outstanding
  }

  lemma FillOne(c: Config, s: State, p: nat, b: nat, data: Block)
    requires Ready(s, p) && s.procs[p].appended < c.limit
    requires |s.lh| < LOGSIZE && |s.lh| < c.g.size - 1 && FreshFrom(c, s, b, 1)
    ensures var r := Exec(c, s, [Check(p, Write(b, data))] + [Append(p)]);
      && r.Some? && Ready(r.value, p)
      && r.value.lh == s.lh + [b] && r.value.disk == s.disk && r.value.outstanding == s.outstanding
      && r.value.committing == s.committing
      && r.value.procs == s.procs[p := s.procs[p].(appended := s.procs[p].appended + 1)]
  {
    var w := Write(b, data);
    var m := DoCheck(c, s, p, w);
    assert b !in s.lh;
    assert Enabled(c, s, Check(p, w)) && Next(c, s, Check(p, w)) == m;
    assert Enabled(c, m, Append(p));
    hide Enabled, Exec;
    ExecOne(c, s, Check(p, w));
    ExecOne(c, m, Append(p));
    ExecConcat(c, s, [Check(p, w)], [Append(p)]);
    assert DoAppend(m, p).procs == s.procs[p := s.procs[p].(appended := s.procs[p].appended + 1)];
  }

  lemma {:induction false} Fill(c: Config, s: State, p: nat, b0: nat, data: Block, k: nat)
    requires Ready(s, p) && s.procs[p].appended + k <= c.limit
    requires |s.lh| + k <= LOGSIZE && |s.lh| + k <= c.g.size - 1 && FreshFrom(c, s, b0, k)
    ensures var r := Exec(c, s, FillActs(p, b0, data, k));
      && r.Some? && Ready(r.value, p)
      && |r.value.lh| == |s.lh| + k && (forall x :: x in r.value.lh ==> x in s.lh || b0 <= x < b0 + k)
      && r.value.disk == s.disk && r.value.outstanding == s.outstanding && r.value.committing == s.committing
      && r.value.procs == s.procs[p := s.procs[p].(appended := s.procs[p].appended + k)]
  {
    hide Exec;
    if k == 0 {
      assert Exec(c, s, []) == Some(s) by { ExecNone(c, s); }
      assert s.procs[p := s.procs[p]] == s.procs;
    } else {
      Fill(c, s, p, b0, data, k - 1);
      var a := FillActs(p, b0, data, k - 1);
      var m := Exec(c, s, a).value;
      FillOne(c, m, p, b0 + k - 1, data);
      var last := [Check(p, Write(b0 + k - 1, data))] + [Append(p)];
      ExecConcat(c, s, a, last);
      assert FillActs(p, b0, data, k) == a + last;
    }
  }

  lemma ExecNone(c: Config, s: State)
    ensures Exec(c, s, []) == Some(s)
  {
  }

  /** Three operations just admitted on a freshly recovered log. */
  predicate ThreeStarted(s: State) {
    && Up(s) && |s.procs| == 3 && s.outstanding == 3 && s.lh == [] && !s.committing
    && forall p :: 0 <= p < 3 ==> s.procs[p].InOp? && s.procs[p].appended == 0 && s.procs[p].pending.None?
  }

  lemma ExecSnoc(c: Config, s: State, acts: seq<Action>, a: Action)
    requires Exec(c, s, acts).Some? && Enabled(c, Exec(c, s, acts).value, a)
    ensures Exec(c, s, acts + [a]) == Some(Next(c, Exec(c, s, acts).value, a))
  {
    hide Next, Enabled;
    assert (acts + [a])[..|acts|] == acts;
  }

  lemma ThreeBegin(c: Config, s: State)
    requires Up(s) && s.procs == seq(3, _ => Idle) && s.outstanding == 0 && s.lh == [] && !s.committing
    ensures var r := Exec(c, s, [] + [Begin(0)] + [Begin(1)] + [Begin(2)]);
      r.Some? && ThreeStarted(r.value) && r.value.disk == s.disk
  {
    hide Exec;
    ExecNone(c, s);
    ExecSnoc(c, s, [], Begin(0));
    ExecSnoc(c, s, [] + [Begin(0)], Begin(1));
    ExecSnoc(c, s, [] + [Begin(0)] + [Begin(1)], Begin(2));
  }

  lemma ThreeCanStart(c: Config, d: Disk)
    requires GoodDisk(c.g, d) && HeaderOf(d[c.g.start]) == []
    ensures exists acts ::
      (&& Exec(c, Boot(d, 3), acts).Some?
       && ThreeStarted(Exec(c, Boot(d, 3), acts).value)
       && |Exec(c, Boot(d, 3), acts).value.disk| == |d|)
  {
    hide Exec, Apply1, GoodDisk, HeaderOf, HeaderWith, InstallWrites, ThreeStarted;
    var s := Boot(d, 3);
    assert |RecoveryWrites(c.g, d)| == 1 by { RecoveryWriteAt(c.g, d, 0); }
    hide RecoveryWrites;
    ExecNone(c, s);
    ExecSnoc(c, s, [], RecoverWrite);
    ExecSnoc(c, s, [] + [RecoverWrite], RecoverDone);
    var acts, more := [] + [RecoverWrite] + [RecoverDone], [] + [Begin(0)] + [Begin(1)] + [Begin(2)];
    ThreeBegin(c, Exec(c, s, acts).value);
    ExecConcat(c, s, acts, more);
    assert Exec(c, s, acts + more).Some?;
  }

  /** Operations that keep to MAXOPBLOCKS, as begin_op reserves, can still run into the "too big a transaction"
    panic, on a log of LOGSIZE blocks, as mkfs makes it, and on every longer one: line 218 is tested before
    absorption, so once the list is full even a block already on it panics. */
  lemma TooBigIsReachable(c: Config, d: Disk, data: Block)
    requires c.limit == MAXOPBLOCKS && LOGSIZE <= c.g.size
    requires GoodDisk(c.g, d) && HeaderOf(d[c.g.start]) == []
    requires c.g.start + c.g.size + LOGSIZE <= |d|
    ensures exists acts :: Exec(c, Boot(d, 3), acts).Some? && Exec(c, Boot(d, 3), acts).value.panic == TooBig
  {
    hide Exec, GoodDisk, HeaderOf;
    ThreeCanStart(c, d);
    var acts :| Exec(c, Boot(d, 3), acts).Some? && ThreeStarted(Exec(c, Boot(d, 3), acts).value)
      && |Exec(c, Boot(d, 3), acts).value.disk| == |d|;
    var s := Exec(c, Boot(d, 3), acts).value;
    var more := FillUp(c, s, data);
    ExecConcat(c, Boot(d, 3), acts, more);
    assert Exec(c, Boot(d, 3), acts + more).value.panic == TooBig;
  }

  lemma FillUp(c: Config, s: State, data: Block) returns (acts: seq<Action>)
    requires c.limit == MAXOPBLOCKS && LOGSIZE <= c.g.size
    requires ThreeStarted(s) && c.g.start + c.g.size + LOGSIZE <= |s.disk|
    ensures Exec(c, s, acts).Some? && Exec(c, s, acts).value.panic == TooBig
  {
    hide Exec;
    var b, n := c.g.start + c.g.size, if c.g.size == LOGSIZE then 9 else 10;
    var a0, a1, a2 := FillActs(0, b, data, 10), FillActs(1, b + 10, data, 10), FillActs(2, b + 20, data, n);
    Fill(c, s, 0, b, data, 10);
    var s0 := Exec(c, s, a0).value;
    Fill(c, s0, 1, b + 10, data, 10);
    ExecConcat(c, s, a0, a1);
    var s1 := Exec(c, s0, a1).value;
    Fill(c, s1, 2, b + 20, data, n);
    ExecConcat(c, s, a0 + a1, a2);
    var s2 := Exec(c, s1, a2).value;
    assert s2.lh[0] in s2.lh;
    var last := Check(2, Write(s2.lh[0], data));
    ExecOne(c, s2, last);
    ExecConcat(c, s, a0 + a1 + a2, [last]);
    acts := a0 + a1 + a2 + [last];
  }

  /** Some run reaches the "too big a transaction" panic. */
  ghost predicate CanPanic(c: Config, d: Disk) {
    exists nprocs: nat, acts ::
      Exec(c, Boot(d, nprocs), acts).Some? && Exec(c, Boot(d, nprocs), acts).value.panic == TooBig
  }

  /** So on a log of LOGSIZE blocks or more MAXOPBLOCKS - 1 blocks per operation is the exact safe limit. */
  lemma TooBigIffLimit(c: Config, d: Disk, data: Block)
    requires c.limit <= MAXOPBLOCKS && LOGSIZE <= c.g.size
    requires GoodDisk(c.g, d) && HeaderOf(d[c.g.start]) == [] && c.g.start + c.g.size + LOGSIZE <= |d|
    ensures CanPanic(c, d) <==> c.limit == MAXOPBLOCKS
  {
    hide Exec, GoodDisk, HeaderOf;
    if c.limit == MAXOPBLOCKS {
      TooBigIsReachable(c, d, data);
      var acts :| Exec(c, Boot(d, 3), acts).Some? && Exec(c, Boot(d, 3), acts).value.panic == TooBig;
      assert CanPanic(c, d);
    } else {
      forall nprocs: nat, acts | Exec(c, Boot(d, nprocs), acts).Some?
        ensures Exec(c, Boot(d, nprocs), acts).value.panic != TooBig
      {
        GroupCommit(c, d, nprocs, acts, 0, 0);
      }
    }
  }

  // ---------------------------------------------------------------------------
  // A log that is too small

  /** A commit is about to copy more blocks than the log has room for: the last one goes
    to the block behind the log, which no operation has written. */
  ghost predicate Overrun(c: Config, s: State, data: Block) {
    && s.panic == NoPanic && Committer(s, 2) && s.procs[2].done == 0
    && var q := s.procs[2];
       && |q.list| == c.g.size && q.list == s.lh && q.d == s.disk
       && (forall i :: 0 <= i < |q.list| ==> 0 <= q.list[i] < |q.d|)
       && c.g.start + c.g.size < |q.d| && c.g.start + c.g.size !in q.list
       && Apply(q.d, LogWrites(c.g, q.d, q.pins, q.list))[c.g.start + c.g.size] == data
  }

  /** The states of two processes that pass log_write's test, which is made without the lock,
    when one block is left, and both append. */
  lemma RaceStates(c: Config, s: State, w1: Write, w2: Write)
    requires Ready(s, 1) && Ready(s, 2) && s.procs[1].appended < c.limit && s.procs[2].appended < c.limit
    requires |s.lh| == c.g.size - 2 < LOGSIZE && FreshFrom(c, s, w1.blockno, 2) && w2.blockno == w1.blockno + 1
    ensures Enabled(c, s, Check(1, w1))
    ensures var s1 := Next(c, s, Check(1, w1));
      Enabled(c, s1, Check(2, w2)) &&
      var s2 := Next(c, s1, Check(2, w2));
      Enabled(c, s2, Append(1)) &&
      var s3 := Next(c, s2, Append(1));
      Enabled(c, s3, Append(2)) && Raced(s, Next(c, s3, Append(2)), w1, w2)
  {
  }

  predicate Raced(s: State, t: State, w1: Write, w2: Write) {
    && Up(t) && t.lh == s.lh + [w1.blockno] + [w2.blockno] && t.disk == s.disk
    && t.outstanding == s.outstanding && t.committing == s.committing && |t.procs| == |s.procs| >= 3
    && (forall p :: 0 <= p < |s.procs| && p != 1 && p != 2 ==> t.procs[p] == s.procs[p])
    && t.procs[1].InOp? && t.procs[1].pending.None? && t.procs[2].InOp? && t.procs[2].pending.None?
    && t.cache == s.cache[w1.blockno := w1.data][w2.blockno := w2.data]
  }

  lemma RacePastTest(c: Config, s: State, data: Block, b: nat)
    requires Ready(s, 1) && Ready(s, 2) && s.procs[1].appended < c.limit && s.procs[2].appended < c.limit
    requires |s.lh| == c.g.size - 2 < LOGSIZE && FreshFrom(c, s, b, 2)
    ensures var acts := [Check(1, Write(b, data))] + [Check(2, Write(b + 1, data))] + [Append(1)] + [Append(2)];
      Exec(c, s, acts).Some? && Raced(s, Exec(c, s, acts).value, Write(b, data), Write(b + 1, data))
  {
    hide Exec, Enabled, Next, Raced, FreshFrom;
    var w1, w2 := Write(b, data), Write(b + 1, data);
    RaceStates(c, s, w1, w2);
    ExecNone(c, s);
    ExecSnoc(c, s, [], Check(1, w1));
    ExecSnoc(c, s, [] + [Check(1, w1)], Check(2, w2));
    ExecSnoc(c, s, [] + [Check(1, w1)] + [Check(2, w2)], Append(1));
    ExecSnoc(c, s, [] + [Check(1, w1)] + [Check(2, w2)] + [Append(1)], Append(2));
    assert [] + [Check(1, w1)] == [Check(1, w1)];
  }

  /** The three operations end, and the last one starts to commit. */
  lemma AllEnd(c: Config, s: State)
    requires Up(s) && |s.procs| == 3 && s.outstanding == 3 && !s.committing
    requires forall p :: 0 <= p < 3 ==> s.procs[p].InOp? && s.procs[p].pending.None?
    ensures var r := Exec(c, s, [End(0)] + [End(1)] + [End(2)]);
      && r.Some? && r.value.panic == NoPanic && r.value.lh == s.lh && r.value.disk == s.disk
      && |r.value.procs| == 3 && r.value.procs[2] == InCommit(s.disk, s.cache, s.lh, 0)
  {
    var s1 := DoEnd(s, 0);
    var s2 := DoEnd(s1, 1);
    assert Enabled(c, s, End(0)) && Enabled(c, s1, End(1)) && Enabled(c, s2, End(2));
    hide Exec, Enabled;
    ExecNone(c, s);
    ExecSnoc(c, s, [], End(0));
    ExecSnoc(c, s, [] + [End(0)], End(1));
    ExecSnoc(c, s, [] + [End(0)] + [End(1)], End(2));
    assert [] + [End(0)] == [End(0)];
  }

  /** What the first three operations log before the race. */
  lemma FillBefore(c: Config, s: State, data: Block, b: nat) returns (acts: seq<Action>)
    requires c.limit == MAXOPBLOCKS && 2 <= c.g.size <= LOGSIZE
    requires ThreeStarted(s) && c.g.start + c.g.size <= b && b + c.g.size <= |s.disk|
    ensures var r := Exec(c, s, acts);
      && r.Some? && Ready(r.value, 1) && Ready(r.value, 2) && !r.value.committing && r.value.outstanding == 3
      && |r.value.procs| == 3 && (forall p :: 0 <= p < 3 ==> r.value.procs[p].InOp? && r.value.procs[p].pending.None?)
      && r.value.procs[1].appended < c.limit && r.value.procs[2].appended < c.limit
      && |r.value.lh| == c.g.size - 2 && r.value.disk == s.disk
      && (forall x :: x in r.value.lh ==> b <= x < b + c.g.size - 2)
  {
    hide Exec;
    var n := c.g.size - 2;
    var k0 := if n < 10 then n else 10;
    var k1 := if n - k0 < 9 then n - k0 else 9;
    var k2 := n - k0 - k1;
    var a0, a1, a2 := FillActs(0, b, data, k0), FillActs(1, b + k0, data, k1), FillActs(2, b + k0 + k1, data, k2);
    Fill(c, s, 0, b, data, k0);
    var s0 := Exec(c, s, a0).value;
    Fill(c, s0, 1, b + k0, data, k1);
    ExecConcat(c, s, a0, a1);
    var s1 := Exec(c, s0, a1).value;
    Fill(c, s1, 2, b + k0 + k1, data, k2);
    ExecConcat(c, s, a0 + a1, a2);
    acts := a0 + a1 + a2;
  }

  /** The log blocks written for a list of as many blocks as the log has. */
  lemma {:induction false} WrittenBehind(g: Geometry, d: Disk, cache: map<int, Block>, lh: seq<int>, k: nat)
    requires (forall i :: 0 <= i < |lh| ==> 0 <= lh[i] < |d|) && k <= |lh| && g.start + |lh| < |d|
    ensures var r := Apply(d, LogWrites(g, d, cache, lh)[..k]);
      |r| == |d| && forall i :: 0 <= i < k ==> r[g.start + 1 + i] == View(d, cache, lh[i])
  {
    var ws := LogWrites(g, d, cache, lh);
    if k == 0 {
      ApplyNone(d);
      assert ws[..0] == [];
    } else {
      WrittenBehind(g, d, cache, lh, k - 1);
      ApplySnoc(d, ws, k - 1);
    }
  }

  /** With MAXOPBLOCKS blocks per operation and a log of at most LOGSIZE blocks, as mkfs makes
    it, a run without a panic overwrites a block that no operation wrote. */
  lemma LogOverruns(c: Config, d: Disk, data: Block)
    requires c.limit == MAXOPBLOCKS && 2 <= c.g.size <= LOGSIZE
    requires GoodDisk(c.g, d) && HeaderOf(d[c.g.start]) == [] && c.g.start + 2 * c.g.size + 1 <= |d|
    ensures exists acts :: Exec(c, Boot(d, 3), acts).Some? && Overrun(c, Exec(c, Boot(d, 3), acts).value, data)
  {
    hide Exec, GoodDisk, HeaderOf, Apply;
    ThreeCanStart(c, d);
    var acts :| Exec(c, Boot(d, 3), acts).Some? && ThreeStarted(Exec(c, Boot(d, 3), acts).value)
      && |Exec(c, Boot(d, 3), acts).value.disk| == |d|;
    var s := Exec(c, Boot(d, 3), acts).value;
    var b := c.g.start + c.g.size + 1;
    var fill := FillBefore(c, s, data, b);
    var m := Exec(c, s, fill).value;
    var b1 := b + c.g.size - 2;
    RacePastTest(c, m, data, b1);
    var race := [Check(1, Write(b1, data))] + [Check(2, Write(b1 + 1, data))] + [Append(1)] + [Append(2)];
    var r := Exec(c, m, race).value;
    AllEnd(c, r);
    var ends := [End(0)] + [End(1)] + [End(2)];
    var t := Exec(c, r, ends).value;
    ExecConcat(c, Boot(d, 3), acts, fill);
    ExecConcat(c, Boot(d, 3), acts + fill, race);
    ExecConcat(c, Boot(d, 3), acts + fill + race, ends);
    forall i | 0 <= i < |t.lh| ensures c.g.start + c.g.size < t.lh[i] < |t.disk| {
      if i < |m.lh| {
        assert t.lh[i] == m.lh[i] && m.lh[i] in m.lh;
      }
    }
    OverrunThere(c, t, data);
  }

  lemma OverrunThere(c: Config, t: State, data: Block)
    requires t.panic == NoPanic && |t.procs| == 3 && 0 < c.g.size == |t.lh|
    requires t.procs[2].InCommit? && t.procs[2].d == t.disk && t.procs[2].list == t.lh && t.procs[2].done == 0
    requires forall i :: 0 <= i < |t.lh| ==> c.g.start + c.g.size < t.lh[i] < |t.disk|
    requires t.lh[|t.lh| - 1] in t.procs[2].pins && t.procs[2].pins[t.lh[|t.lh| - 1]] == data
    ensures Overrun(c, t, data)
  {
    var q := t.procs[2];
    WrittenBehind(c.g, q.d, q.pins, q.list, |q.list|);
    var ws := LogWrites(c.g, q.d, q.pins, q.list);
    assert ws[..|q.list|] == ws;
  }

  /** So operations of MAXOPBLOCKS blocks never outgrow the log exactly when Fits says so. The panic of log_write
    they reach on every log of LOGSIZE blocks or more, see TooBigIffLimit. */
  lemma OverrunIffTooSmall(c: Config, d: Disk, data: Block)
    requires c.limit == MAXOPBLOCKS && 2 <= c.g.size
    requires GoodDisk(c.g, d) && HeaderOf(d[c.g.start]) == [] && c.g.start + 2 * c.g.size + 1 <= |d|
    ensures !Fits(c) <==>
            exists acts :: Exec(c, Boot(d, 3), acts).Some? && |Exec(c, Boot(d, 3), acts).value.lh| >= c.g.size
  {
    hide Exec, GoodDisk, HeaderOf;
    if !Fits(c) {
      LogOverruns(c, d, data);
      var acts :| Exec(c, Boot(d, 3), acts).Some? && Overrun(c, Exec(c, Boot(d, 3), acts).value, data);
      assert |Exec(c, Boot(d, 3), acts).value.lh| >= c.g.size;
    }
    forall acts | Exec(c, Boot(d, 3), acts).Some?
      ensures |Exec(c, Boot(d, 3), acts).value.lh| <= LOGSIZE
    {
      GroupCommit(c, d, 3, acts, 0, 0);
    }
  }

  // ---------------------------------------------------------------------------
  // Operations counted by the blocks they log

  /** The blocks that operation op has logged in the current group. */
  ghost function OpBlocks(s: State, op: nat): set<int> {
    set r | r in s.current && r.op == op :: r.w.blockno
  }

  /** In the run every operation's log_writes name at most k different blocks. */
  ghost predicate Modest(c: Config, s: State, acts: seq<Action>, k: nat) {
    acts == [] ||
    (var m, a := Exec(c, s, acts[..|acts| - 1]), acts[|acts| - 1];
     && Modest(c, s, acts[..|acts| - 1], k)
     && (m.Some? && a.Check? && Enabled(c, m.value, a) ==>
           |OpBlocks(m.value, m.value.procs[a.p].op) + {a.w.blockno}| <= k))
  }

  /** An operation has added no more blocks to the list than it has logged, and these are on the list. */
  ghost predicate Counted(s: State) {
    && (forall r :: r in s.current ==> r.w.blockno in s.lh)
    && (forall p :: Committer(s, p) && s.procs[p].done > |s.procs[p].list| ==> s.current == [])
    && forall p :: 0 <= p < |s.procs| && s.procs[p].InOp? ==>
         s.procs[p].appended <= |OpBlocks(s, s.procs[p].op)|
  }

  lemma CountedAppend(c: Config, s: State, p: nat)
    requires Control(s) && Counted(s) && Enabled(c, s, Append(p))
    ensures Counted(DoAppend(s, p))
  {
    hide Control, OpBlocks;
    var t, w, op := DoAppend(s, p), s.procs[p].pending.value, s.procs[p].op;
    RunningHere(s, p);
    Logged(s, op, w.blockno);
    forall q | 0 <= q < |t.procs| && t.procs[q].InOp? ensures t.procs[q].appended <= |OpBlocks(t, t.procs[q].op)| {
      OpBlocksSnoc(s, t, Record(op, w), t.procs[q].op);
    }
    assert forall q :: Committer(t, q) ==> Committer(s, q);
  }

  lemma Logged(s: State, op: nat, b: int)
    requires Counted(s)
    ensures b in OpBlocks(s, op) ==> b in s.lh
  {
  }

  /** While an operation is outstanding nobody commits. */
  lemma RunningHere(s: State, p: nat)
    requires Control(s) && p < |s.procs| && s.procs[p].InOp?
    ensures !s.committing && forall q :: !Committer(s, q)
  {
    NoOps(s.procs);
  }

  lemma OpBlocksSnoc(s: State, t: State, r: Record, op: nat)
    requires t.current == s.current + [r]
    ensures OpBlocks(t, op) == OpBlocks(s, op) + (if r.op == op then {r.w.blockno} else {})
    ensures |OpBlocks(t, op)| >= |OpBlocks(s, op)| + (if r.op == op && r.w.blockno !in OpBlocks(s, op) then 1 else 0)
  {
    assert forall x :: x in t.current <==> x in s.current || x == r;
    forall b | b in OpBlocks(s, op) + (if r.op == op then {r.w.blockno} else {}) ensures b in OpBlocks(t, op) {
      if b in OpBlocks(s, op) {
        var x :| x in s.current && x.op == op && x.w.blockno == b;
        assert x in t.current;
      } else {
        assert r in t.current;
      }
    }
    assert r.op == op && r.w.blockno in OpBlocks(s, op) ==> OpBlocks(s, op) + {r.w.blockno} == OpBlocks(s, op);
  }

  lemma CountedCommit(c: Config, s: State, p: nat)
    requires Control(s) && Counted(s) && Enabled(c, s, CommitWrite(p))
    ensures Counted(DoCommitWrite(c, s, p))
  {
    hide Control, CommitWrites, GoodDisk, GoodHeader, Apply1, OpBlocks, GoodHeader;
    var q, t := s.procs[p], DoCommitWrite(c, s, p);
    CommitLength(c.g, q.d, q.pins, q.list);
    assert Committer(s, p);
    CommitsAlone(s, p);
    assert forall r :: Committer(t, r) ==> Committer(s, r);
  }

  lemma CommitsAlone(s: State, p: nat)
    requires Control(s) && Committer(s, p)
    ensures forall r :: Committer(s, r) ==> r == p
    ensures forall r :: 0 <= r < |s.procs| ==> !s.procs[r].InOp?
  {
    NoOps(s.procs);
  }

  lemma CountedKept(c: Config, s: State, a: Action)
    requires Control(s) && Counted(s) && Enabled(c, s, a)
    ensures Counted(Next(c, s, a))
  {
    hide Control, CommitWrites, RecoveryWrites, GoodDisk, GoodHeader, Apply1, OpBlocks;
    var t := Next(c, s, a);
    match a {
      case Begin(p) => CountedSame(s, t, p);
      case Check(p, w) => CountedSame(s, t, p);
      case Append(p) => CountedAppend(c, s, p);
      case End(p) => CountedSame(s, t, p);
      case CommitWrite(p) => CountedCommit(c, s, p);
      case CommitDone(p) => CountedDone(c, s, p);
      case Crash =>
      case RecoverWrite => CountedSame(s, t, 0);
      case RecoverDone => CountedSame(s, t, 0);
    }
  }

  /** Steps that log nothing; what process p has added does not grow. */
  lemma CountedSame(s: State, t: State, p: nat)
    requires Counted(s) && t.current == s.current && t.lh == s.lh && |t.procs| == |s.procs|
    requires forall q :: 0 <= q < |s.procs| && q != p ==> t.procs[q] == s.procs[q]
    requires p < |s.procs| ==>
               || t.procs[p] == s.procs[p] || t.procs[p].Idle? || (t.procs[p].InOp? && t.procs[p].appended == 0)
               || (t.procs[p].InCommit? && t.procs[p].done == 0)
               || (t.procs[p].InOp? && s.procs[p].InOp? && t.procs[p].op == s.procs[p].op
                   && t.procs[p].appended == s.procs[p].appended)
    ensures Counted(t)
  {
    forall q | 0 <= q < |t.procs| && t.procs[q].InOp? ensures t.procs[q].appended <= |OpBlocks(t, t.procs[q].op)| {
      assert OpBlocks(t, t.procs[q].op) == OpBlocks(s, t.procs[q].op);
    }
    assert forall q :: Committer(t, q) && q != p ==> Committer(s, q);
    assert p < |s.procs| && t.procs[p] == s.procs[p] && Committer(t, p) ==> Committer(s, p);
  }

  lemma CountedDone(c: Config, s: State, p: nat)
    requires Control(s) && Counted(s) && Enabled(c, s, CommitDone(p))
    ensures Counted(DoCommitDone(s, p))
  {
    hide Control, CommitWrites, GoodDisk, GoodHeader, OpBlocks;
    var q, t := s.procs[p], DoCommitDone(s, p);
    CommitLength(c.g, q.d, q.pins, q.list);
    assert Committer(s, p);
    CommitsAlone(s, p);
    assert forall r :: Committer(t, r) ==> Committer(s, r) && r != p;
  }

  /** A run whose operations log at most k blocks each is one in which they add at most k each. */
  lemma {:induction false} ModestRun(c: Config, d: Disk, nprocs: nat, acts: seq<Action>, k: nat)
    requires k <= MAXOPBLOCKS && Exec(c, Boot(d, nprocs), acts).Some? && Modest(c, Boot(d, nprocs), acts, k)
    ensures Exec(Config(c.g, k), Boot(d, nprocs), acts) == Exec(c, Boot(d, nprocs), acts)
    ensures Counted(Exec(c, Boot(d, nprocs), acts).value)
  {
    var s, c' := Boot(d, nprocs), Config(c.g, k);
    if acts == [] {
      assert forall q :: !Committer(s, q);
    } else {
      hide Counted, Next, Enabled, Control;
      var rest, a := acts[..|acts| - 1], acts[|acts| - 1];
      ModestRun(c, d, nprocs, rest, k);
      ControlAlways(c', d, nprocs, rest);
      var m := Exec(c, s, rest).value;
      ModestStep(c, m, a, k);
      CountedKept(c, m, a);
    }
  }

  lemma ModestStep(c: Config, m: State, a: Action, k: nat)
    requires Enabled(c, m, a) && Counted(m)
    requires a.Check? ==> |OpBlocks(m, m.procs[a.p].op) + {a.w.blockno}| <= k
    ensures Enabled(Config(c.g, k), m, a) && Next(Config(c.g, k), m, a) == Next(c, m, a)
  {
    hide CommitWrites, RecoveryWrites, GoodDisk, GoodHeader, Apply1;
    if a.Check? && a.w.blockno !in m.lh {
      assert a.w.blockno !in OpBlocks(m, m.procs[a.p].op);
    }
  }

  /** Operations that log at most MAXOPBLOCKS - 1 blocks each never reach a panic on a log of LOGSIZE blocks. */
  lemma ModestFits(c: Config, d: Disk, nprocs: nat, acts: seq<Action>, k: nat)
    requires k < MAXOPBLOCKS && LOGSIZE <= c.g.size
    requires Exec(c, Boot(d, nprocs), acts).Some? && Modest(c, Boot(d, nprocs), acts, k)
    ensures Exec(c, Boot(d, nprocs), acts).value.panic == NoPanic
    ensures |Exec(c, Boot(d, nprocs), acts).value.lh| <= LOGSIZE - 2
  {
    hide Exec, Modest;
    ModestRun(c, d, nprocs, acts, k);
    GroupCommit(Config(c.g, k), d, nprocs, acts, 0, 0);
  }

  /** So such operations are atomic on a log of LOGSIZE blocks, whatever they may log at most. */
  lemma {:induction false} ModestWithin(c: Config, d: Disk, nprocs: nat, acts: seq<Action>, k: nat)
    requires k < MAXOPBLOCKS && LOGSIZE <= c.g.size
    requires Exec(c, Boot(d, nprocs), acts).Some? && Modest(c, Boot(d, nprocs), acts, k)
    ensures Within(c, Boot(d, nprocs), acts)
  {
    if acts != [] {
      hide Enabled, Next;
      ModestFits(c, d, nprocs, acts, k);
      ModestWithin(c, d, nprocs, acts[..|acts| - 1], k);
    }
  }

  // ---------------------------------------------------------------------------
  // Operations with a given set of blocks

  /** In the run the log_writes of operation k name only blocks of plan[k]. */
  ghost predicate Planned(c: Config, s: State, acts: seq<Action>, plan: seq<set<int>>) {
    acts == [] ||
    (var m, a := Exec(c, s, acts[..|acts| - 1]), acts[|acts| - 1];
     && Planned(c, s, acts[..|acts| - 1], plan)
     && (m.Some? && a.Check? && Enabled(c, m.value, a) ==> InPlan(plan, m.value.procs[a.p].op, a.w.blockno)))
  }

  predicate InPlan(plan: seq<set<int>>, op: nat, b: int) {
    op < |plan| && b in plan[op]
  }

  /** What has been logged and what is about to be logged is as planned. */
  ghost predicate ToPlan(s: State, plan: seq<set<int>>) {
    && (forall r :: r in s.current ==> InPlan(plan, r.op, r.w.blockno))
    && forall p :: 0 <= p < |s.procs| && s.procs[p].InOp? && s.procs[p].pending.Some? ==>
         InPlan(plan, s.procs[p].op, s.procs[p].pending.value.blockno)
  }

  lemma ToPlanKept(c: Config, s: State, a: Action, plan: seq<set<int>>)
    requires ToPlan(s, plan) && Enabled(c, s, a)
    requires a.Check? ==> InPlan(plan, s.procs[a.p].op, a.w.blockno)
    ensures ToPlan(Next(c, s, a), plan)
  {
    hide CommitWrites, RecoveryWrites, GoodDisk, GoodHeader, Apply1, InPlan;
    var t := Next(c, s, a);
    if a.Append? {
      var w := s.procs[a.p].pending.value;
      assert forall r :: r in t.current ==> r in s.current || r == Record(s.procs[a.p].op, w);
    } else {
      assert t.current == s.current || t.current == [];
    }
  }

  lemma {:induction false} SubsetSize<T>(a: set<T>, b: set<T>)
    requires a <= b
    ensures |a| <= |b|
    decreases a
  {
    if a != {} {
      var x :| x in a;
      SubsetSize(a - {x}, b - {x});
    }
  }

  /** Operations planned with at most k blocks each log at most k blocks each. */
  lemma {:induction false} PlannedModest(c: Config, d: Disk, nprocs: nat, acts: seq<Action>, plan: seq<set<int>>,
                                         k: nat)
    requires Exec(c, Boot(d, nprocs), acts).Some? && Planned(c, Boot(d, nprocs), acts, plan)
    requires forall op :: 0 <= op < |plan| ==> |plan[op]| <= k
    ensures Modest(c, Boot(d, nprocs), acts, k) && ToPlan(Exec(c, Boot(d, nprocs), acts).value, plan)
  {
    if acts != [] {
      hide Next, Enabled, ToPlan, OpBlocks;
      PlannedModest(c, d, nprocs, acts[..|acts| - 1], plan, k);
      var m, a := Exec(c, Boot(d, nprocs), acts[..|acts| - 1]).value, acts[|acts| - 1];
      ToPlanKept(c, m, a, plan);
      if a.Check? {
        var op := m.procs[a.p].op;
        OpBlocksPlanned(m, plan, op);
        SubsetSize(OpBlocks(m, op) + {a.w.blockno}, plan[op]);
      }
    }
  }

  lemma OpBlocksPlanned(s: State, plan: seq<set<int>>, op: nat)
    requires ToPlan(s, plan) && op < |plan|
    ensures OpBlocks(s, op) <= plan[op]
  {
  }
}
