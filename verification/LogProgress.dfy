/** What the log gets done: commits and recoveries complete, everybody can get into an operation, and what has ended
  is durable unless a crash comes first. */
module LogProgress {
  import opened Options
  import opened RedoLog
  import opened LogSystem

  /** Some run of the given actions leads from s to t. */
  ghost predicate Leads(c: Config, s: State, t: State, using: iset<Action>) {
    exists acts :: Only(acts, using) && Exec(c, s, acts) == Some(t)
  }

  ghost predicate Only(acts: seq<Action>, using: iset<Action>) {
    forall i :: 0 <= i < |acts| ==> acts[i] in using
  }

  ghost function CommitSteps(p: nat): iset<Action> { iset{CommitWrite(p), CommitDone(p)} }

  ghost function RecoverySteps(): iset<Action> { iset{RecoverWrite, RecoverDone} }

  ghost function NoCrash(): iset<Action> { iset a: Action | NotCrash(a) }

  predicate NotCrash(a: Action) { a != Crash }

  lemma LeadsNone(c: Config, s: State, using: iset<Action>)
    ensures Leads(c, s, s, using)
  {
    hide Exec;
    ExecNone(c, s);
    assert Only([], using);
  }

  lemma LeadsOn(c: Config, s: State, a: Action, t: State, using: iset<Action>)
    requires Enabled(c, s, a) && a in using && Leads(c, Next(c, s, a), t, using)
    ensures Leads(c, s, t, using)
  {
    hide Exec, Next, Enabled;
    var acts :| Only(acts, using) && Exec(c, Next(c, s, a), acts) == Some(t);
    ExecOne(c, s, a);
    ExecConcat(c, s, [a], acts);
    assert Only([a] + acts, using);
  }

  lemma LeadsTrans(c: Config, s: State, m: State, t: State, few: iset<Action>, using: iset<Action>)
    requires Leads(c, s, m, few) && few <= using && Leads(c, m, t, using)
    ensures Leads(c, s, t, using)
  {
    hide Exec;
    var a :| Only(a, few) && Exec(c, s, a) == Some(m);
    var b :| Only(b, using) && Exec(c, m, b) == Some(t);
    ExecConcat(c, s, a, b);
    assert Only(a + b, using);
  }

  // ---------------------------------------------------------------------------
  // Commits complete

  /** The header write that closes the group has been made. */
  predicate Closed(q: Proc) {
    q.InCommit? && q.list != [] && q.done > |q.list|
  }

  /** Process p has finished the commit it was in: the log is empty and open, and the group is in the history. */
  predicate Completed(s: State, t: State, p: nat) {
    && p < |s.procs| && Up(t) && t.lh == [] && !t.committing && t.outstanding == s.outstanding
    && t.procs == s.procs[p := Idle] && t.epoch == s.epoch && t.ended == s.ended
    && (if Closed(s.procs[p]) then t.history == s.history && t.current == s.current
        else t.history == s.history + [Group(s.current, true)] && t.current == [])
  }

  /** Inside commit the next write, or the end, is there to be made. */
  lemma CommitEnabled(c: Config, base: Disk, s: State, p: nat)
    requires Inv(c, base, s) && Up(s) && Committer(s, p)
    ensures WritingCommit(c, s, p)
    ensures var q := s.procs[p];
      && q.done <= |CommitWrites(c.g, q.d, q.pins, q.list)|
      && |CommitWrites(c.g, q.d, q.pins, q.list)| == (if q.list == [] then 0 else 2 * |q.list| + 2)
      && s.lh == ListOf(q) && |q.list| < c.g.size && s.committing
  {
    hide Space, Membership, Apply, HomeEq, Meaning, Replay, Overlay, Latest, HeaderOf, CommitWrites;
    var q := s.procs[p];
    assert InProgress(c, base, s, q);
    CommitLength(c.g, q.d, q.pins, q.list);
  }

  lemma {:induction false} CommitCompletes(c: Config, base: Disk, s: State, p: nat) returns (t: State)
    requires Inv(c, base, s) && Up(s) && Committer(s, p)
    ensures Leads(c, s, t, CommitSteps(p)) && Completed(s, t, p) && Inv(c, base, t)
    decreases 2 * |s.procs[p].list| + 2 - s.procs[p].done
  {
    hide Inv, GoodDisk, GoodHeader, CommitWrites, Apply1, Leads;
    CommitEnabled(c, base, s, p);
    var q := s.procs[p];
    if q.done == |CommitWrites(c.g, q.d, q.pins, q.list)| {
      assert Enabled(c, s, CommitDone(p));
      t := DoCommitDone(s, p);
      InvKept(c, base, s, CommitDone(p));
      LeadsNone(c, t, CommitSteps(p));
      LeadsOn(c, s, CommitDone(p), t, CommitSteps(p));
    } else {
      var m := DoCommitWrite(c, s, p);
      assert Enabled(c, s, CommitWrite(p)) && Committer(m, p);
      InvKept(c, base, s, CommitWrite(p));
      t := CommitCompletes(c, base, m, p);
      LeadsOn(c, s, CommitWrite(p), t, CommitSteps(p));
      assert t.procs == s.procs[p := Idle];
    }
  }

  /** In every run within the log a process that is in commit() can go through with it, by its own steps alone, and
    then the log is empty and the group committed. */
  lemma CommitsComplete(c: Config, d: Disk, nprocs: nat, acts: seq<Action>, p: nat)
    requires c.limit <= MAXOPBLOCKS && GoodDisk(c.g, d)
    requires Exec(c, Boot(d, nprocs), acts).Some? && Within(c, Boot(d, nprocs), acts)
    requires var s := Exec(c, Boot(d, nprocs), acts).value; Up(s) && Committer(s, p)
    ensures var s := Exec(c, Boot(d, nprocs), acts).value;
      exists t :: Leads(c, s, t, CommitSteps(p)) && Completed(s, t, p)
  {
    hide Exec, Within, Inv, Leads, Completed;
    InvAlways(c, d, nprocs, acts);
    var t := CommitCompletes(c, Meaning(c.g, d), Exec(c, Boot(d, nprocs), acts).value, p);
  }

  // ---------------------------------------------------------------------------
  // Recoveries complete

  lemma RecoveryEnabled(c: Config, base: Disk, s: State)
    requires Inv(c, base, s) && s.recovering.Some?
    ensures GoodDisk(c.g, s.recovering.value.0)
    ensures s.recovering.value.1 <= |RecoveryWrites(c.g, s.recovering.value.0)|
    ensures s.lh == [] && s.outstanding == 0 && !s.committing && 0 < c.g.size && s.current == []
  {
    hide Space, Membership, Apply, HomeEq, Meaning, Replay, HeaderOf, RecoveryWrites;
  }

  lemma {:induction false} RecoveryCompletes(c: Config, base: Disk, s: State, left: nat) returns (t: State)
    requires Inv(c, base, s) && s.recovering.Some? && GoodDisk(c.g, s.recovering.value.0)
    requires left == |RecoveryWrites(c.g, s.recovering.value.0)| - s.recovering.value.1
    ensures Leads(c, s, t, RecoverySteps()) && Inv(c, base, t)
    ensures t == s.(disk := t.disk, recovering := None)
    decreases left
  {
    hide Inv, GoodDisk, RecoveryWrites, Apply1, Leads;
    RecoveryEnabled(c, base, s);
    if left == 0 {
      t := s.(recovering := None);
      InvKept(c, base, s, RecoverDone);
      LeadsNone(c, t, RecoverySteps());
      LeadsOn(c, s, RecoverDone, t, RecoverySteps());
    } else {
      var m := DoRecoverWrite(c, s);
      InvKept(c, base, s, RecoverWrite);
      t := RecoveryCompletes(c, base, m, left - 1);
      LeadsOn(c, s, RecoverWrite, t, RecoverySteps());
    }
  }

  lemma RecoveredDisk(c: Config, base: Disk, s: State)
    requires Inv(c, base, s) && s.recovering.None? && !s.committing
    ensures GoodDisk(c.g, s.disk) && HeaderOf(s.disk[c.g.start]) == []
    ensures HomeEq(c.g, s.disk, Replay(base, s.history))
  {
    hide Space, Membership, Apply, HomeEq, Meaning, Replay, HeaderOf, Overlay, Latest;
    EmptyMeaning(c.g, s.disk);
  }

  /** In every run within the log a recovery can go through, and then the home blocks are the committed groups. */
  lemma RecoveriesComplete(c: Config, d: Disk, nprocs: nat, acts: seq<Action>)
    requires c.limit <= MAXOPBLOCKS && GoodDisk(c.g, d)
    requires Exec(c, Boot(d, nprocs), acts).Some? && Within(c, Boot(d, nprocs), acts)
    requires Exec(c, Boot(d, nprocs), acts).value.recovering.Some?
    ensures var s := Exec(c, Boot(d, nprocs), acts).value;
      exists t ::
        && Leads(c, s, t, RecoverySteps()) && t == s.(disk := t.disk, recovering := None)
        && GoodDisk(c.g, t.disk) && HeaderOf(t.disk[c.g.start]) == []
        && HomeEq(c.g, t.disk, Replay(Meaning(c.g, d), s.history))
  {
    hide Exec, Within, Inv, Leads, GoodDisk, HeaderOf, HomeEq, Replay, Meaning, RecoveryWrites;
    InvAlways(c, d, nprocs, acts);
    var s := Exec(c, Boot(d, nprocs), acts).value;
    var base := Meaning(c.g, d);
    RecoveryEnabled(c, base, s);
    var left := |RecoveryWrites(c.g, s.recovering.value.0)| - s.recovering.value.1;
    var t := RecoveryCompletes(c, base, s, left);
    RecoveredDisk(c, base, t);
  }

  // ---------------------------------------------------------------------------
  // Everybody can begin

  /** How many steps the processes are from the ends of their operations. */
  function Work(ps: seq<Proc>): (n: nat) {
    if ps == [] then 0 else Work(ps[..|ps| - 1]) + Ahead(ps[|ps| - 1])
  }

  function Ahead(q: Proc): (n: nat) {
    if !q.InOp? then 0 else if q.pending.Some? then 2 else 1
  }

  lemma {:induction false} WorkUpdate(ps: seq<Proc>, p: nat, q: Proc)
    requires p < |ps|
    ensures Work(ps[p := q]) == Work(ps) - Ahead(ps[p]) + Ahead(q)
  {
    var n := |ps| - 1;
    if p < n {
      WorkUpdate(ps[..n], p, q);
      assert ps[p := q][..n] == ps[..n][p := q];
    } else {
      assert ps[p := q][..n] == ps[..n];
    }
  }

  /** The log is up and nothing is going on. */
  predicate Quiet(s: State) {
    Up(s) && !s.committing && s.outstanding == 0 && s.lh == []
  }

  lemma Within1(c: Config, base: Disk, s: State, a: Action)
    requires Fits(c) && Inv(c, base, s) && Enabled(c, s, a)
    ensures Inv(c, base, Next(c, s, a))
  {
    hide Control, Membership, Durable, Enabled, Next;
    SpaceKept(c, s, a);
    InvKept(c, base, s, a);
  }

  lemma Someone(c: Config, base: Disk, s: State)
    requires Inv(c, base, s) && Up(s)
    ensures s.committing ==> exists p: nat :: Committer(s, p)
    ensures !s.committing && s.outstanding > 0 ==> exists p: nat :: p < |s.procs| && s.procs[p].InOp?
    ensures !s.committing && s.outstanding <= 0 ==> Quiet(s)
  {
    hide Space, Membership, Durable;
    NoOps(s.procs);
    if !s.committing && s.outstanding > 0 {
      var p :| 0 <= p < |s.procs| && s.procs[p].InOp?;
    } else if s.committing {
      var p :| Committer(s, p);
    }
  }

  /** The operations under way can end and be committed. */
  lemma {:induction false} Drain(c: Config, base: Disk, s: State) returns (t: State)
    requires Fits(c) && Inv(c, base, s) && Up(s)
    ensures Leads(c, s, t, NoCrash()) && Quiet(t) && Inv(c, base, t) && |t.procs| == |s.procs|
    decreases if s.committing then 0 else 1, Work(s.procs)
  {
    hide Inv, Leads, Completed, GoodDisk, GoodHeader, CommitWrites, Absorb;
    Someone(c, base, s);
    if s.committing {
      var p: nat :| Committer(s, p);
      t := CommitCompletes(c, base, s, p);
      LeadsNone(c, t, NoCrash());
      LeadsTrans(c, s, t, t, CommitSteps(p), NoCrash());
      CompletedQuiet(c, base, s, t, p);
    } else if s.outstanding > 0 {
      var p: nat :| p < |s.procs| && s.procs[p].InOp?;
      var a := if s.procs[p].pending.Some? then Append(p) else End(p);
      var m := Next(c, s, a);
      Within1(c, base, s, a);
      WorkUpdate(s.procs, p, m.procs[p]);
      t := Drain(c, base, m);
      LeadsOn(c, s, a, t, NoCrash());
    } else {
      t := s;
      LeadsNone(c, s, NoCrash());
    }
  }

  lemma CompletedQuiet(c: Config, base: Disk, s: State, t: State, p: nat)
    requires Inv(c, base, s) && s.committing && Completed(s, t, p)
    ensures Quiet(t) && |t.procs| == |s.procs|
  {
    hide Space, Membership, Durable;
  }

  lemma QuietIdle(c: Config, base: Disk, s: State, p: nat)
    requires Inv(c, base, s) && Quiet(s) && p < |s.procs|
    ensures Enabled(c, s, Begin(p))
  {
    hide Space, Membership, Durable;
    NoOps(s.procs);
    assert !Committer(s, p);
  }

  /** From a state that is no panic the log can come to rest. */
  lemma ComesToRest(c: Config, base: Disk, s: State) returns (t: State)
    requires Fits(c) && Inv(c, base, s) && s.panic == NoPanic
    ensures Leads(c, s, t, NoCrash()) && Quiet(t) && Inv(c, base, t) && |t.procs| == |s.procs|
  {
    hide Inv, Leads, GoodDisk, RecoveryWrites, Fits;
    var u := s;
    LeadsNone(c, s, NoCrash());
    if s.recovering.Some? {
      RecoveryEnabled(c, base, s);
      u := RecoveryCompletes(c, base, s, |RecoveryWrites(c.g, s.recovering.value.0)| - s.recovering.value.1);
      LeadsNone(c, u, NoCrash());
      LeadsTrans(c, s, u, u, RecoverySteps(), NoCrash());
    }
    t := Drain(c, base, u);
    LeadsTrans(c, s, u, t, NoCrash(), NoCrash());
  }

  /** On a log that is large enough, from every state of every run that is no panic, every process can get to begin a
    new operation without a crash, and so nobody is kept out of the file system for good. */
  lemma EveryoneCanBegin(c: Config, d: Disk, nprocs: nat, acts: seq<Action>, p: nat)
    requires Fits(c) && GoodDisk(c.g, d) && p < nprocs
    requires Exec(c, Boot(d, nprocs), acts).Some? && Exec(c, Boot(d, nprocs), acts).value.panic == NoPanic
    ensures var s := Exec(c, Boot(d, nprocs), acts).value;
      exists t :: Leads(c, s, t, NoCrash()) && JustBegun(t, p)
  {
    hide Exec, Within, Inv, Leads, GoodDisk, Meaning, Fits;
    FitsWithin(c, d, nprocs, acts);
    FitsLimit(c);
    InvAlways(c, d, nprocs, acts);
    ProcsKept(c, Boot(d, nprocs), acts);
    var s, base := Exec(c, Boot(d, nprocs), acts).value, Meaning(c.g, d);
    var m := ComesToRest(c, base, s);
    QuietIdle(c, base, m, p);
    var t := Next(c, m, Begin(p));
    BeginOp(c, base, m, p);
    LeadsNone(c, t, NoCrash());
    LeadsOn(c, m, Begin(p), t, NoCrash());
    LeadsTrans(c, s, m, t, NoCrash(), NoCrash());
  }

  /** Process p has begun the last operation of all. */
  predicate JustBegun(t: State, p: nat) {
    && p < |t.procs| && t.procs[p].InOp? && t.procs[p].op + 1 == |t.epoch|
    && t.procs[p].appended == 0 && t.procs[p].pending.None?
  }

  lemma FitsLimit(c: Config)
    requires Fits(c)
    ensures c.limit <= MAXOPBLOCKS
  {
  }

  lemma BeginOp(c: Config, base: Disk, s: State, p: nat)
    requires Inv(c, base, s) && Enabled(c, s, Begin(p))
    ensures JustBegun(DoBegin(s, p), p)
  {
    hide Control, Space, Durable, Recorded;
    var t := DoBegin(s, p);
    assert |s.epoch| !in s.epoch;
    assert t.epoch.Keys == s.epoch.Keys + {|s.epoch|};
    assert |t.epoch| == |t.epoch.Keys| && |s.epoch| == |s.epoch.Keys|;
  }

  lemma {:induction false} ProcsKept(c: Config, s: State, acts: seq<Action>)
    requires Exec(c, s, acts).Some?
    ensures |Exec(c, s, acts).value.procs| == |s.procs|
  {
    if acts != [] {
      hide Enabled, Next;
      ProcsKept(c, s, acts[..|acts| - 1]);
      ProcsStep(c, Exec(c, s, acts[..|acts| - 1]).value, acts[|acts| - 1]);
    }
  }

  lemma ProcsStep(c: Config, s: State, a: Action)
    requires Enabled(c, s, a)
    ensures |Next(c, s, a).procs| == |s.procs|
  {
    hide CommitWrites, RecoveryWrites, GoodDisk, GoodHeader, Apply1, Absorb;
  }

  // ---------------------------------------------------------------------------
  // What has ended is durable

  /** No operation belongs to the group that is open. */
  predicate NoneOpen(s: State) {
    forall k :: k in s.epoch ==> s.epoch[k] < |s.history|
  }

  /** The open group is empty when nothing is going on, and once a commit has closed a group. */
  ghost predicate Settled(s: State) {
    && (s.outstanding == 0 && !s.committing ==> NoneOpen(s))
    && forall p :: Committer(s, p) && Closed(s.procs[p]) ==> NoneOpen(s)
  }

  lemma SettledCommit(c: Config, s: State, t: State, p: nat)
    requires Control(s) && Placed(s) && Settled(s) && WritingCommit(c, s, p)
    requires var q := s.procs[p];
      || (Enabled(c, s, CommitWrite(p)) && t == DoCommitWrite(c, s, p))
      || (Enabled(c, s, CommitDone(p)) && t == DoCommitDone(s, p))
    ensures Settled(t)
  {
    hide CommitWrites, GoodDisk, GoodHeader, Apply1, Ops;
    var q := s.procs[p];
    CommitLength(c.g, q.d, q.pins, q.list);
    CommitsAlone(s, p);
    hide Control;
    assert Committer(s, p);
    assert forall r :: Committer(t, r) ==> Committer(s, r);
    assert t.epoch == s.epoch;
  }

  /** A step that closes no group, and after which an operation is outstanding if the log was at work before. */
  lemma SettledSame(s: State, t: State)
    requires Settled(s) && t.history == s.history
    requires t.outstanding == 0 && !t.committing ==> s.outstanding == 0 && !s.committing && t.epoch == s.epoch
    requires forall p :: Committer(t, p) && Closed(t.procs[p]) ==> Committer(s, p) && Closed(s.procs[p])
    requires (exists p :: Committer(t, p) && Closed(t.procs[p])) ==> t.epoch == s.epoch
    ensures Settled(t)
  {
  }

  lemma SettledKept(c: Config, s: State, a: Action)
    requires Control(s) && Placed(s) && Settled(s) && Enabled(c, s, a)
    ensures Settled(Next(c, s, a))
  {
    var t := Next(c, s, a);
    if a.CommitWrite? || a.CommitDone? {
      hide CommitWrites, Control, Placed, Settled;
      SettledCommit(c, s, t, a.p);
    } else if a.Crash? {
      hide Control;
      assert forall q :: !Committer(t, q);
    } else {
      hide Placed, Settled, RecoveryWrites, GoodDisk, Absorb, Apply1;
      NoOps(s.procs);
      SettledSame(s, t);
    }
  }

  lemma {:induction false} SettledAlways(c: Config, d: Disk, nprocs: nat, acts: seq<Action>)
    requires c.limit <= MAXOPBLOCKS && Exec(c, Boot(d, nprocs), acts).Some?
    ensures Settled(Exec(c, Boot(d, nprocs), acts).value)
  {
    if acts == [] {
      assert forall q :: !Committer(Boot(d, nprocs), q);
    } else {
      hide Control, Space, Recorded, Placed, Settled, Enabled, Next;
      SettledAlways(c, d, nprocs, acts[..|acts| - 1]);
      ControlAlways(c, d, nprocs, acts[..|acts| - 1]);
      SettledKept(c, Exec(c, Boot(d, nprocs), acts[..|acts| - 1]).value, acts[|acts| - 1]);
    }
  }

  /** Operations that have ended between s and t belong to groups not closed in s, and the groups closed between s and
    t are committed. */
  ghost predicate Since(s: State, t: State) {
    && |s.history| <= |t.history| && t.history[..|s.history|] == s.history
    && (forall e :: |s.history| <= e < |t.history| ==> t.history[e].committed)
    && (forall k :: k in t.ended && k !in s.ended ==> k in t.epoch && |s.history| <= t.epoch[k])
  }

  /** What a step that is no crash does to the history. */
  lemma StepEffect(c: Config, t: State, a: Action)
    requires Placed(t) && Enabled(c, t, a) && a != Crash
    ensures var u := Next(c, t, a);
      && (u.history == t.history || u.history == t.history + [Group(t.current, true)])
      && (forall k :: k in t.epoch ==> k in u.epoch && u.epoch[k] == t.epoch[k])
      && (forall k :: k in u.ended ==> k in t.ended || From(t, k, |t.history|))
  {
    hide CommitWrites, RecoveryWrites, GoodDisk, GoodHeader, Apply1, Absorb;
    if a.End? {
      assert Runs(t, a.p, t.procs[a.p].op);
    } else if a.Begin? {
      assert |t.epoch| !in t.epoch;
    }
  }

  lemma SinceKept(c: Config, s: State, t: State, a: Action)
    requires Since(s, t) && Placed(t) && Enabled(c, t, a) && a != Crash
    ensures Since(s, Next(c, t, a))
  {
    hide Next, Enabled;
    StepEffect(c, t, a);
    assert t.ended <= t.epoch.Keys;
    hide Placed;
  }

  lemma {:induction false} SinceAlways(c: Config, d: Disk, nprocs: nat, pre: seq<Action>, post: seq<Action>)
    requires c.limit <= MAXOPBLOCKS && Exec(c, Boot(d, nprocs), pre + post).Some? && Only(post, NoCrash())
    ensures Exec(c, Boot(d, nprocs), pre).Some?
    ensures Since(Exec(c, Boot(d, nprocs), pre).value, Exec(c, Boot(d, nprocs), pre + post).value)
    decreases |post|
  {
    hide Control, Space, Recorded, Placed, Since, Enabled, Next;
    if post == [] {
      assert pre + post == pre;
      SinceNone(Exec(c, Boot(d, nprocs), pre).value);
    } else {
      var n := |post| - 1;
      assert (pre + post)[..|pre + post| - 1] == pre + post[..n] && (pre + post)[|pre + post| - 1] == post[n];
      SinceAlways(c, d, nprocs, pre, post[..n]);
      ControlAlways(c, d, nprocs, pre + post[..n]);
      var m := Exec(c, Boot(d, nprocs), pre + post[..n]).value;
      SinceKept(c, Exec(c, Boot(d, nprocs), pre).value, m, post[n]);
    }
  }

  lemma SinceNone(s: State)
    ensures Since(s, s)
  {
  }

  /** How many groups were lost, and how many crashes there were. */
  function Lost(h: seq<Group>): (n: nat) {
    if h == [] then 0 else Lost(h[..|h| - 1]) + if h[|h| - 1].committed then 0 else 1
  }

  function Crashes(acts: seq<Action>): (n: nat) {
    if acts == [] then 0 else Crashes(acts[..|acts| - 1]) + if acts[|acts| - 1] == Crash then 1 else 0
  }

  lemma LostStep(c: Config, s: State, a: Action)
    requires Enabled(c, s, a)
    ensures Lost(Next(c, s, a).history) == Lost(s.history) + if a == Crash then 1 else 0
  {
    hide CommitWrites, RecoveryWrites, GoodDisk, GoodHeader, Apply1, Absorb, Lost;
    LostClose(s.history, Group(s.current, true));
    LostClose(s.history, Group(s.current, false));
  }

  lemma LostClose(h: seq<Group>, g: Group)
    ensures Lost(h + [g]) == Lost(h) + if g.committed then 0 else 1
  {
    assert (h + [g])[..|h|] == h;
  }

  /** In every run exactly the crashes lose a group, one each. */
  lemma {:induction false} OnlyCrashesLose(c: Config, d: Disk, nprocs: nat, acts: seq<Action>)
    requires Exec(c, Boot(d, nprocs), acts).Some?
    ensures Lost(Exec(c, Boot(d, nprocs), acts).value.history) == Crashes(acts)
  {
    if acts != [] {
      hide Next, Enabled, Lost;
      OnlyCrashesLose(c, d, nprocs, acts[..|acts| - 1]);
      LostStep(c, Exec(c, Boot(d, nprocs), acts[..|acts| - 1]).value, acts[|acts| - 1]);
    }
  }

  /** Record i of group e is the last write of a committed group to its block. */
  ghost predicate LastOf(h: seq<Group>, e: nat, i: nat) {
    && e < |h| && h[e].committed && i < |h[e].records|
    && (forall j :: i < j < |h[e].records| ==> h[e].records[j].w.blockno != h[e].records[i].w.blockno)
    && (forall f, j :: e < f < |h| && h[f].committed && 0 <= j < |h[f].records| ==>
          h[f].records[j].w.blockno != h[e].records[i].w.blockno)
  }

  lemma {:induction false} ApplyLast(d: Disk, ws: seq<Write>, i: nat)
    requires i < |ws| && 0 <= ws[i].blockno < |d| && forall j :: i < j < |ws| ==> ws[j].blockno != ws[i].blockno
    ensures Apply(d, ws)[ws[i].blockno] == ws[i].data
    decreases |ws|
  {
    if i < |ws| - 1 {
      ApplyLast(d, ws[..|ws| - 1], i);
    }
  }

  lemma {:induction false} ApplyOther(d: Disk, ws: seq<Write>, b: int)
    requires 0 <= b < |d| && forall j :: 0 <= j < |ws| ==> ws[j].blockno != b
    ensures Apply(d, ws)[b] == d[b]
    decreases |ws|
  {
    if ws != [] {
      ApplyOther(d, ws[..|ws| - 1], b);
    }
  }

  lemma {:induction false} ReplayLast(base: Disk, h: seq<Group>, e: nat, i: nat)
    requires LastOf(h, e, i) && 0 <= h[e].records[i].w.blockno < |base|
    ensures Replay(base, h)[h[e].records[i].w.blockno] == h[e].records[i].w.data
    decreases |h|
  {
    hide Apply;
    var n := |h| - 1;
    var d := Replay(base, h[..n]);
    if e == n {
      ApplyLast(d, Writes(h[n].records), i);
    } else {
      ReplayLast(base, h[..n], e, i);
      if h[n].committed {
        ApplyOther(d, Writes(h[n].records), h[e].records[i].w.blockno);
      }
    }
  }

  /** Main result: take any run within the log and any point of it after which there is no crash. When nothing is
    going on at the end, every operation that has ended since is in a committed group; and every block on disk holds
    what the last write to it by a committed group put there. */
  lemma EndedIsDurable(c: Config, d: Disk, nprocs: nat, pre: seq<Action>, post: seq<Action>)
    requires c.limit <= MAXOPBLOCKS && GoodDisk(c.g, d)
    requires Exec(c, Boot(d, nprocs), pre + post).Some? && Within(c, Boot(d, nprocs), pre + post)
    requires Only(post, NoCrash())
    requires Quiet(Exec(c, Boot(d, nprocs), pre + post).value)
    ensures Exec(c, Boot(d, nprocs), pre).Some?
    ensures var s, t := Exec(c, Boot(d, nprocs), pre).value, Exec(c, Boot(d, nprocs), pre + post).value;
      forall k :: k in t.ended && k !in s.ended ==> InCommitted(t, k)
    ensures var t := Exec(c, Boot(d, nprocs), pre + post).value;
      forall e: nat, i: nat :: LastOf(t.history, e, i) ==> OnDisk(c, t.disk, t.history[e].records[i].w)
  {
    hide Exec, Within, Inv, GoodDisk, HeaderOf, Meaning, Replay;
    SinceAlways(c, d, nprocs, pre, post);
    SettledAlways(c, d, nprocs, pre + post);
    InvAlways(c, d, nprocs, pre + post);
    var t := Exec(c, Boot(d, nprocs), pre + post).value;
    var base := Meaning(c.g, d);
    RecoveredDisk(c, base, t);
    forall e: nat, i: nat | LastOf(t.history, e, i) ensures OnDisk(c, t.disk, t.history[e].records[i].w) {
      if OnHome(c, t.disk, t.history[e].records[i].w.blockno) {
        ReplayLast(base, t.history, e, i);
      }
    }
  }

  /** Operation k is in a group that was committed. */
  predicate InCommitted(t: State, k: nat) {
    k in t.epoch && t.epoch[k] < |t.history| && t.history[t.epoch[k]].committed
  }

  predicate OnHome(c: Config, d: Disk, b: int) { 0 <= b < |d| && !InLog(c.g, b) }

  predicate OnDisk(c: Config, d: Disk, w: Write) { OnHome(c, d, w.blockno) ==> d[w.blockno] == w.data }

  // ---------------------------------------------------------------------------
  // Every transaction can be done

  lemma {:induction false} SettledRun(c: Config, s: State, acts: seq<Action>)
    requires Control(s) && Membership(s) && Settled(s) && Exec(c, s, acts).Some?
    ensures var t := Exec(c, s, acts).value; Control(t) && Membership(t) && Settled(t)
  {
    if acts != [] {
      hide Control, Placed, Recorded, Settled, Enabled, Next;
      SettledRun(c, s, acts[..|acts| - 1]);
      var m, a := Exec(c, s, acts[..|acts| - 1]).value, acts[|acts| - 1];
      ControlKept(c, m, a);
      MembershipKept(c, m, a);
      SettledKept(c, m, a);
    }
  }

  /** Nothing has been logged when nothing is going on. */
  lemma QuietCurrent(c: Config, s: State, t: State, using: iset<Action>)
    requires Control(s) && Membership(s) && Settled(s) && Leads(c, s, t, using) && Quiet(t)
    ensures t.current == []
  {
    hide Exec, Control, Placed;
    var acts :| Only(acts, using) && Exec(c, s, acts) == Some(t);
    SettledRun(c, s, acts);
    assert t.current == [] || From(t, t.current[0].op, |t.history|);
  }

  /** The records of writes ws by operation op. */
  function RecordsOf(op: nat, ws: seq<Write>): (rs: seq<Record>)
    ensures |rs| == |ws| && forall i :: 0 <= i < |ws| ==> rs[i] == Record(op, ws[i])
  {
    seq(|ws|, i requires 0 <= i < |ws| => Record(op, ws[i]))
  }

  /** Process p is alone and has logged the first k of the writes. */
  predicate Logging(s: State, p: nat, op: nat, ws: seq<Write>, k: nat) {
    && Up(s) && !s.committing && s.outstanding == 1 && p < |s.procs| && k <= |ws| && |s.lh| <= k
    && s.procs[p].InOp? && s.procs[p].op == op && s.procs[p].appended <= k && s.procs[p].pending.None?
    && s.current == RecordsOf(op, ws[..k])
  }

  predicate AllHome(c: Config, n: nat, ws: seq<Write>) {
    forall i :: 0 <= i < |ws| ==> 0 <= ws[i].blockno < n && !InLog(c.g, ws[i].blockno)
  }

  lemma LogOne(c: Config, base: Disk, s: State, p: nat, op: nat, ws: seq<Write>, k: nat)
    requires Fits(c) && |s.disk| == |base| && Logging(s, p, op, ws, k) && k < |ws| <= c.limit
    requires AllHome(c, |base|, ws)
    ensures Enabled(c, s, Check(p, ws[k]))
    ensures var m := Next(c, s, Check(p, ws[k]));
      Enabled(c, m, Append(p)) && Logging(Next(c, m, Append(p)), p, op, ws, k + 1)
        && Next(c, m, Append(p)).history == s.history && Next(c, m, Append(p)).disk == s.disk
        && |Next(c, m, Append(p)).procs| == |s.procs|
  {
    var m := DoCheck(c, s, p, ws[k]);
    assert Next(c, s, Check(p, ws[k])) == m && m.procs[p].pending == Some(ws[k]);
    assert RecordsOf(op, ws[..k]) + [Record(op, ws[k])] == RecordsOf(op, ws[..k + 1]);
  }

  lemma DiskLength(c: Config, base: Disk, s: State)
    requires Inv(c, base, s)
    ensures |s.disk| == |base|
  {
  }

  lemma {:induction false} LogAll(c: Config, base: Disk, s: State, p: nat, op: nat, ws: seq<Write>, k: nat)
    returns (t: State)
    requires Fits(c) && Inv(c, base, s) && Logging(s, p, op, ws, k) && |ws| <= c.limit && AllHome(c, |base|, ws)
    ensures Leads(c, s, t, NoCrash()) && Inv(c, base, t) && Logging(t, p, op, ws, |ws|) && t.history == s.history
    decreases |ws| - k
  {
    hide Fits, Inv, Leads, Logging, AllHome, Enabled, Next;
    if k == |ws| {
      t := s;
      LeadsNone(c, s, NoCrash());
    } else {
      LogStarted(s, p, op, ws, k);
      DiskLength(c, base, s);
      LogOne(c, base, s, p, op, ws, k);
      var a, b := Check(p, ws[k]), Append(p);
      var m := Next(c, s, a);
      Within1(c, base, s, a);
      Within1(c, base, m, b);
      t := LogAll(c, base, Next(c, m, b), p, op, ws, k + 1);
      LeadsOn(c, m, b, t, NoCrash());
      LeadsOn(c, s, a, t, NoCrash());
    }
  }

  lemma LogStarted(s: State, p: nat, op: nat, ws: seq<Write>, k: nat)
    requires Logging(s, p, op, ws, k)
    ensures k <= |ws|
  {
  }

  /** The transaction is over: the log is at rest, the group of the writes is the last one committed, and every block
    holds what was written to it last. */
  ghost predicate Durably(c: Config, s: State, ws: seq<Write>) {
    && Quiet(s) && s.history != []
    && (exists op :: s.history[|s.history| - 1] == Group(RecordsOf(op, ws), true))
    && forall i :: 0 <= i < |ws| && LastWrite(ws, i) ==> OnDisk(c, s.disk, ws[i])
  }

  predicate LastWrite(ws: seq<Write>, i: int) {
    0 <= i < |ws| && forall j :: i < j < |ws| ==> ws[j].blockno != ws[i].blockno
  }

  lemma LastThere(c: Config, base: Disk, s: State, op: nat, ws: seq<Write>)
    requires Inv(c, base, s) && Quiet(s) && s.history != []
    requires s.history[|s.history| - 1] == Group(RecordsOf(op, ws), true)
    ensures Durably(c, s, ws)
  {
    hide Inv, GoodDisk, HeaderOf, Replay;
    RecoveredDisk(c, base, s);
    forall i | 0 <= i < |ws| && LastWrite(ws, i) ensures OnDisk(c, s.disk, ws[i]) {
      if OnHome(c, s.disk, ws[i].blockno) {
        DiskLength(c, base, s);
        assert LastOf(s.history, |s.history| - 1, i);
        ReplayLast(base, s.history, |s.history| - 1, i);
      }
    }
  }

  /** The last process out commits what it has logged. */
  lemma EndAll(c: Config, base: Disk, s: State, p: nat, op: nat, ws: seq<Write>) returns (t: State)
    requires Fits(c) && Inv(c, base, s) && Logging(s, p, op, ws, |ws|)
    ensures Leads(c, s, t, NoCrash()) && Inv(c, base, t) && Durably(c, t, ws)
  {
    hide Fits, Inv, Leads, Durably;
    assert ws[..|ws|] == ws;
    var m := DoEnd(s, p);
    assert Next(c, s, End(p)) == m && Committer(m, p) && !Closed(m.procs[p]);
    Within1(c, base, s, End(p));
    t := CommitCompletes(c, base, m, p);
    LeadsNone(c, t, NoCrash());
    LeadsTrans(c, m, t, t, CommitSteps(p), NoCrash());
    LeadsOn(c, s, End(p), t, NoCrash());
    CompletedQuiet(c, base, m, t, p);
    LastThere(c, base, t, op, ws);
  }

  lemma FirstLogging(c: Config, base: Disk, s: State, p: nat, ws: seq<Write>)
    requires Inv(c, base, s) && Quiet(s) && s.current == [] && Enabled(c, s, Begin(p))
    ensures Logging(DoBegin(s, p), p, |s.epoch|, ws, 0)
  {
  }

  /** Main result: on a log that is large enough, from every state of every run that is no panic, every process can
    carry out any transaction of writes to home blocks, as many as an operation may log, and have it committed. */
  lemma TransactionsCanBeDone(c: Config, d: Disk, nprocs: nat, acts: seq<Action>, p: nat, ws: seq<Write>)
    requires Fits(c) && GoodDisk(c.g, d) && p < nprocs && |ws| <= c.limit && AllHome(c, |d|, ws)
    requires Exec(c, Boot(d, nprocs), acts).Some? && Exec(c, Boot(d, nprocs), acts).value.panic == NoPanic
    ensures var s := Exec(c, Boot(d, nprocs), acts).value;
      exists t :: Leads(c, s, t, NoCrash()) && Durably(c, t, ws)
  {
    hide Exec, Within, Inv, Leads, GoodDisk, Meaning, Fits, Settled, Control, Placed, Recorded, Durably, Logging, Space;
    FitsWithin(c, d, nprocs, acts);
    FitsLimit(c);
    InvAlways(c, d, nprocs, acts);
    ControlAlways(c, d, nprocs, acts);
    SettledAlways(c, d, nprocs, acts);
    ProcsKept(c, Boot(d, nprocs), acts);
    MeaningLength(c.g, d);
    var s, base := Exec(c, Boot(d, nprocs), acts).value, Meaning(c.g, d);
    var m := ComesToRest(c, base, s);
    QuietCurrent(c, s, m, NoCrash());
    QuietIdle(c, base, m, p);
    FirstLogging(c, base, m, p, ws);
    Within1(c, base, m, Begin(p));
    var u := LogAll(c, base, Next(c, m, Begin(p)), p, |m.epoch|, ws, 0);
    LeadsOn(c, m, Begin(p), u, NoCrash());
    var t := EndAll(c, base, u, p, |m.epoch|, ws);
    LeadsTrans(c, m, u, t, NoCrash(), NoCrash());
    LeadsTrans(c, s, m, t, NoCrash(), NoCrash());
  }
}
