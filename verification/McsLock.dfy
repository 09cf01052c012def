/** The MCS lock of libthread.c, one step per access to shared memory, for any number
  of threads with one queue node each and for every schedule.

  The release path reads and clears lk->next in two accesses (lines 113 and 114) that
  its spin lock does not protect from the exchange in mcslock_acquire.  Mutual
  exclusion survives that; the queue does exactly when no clear is a racing one. */
module McsLock {
  import opened Options

  /** The line a thread is about to execute, with the locals it still needs. */
  datatype Pc =
    | Idle                          // line 93: qnode->next = NULL
    | Line94                        // qnode->spin = 0
    | Line97                        // exchange on lk->next
    | Line100(pred: nat)            // tail->next = qnode
    | Line102(pred: nat)            // wait for qnode->spin
    | Critical                      // in the critical section, then line 108
    | Line112                       // spin lock of the release path
    | Line113                       // t = lk->next
    | Line114(t: Option<nat>)       // if t == qnode, clear lk->next
    | Line115(t: Option<nat>)       // drop the spin lock
    | Line122                       // wait for qnode->next
    | Line126                       // read qnode->next
    | Line126Store(succ: nat)       // ...->spin = 1

  /** A thread and its queue node. */
  datatype Thread = Thread(pc: Pc, next: Option<nat>, spin: bool)

  datatype State = State(
    threads: seq<Thread>,
    /** lk->next and lk->spin. */
    tail: Option<nat>,
    spin: bool,
    /** History: threads in the order of their exchange, and in the order in which
      they were given the lock; the threads between exchange and hand-over. */
    arrivals: seq<nat>,
    grants: seq<nat>,
    queue: seq<nat>)

  function Init(n: nat): (s: State) {
    State(seq(n, _ => Thread(Idle, None, false)), None, false, [], [], [])
  }

  function Set(s: State, p: nat, th: Thread): (t: State)
    requires p < |s.threads|
    ensures |t.threads| == |s.threads| && t.threads[p] == th
  {
    s.(threads := s.threads[p := th])
  }

  function Goto(s: State, p: nat, pc: Pc): (t: State)
    requires p < |s.threads|
    ensures |t.threads| == |s.threads|
  {
    Set(s, p, s.threads[p].(pc := pc))
  }

  function Dequeue(s: State): (t: State) {
    if s.queue == [] then s else s.(queue := s.queue[1..])
  }

  function Exchange(s: State, p: nat): (t: State)
    requires p < |s.threads|
  {
    var t := s.(tail := Some(p), arrivals := s.arrivals + [p], queue := s.queue + [p]);
    if s.tail.None? then Goto(t.(grants := s.grants + [p]), p, Critical)
    else Goto(t, p, Line100(s.tail.value))
  }

  /** Thread p's next step; a thread waiting in vain stays where it is. */
  function Step(s: State, p: nat): (t: State)
    requires p < |s.threads|
    ensures |t.threads| == |s.threads|
  {
    var me := s.threads[p];
    match me.pc
    case Idle => Set(s, p, me.(next := None, pc := Line94))
    case Line94 => Set(s, p, me.(spin := false, pc := Line97))
    case Line97 => Exchange(s, p)
    case Line100(pred) =>
      if pred < |s.threads|
      then Goto(Set(s, pred, s.threads[pred].(next := Some(p))), p, Line102(pred))
      else s
    case Line102(_) => if me.spin then Goto(s, p, Critical) else s
    case Critical => if me.next.None? then Goto(s, p, Line112) else Goto(s, p, Line126)
    case Line112 => if s.spin then s else Goto(s.(spin := true), p, Line113)
    case Line113 => Goto(s, p, Line114(s.tail))
    case Line114(t) =>
      if t == Some(p) then Dequeue(Goto(s.(tail := None), p, Line115(t)))
      else Goto(s, p, Line115(t))
    case Line115(t) => Goto(s.(spin := false), p, if t == Some(p) then Idle else Line122)
    case Line122 => if me.next.None? then s else Goto(s, p, Line126)
    case Line126 => if me.next.None? then s else Goto(s, p, Line126Store(me.next.value))
    case Line126Store(q) =>
      if q < |s.threads|
      then Dequeue(Goto(Set(s, q, s.threads[q].(spin := true)), p, Idle)).(grants := s.grants + [q])
      else s
  }

  /** The state after a schedule; entries that name no thread are idle turns. */
  function Exec(s: State, sched: seq<nat>): (t: State)
    ensures |t.threads| == |s.threads|
  {
    if sched == [] then s else
      var m := Exec(s, sched[..|sched| - 1]);
      var p := sched[|sched| - 1];
      if p < |m.threads| then Step(m, p) else m
  }

  // ---------------------------------------------------------------------------
  // Mutual exclusion, for every schedule

  /** A thread that owns the lock or has just been handed it. */
  predicate Owning(th: Thread, p: int) {
    match th.pc
    case Idle => false
    case Line94 => false
    case Line97 => false
    case Line100(_) => false
    case Line102(_) => th.spin
    case Line115(t) => !(t.Some? && t.value == p)
    case _ => true
  }

  predicate Owns(s: State, p: int) {
    0 <= p < |s.threads| && Owning(s.threads[p], p)
  }

  /** Thread q waits behind pred and has not been signalled. */
  predicate WaitsFor(s: State, q: int, pred: nat) {
    0 <= q < |s.threads| && s.threads[q].pc == Line102(pred) && !s.threads[q].spin
  }

  /** Whoever a node points to, from the reset in line 93 on, waits for its signal. */
  predicate Node(s: State, p: int) {
    && 0 <= p < |s.threads|
    && (s.threads[p].pc != Idle && s.threads[p].next.Some? ==> WaitsFor(s, s.threads[p].next.value, p))
    && (s.threads[p].pc.Line126Store? ==> WaitsFor(s, s.threads[p].pc.succ, p))
    && (s.threads[p].pc == Line97 || s.threads[p].pc.Line100? ==> !s.threads[p].spin)
  }

  /** One owner at most, and none while lk->next is NULL. */
  ghost predicate OneOwner(s: State) {
    && (forall p, q :: Owns(s, p) && Owns(s, q) ==> p == q)
    && (s.tail.None? ==> forall p :: !Owns(s, p))
    && (forall p :: 0 <= p < |s.threads| ==> Node(s, p))
  }

  lemma OneOwnerInit(n: nat)
    ensures OneOwner(Init(n))
  {
  }

  /** A step in which only p's program counter and lk->spin change. */
  lemma OneOwnerLocal(s: State, t: State, p: nat)
    requires OneOwner(s) && p < |s.threads| && |t.threads| == |s.threads|
    requires forall q :: 0 <= q < |s.threads| && q != p ==> t.threads[q] == s.threads[q]
    requires t.threads[p] == s.threads[p].(pc := t.threads[p].pc) && t.tail == s.tail
    requires s.threads[p].pc != Idle && t.threads[p].pc != Line97 && !t.threads[p].pc.Line100?
    requires Owns(t, p) == Owns(s, p)
    requires !WaitsFor(s, p, 0) && (s.threads[p].pc.Line102? ==> s.threads[p].spin)
    requires t.threads[p].pc.Line126Store? ==> s.threads[p].next == Some(t.threads[p].pc.succ)
    ensures OneOwner(t)
  {
    assert forall q :: Owns(t, q) <==> Owns(s, q);
    assert forall q, x :: WaitsFor(s, q, x) ==> WaitsFor(t, q, x);
    forall r | 0 <= r < |s.threads|
      ensures Node(t, r)
    {
      assert Node(s, r);
    }
  }

  lemma OneOwnerReset(s: State, p: nat)
    requires OneOwner(s) && p < |s.threads| && (s.threads[p].pc == Idle || s.threads[p].pc == Line94)
    ensures OneOwner(Step(s, p))
  {
    var t := Step(s, p);
    assert forall q :: Owns(t, q) <==> Owns(s, q);
    assert forall q, x :: WaitsFor(s, q, x) ==> WaitsFor(t, q, x);
    forall r | 0 <= r < |s.threads|
      ensures Node(t, r)
    {
      assert Node(s, r);
    }
  }

  lemma ExchangeStep(s: State, p: nat)
    requires p < |s.threads| && s.threads[p].pc == Line97
    ensures var t := Step(s, p);
      && t.threads == s.threads[p := s.threads[p].(pc :=
           if s.tail.None? then Critical else Line100(s.tail.value))]
      && t.tail == Some(p) && t.queue == s.queue + [p] && t.arrivals == s.arrivals + [p]
      && t.grants == if s.tail.None? then s.grants + [p] else s.grants
  {
  }

  lemma AttachStep(s: State, p: nat, x: nat)
    requires p < |s.threads| && s.threads[p].pc == Line100(x) && x < |s.threads|
    ensures var t := Step(s, p); var th := s.threads[x := s.threads[x].(next := Some(p))];
      && t.threads == th[p := th[p].(pc := Line102(x))]
      && t.tail == s.tail && t.queue == s.queue
  {
  }

  lemma ClearStep(s: State, p: nat)
    requires p < |s.threads| && s.threads[p].pc == Line114(Some(p))
    ensures var t := Step(s, p);
      && t.threads == s.threads[p := s.threads[p].(pc := Line115(Some(p)))]
      && t.tail == None && t.arrivals == s.arrivals && t.grants == s.grants
      && t.queue == if s.queue == [] then [] else s.queue[1..]
  {
  }

  lemma SignalStep(s: State, p: nat, q: nat)
    requires p < |s.threads| && s.threads[p].pc == Line126Store(q) && q < |s.threads| && q != p
    ensures var t := Step(s, p);
      && t.threads == s.threads[q := s.threads[q].(spin := true)][p := s.threads[p].(pc := Idle)]
      && t.tail == s.tail && t.arrivals == s.arrivals && t.grants == s.grants + [q]
      && t.queue == if s.queue == [] then [] else s.queue[1..]
  {
  }

  lemma OneOwnerExchange(s: State, p: nat)
    requires OneOwner(s) && p < |s.threads| && s.threads[p].pc == Line97
    ensures OneOwner(Step(s, p))
  {
    hide Step;
    ExchangeStep(s, p);
    var t := Step(s, p);
    assert forall q :: q != p ==> (Owns(t, q) <==> Owns(s, q));
    assert forall q, x :: WaitsFor(s, q, x) ==> WaitsFor(t, q, x);
    forall r | 0 <= r < |s.threads|
      ensures Node(t, r)
    {
      assert Node(s, r);
    }
  }

  lemma OneOwnerAttach(s: State, p: nat)
    requires OneOwner(s) && p < |s.threads| && s.threads[p].pc.Line100? && s.threads[p].pc.pred < |s.threads|
    ensures OneOwner(Step(s, p))
  {
    hide Step;
    AttachStep(s, p, s.threads[p].pc.pred);
    var t := Step(s, p);
    assert Node(s, p);
    assert forall q :: Owns(t, q) <==> Owns(s, q);
    assert forall q, y :: WaitsFor(s, q, y) ==> WaitsFor(t, q, y);
    forall r | 0 <= r < |s.threads|
      ensures Node(t, r)
    {
      assert Node(s, r);
    }
  }

  lemma OneOwnerClear(s: State, p: nat)
    requires OneOwner(s) && p < |s.threads| && s.threads[p].pc == Line114(Some(p))
    ensures OneOwner(Step(s, p))
  {
    hide Step;
    ClearStep(s, p);
    var t := Step(s, p);
    assert Owns(s, p) && !Owns(t, p);
    hide Owning;
    assert forall q :: Owns(t, q) ==> Owns(s, q) && q != p;
    assert forall q, x :: WaitsFor(s, q, x) ==> WaitsFor(t, q, x);
    forall r | 0 <= r < |s.threads|
      ensures Node(t, r)
    {
      assert Node(s, r);
    }
  }

  lemma OneOwnerSignal(s: State, p: nat)
    requires OneOwner(s) && p < |s.threads| && s.threads[p].pc.Line126Store?
    ensures OneOwner(Step(s, p))
  {
    hide Step;
    var q := s.threads[p].pc.succ;
    assert Node(s, p) && WaitsFor(s, q, p) && q != p;
    SignalStep(s, p, q);
    var t := Step(s, p);
    assert Owns(s, p) && !Owns(t, p) && Owns(t, q);
    hide Owning;
    assert forall r :: Owns(t, r) ==> r == q || (Owns(s, r) && r != p);
    forall r | 0 <= r < |s.threads|
      ensures Node(t, r)
    {
      assert Node(s, r);
    }
  }

  lemma OneOwnerKept(s: State, p: nat)
    requires OneOwner(s) && p < |s.threads|
    ensures OneOwner(Step(s, p))
  {
    hide OneOwner;
    var pc := s.threads[p].pc;
    if pc == Idle || pc == Line94 {
      OneOwnerReset(s, p);
    } else if pc == Line97 {
      OneOwnerExchange(s, p);
    } else if pc.Line100? && pc.pred < |s.threads| {
      OneOwnerAttach(s, p);
    } else if pc == Line114(Some(p)) {
      OneOwnerClear(s, p);
    } else if pc.Line126Store? {
      OneOwnerSignal(s, p);
    } else if Step(s, p) != s {
      OneOwnerLocal(s, Step(s, p), p);
    }
  }

  /** In every interleaving at most one thread is in the critical section. */
  lemma {:induction false} MutualExclusion(n: nat, sched: seq<nat>)
    ensures OneOwner(Exec(Init(n), sched))
    ensures var s := Exec(Init(n), sched);
      forall p, q :: 0 <= p < n && 0 <= q < n && s.threads[p].pc == Critical == s.threads[q].pc ==> p == q
  {
    if sched == [] {
      OneOwnerInit(n);
    } else {
      MutualExclusion(n, sched[..|sched| - 1]);
      var m := Exec(Init(n), sched[..|sched| - 1]);
      var p := sched[|sched| - 1];
      if p < |m.threads| {
        OneOwnerKept(m, p);
      }
    }
    var s := Exec(Init(n), sched);
    assert forall p :: 0 <= p < n && s.threads[p].pc == Critical ==> Owns(s, p);
  }

  // ---------------------------------------------------------------------------
  // The queue, while no clear races with an exchange

  /** Line 114 is about to clear lk->next although another thread's exchange came in
    after line 113 read it. */
  predicate Racing(s: State, p: nat) {
    p < |s.threads| && s.threads[p].pc == Line114(Some(p)) && s.tail != Some(p)
  }

  predicate InQueue(s: State, p: int) {
    0 <= p < |s.threads| && (Owns(s, p) || s.threads[p].pc.Line100? || s.threads[p].pc.Line102?)
  }

  /** Thread q has announced itself behind pred and is not signalled yet. */
  predicate Behind(s: State, q: int, pred: nat) {
    0 <= q < |s.threads| && (s.threads[q].pc == Line100(pred) || WaitsFor(s, q, pred))
  }

  /** The i-th queued thread: the first owns the lock, each other one is behind its
    predecessor, and a node points to its successor once that has attached. */
  predicate Place(s: State, i: int) {
    && 0 <= i < |s.queue| && s.queue[i] < |s.threads|
    && (if i == 0 then Owns(s, s.queue[0]) else Behind(s, s.queue[i], s.queue[i - 1]))
    && s.threads[s.queue[i]].next == Link(s, i + 1)
  }

  function Link(s: State, j: int): (r: Option<nat>) {
    if 0 <= j < |s.queue| && s.queue[j] < |s.threads| && s.threads[s.queue[j]].pc.Line102?
    then Some(s.queue[j]) else None
  }

  /** What the release path has found out so far, and the fresh node of line 93. */
  predicate Knows(s: State, p: int)
    requires 0 <= p < |s.threads|
  {
    match s.threads[p].pc
    case Line94 => s.threads[p].next.None?
    case Line97 => s.threads[p].next.None?
    case Line114(t) => t.Some? && (t != Some(p) ==> |s.queue| >= 2)
    case Line115(t) => t != Some(p) ==> |s.queue| >= 2
    case Line122 => |s.queue| >= 2
    case Line126 => s.threads[p].next.Some?
    case Line126Store(q) => s.threads[p].next == Some(q)
    case _ => true
  }

  ghost predicate Members(s: State) {
    && (forall p :: InQueue(s, p) <==> p in s.queue)
    && (forall i, j :: 0 <= i < j < |s.queue| ==> s.queue[i] != s.queue[j])
  }

  /** The queue starts with the owner, ends with lk->next, and is linked node by node
    up to the threads that have announced themselves but not attached yet. */
  ghost predicate Queue(s: State) {
    && Members(s)
    && s.tail == (if s.queue == [] then None else Some(s.queue[|s.queue| - 1]))
    && (forall i :: 0 <= i < |s.queue| ==> Place(s, i))
    && (forall p :: 0 <= p < |s.threads| ==> Knows(s, p))
  }

  /** Only the head of the queue owns the lock. */
  lemma HeadOwns(s: State, p: nat)
    requires Queue(s) && OneOwner(s) && Owns(s, p)
    ensures s.queue != [] && s.queue[0] == p
  {
    assert InQueue(s, p) && p in s.queue;
    assert Place(s, 0);
  }

  /** Steps of the owner, or outside the queue, that leave queue and nodes alone. */
  lemma QueueLocal(s: State, t: State, p: nat)
    requires Queue(s) && OneOwner(s) && p < |s.threads| && |t.threads| == |s.threads|
    requires t.threads == s.threads[p := s.threads[p].(pc := t.threads[p].pc)]
    requires t.tail == s.tail && t.queue == s.queue
    requires if Owns(s, p) then Owns(t, p) && !t.threads[p].pc.Line102? else !InQueue(s, p) && !InQueue(t, p)
    requires Knows(t, p)
    ensures Queue(t)
  {
    if Owns(s, p) {
      HeadOwns(s, p);
    }
    assert forall q :: InQueue(t, q) <==> InQueue(s, q);
    forall i | 0 <= i < |s.queue|
      ensures Place(t, i)
    {
      assert Place(s, i);
      if i + 1 < |s.queue| {
        assert Place(s, i + 1);
      }
    }
    forall q | 0 <= q < |s.threads| && q != p ensures Knows(t, q) {
      assert Knows(s, q) && t.threads[q] == s.threads[q] && |t.queue| >= |s.queue|;
    }
  }

  lemma QueueReset(s: State, p: nat)
    requires Queue(s) && p < |s.threads| && (s.threads[p].pc == Idle || s.threads[p].pc == Line94)
    ensures Queue(Step(s, p))
  {
    var t := Step(s, p);
    assert !InQueue(s, p) && p !in s.queue;
    assert Knows(s, p) && Knows(t, p);
    assert t.queue == s.queue && t.tail == s.tail;
    assert forall q :: 0 <= q < |s.threads| && q != p ==> t.threads[q] == s.threads[q];
    hide Step;
    QueueOutside(s, t, p);
  }

  /** Whatever a thread outside the queue does to its own node. */
  lemma QueueOutside(s: State, t: State, p: nat)
    requires Queue(s) && p < |s.threads| && |t.threads| == |s.threads|
    requires !InQueue(s, p) && !InQueue(t, p) && Knows(t, p)
    requires forall q :: 0 <= q < |s.threads| && q != p ==> t.threads[q] == s.threads[q]
    requires t.tail == s.tail && t.queue == s.queue
    ensures Queue(t)
  {
    assert forall q :: InQueue(t, q) <==> InQueue(s, q);
    forall i | 0 <= i < |s.queue|
      ensures Place(t, i)
    {
      assert Place(s, i) && s.queue[i] in s.queue;
      if i + 1 < |s.queue| {
        assert Place(s, i + 1) && s.queue[i + 1] in s.queue;
      }
    }
    forall q | 0 <= q < |s.threads| && q != p ensures Knows(t, q) {
      assert Knows(s, q) && t.threads[q] == s.threads[q] && |t.queue| >= |s.queue|;
    }
  }

  lemma QueueExchange(s: State, p: nat)
    requires Queue(s) && OneOwner(s) && p < |s.threads| && s.threads[p].pc == Line97
    ensures Queue(Step(s, p))
  {
    hide Step;
    ExchangeStep(s, p);
    var t, n := Step(s, p), |s.queue|;
    assert !InQueue(s, p) && p !in s.queue && InQueue(t, p);
    assert Knows(s, p);
    assert n == 0 ==> Owns(t, p);
    hide Owning;
    assert forall q :: q != p ==> (InQueue(t, q) <==> InQueue(s, q));
    forall i | 0 <= i < |t.queue|
      ensures Place(t, i)
    {
      if i < n {
        assert Place(s, i) && s.queue[i] in s.queue;
        if i + 1 < n {
          assert Place(s, i + 1) && s.queue[i + 1] in s.queue;
        }
      } else if n > 0 {
        assert Place(s, n - 1);
      }
    }
    forall q | 0 <= q < |s.threads| && q != p ensures Knows(t, q) {
      assert Knows(s, q) && t.threads[q] == s.threads[q] && |t.queue| >= |s.queue|;
    }
  }

  lemma IndexOf(s: State, p: nat) returns (i: nat)
    requires Queue(s) && InQueue(s, p)
    ensures i < |s.queue| && s.queue[i] == p && Place(s, i)
  {
    assert p in s.queue;
    i :| 0 <= i < |s.queue| && s.queue[i] == p;
  }

  lemma QueueAttach(s: State, p: nat)
    requires Queue(s) && OneOwner(s) && p < |s.threads| && s.threads[p].pc.Line100?
    ensures Queue(Step(s, p))
  {
    hide Step;
    var k := IndexOf(s, p);
    assert k > 0 && Node(s, p);
    var x := s.queue[k - 1];
    assert Place(s, k - 1) && x != p && s.threads[p].pc == Line100(x);
    AttachStep(s, p, x);
    var t := Step(s, p);
    assert !s.threads[p].spin;
    assert forall q :: InQueue(t, q) <==> InQueue(s, q);
    assert forall q :: Owns(t, q) <==> Owns(s, q);
    hide Owning;
    AttachPlaces(s, t, p, k);
    AttachKnows(s, t, p, x);
  }

  lemma AttachPlaces(s: State, t: State, p: nat, k: nat)
    requires Queue(s) && 0 < k < |s.queue| && s.queue[k] == p && Place(s, k) && Place(s, k - 1)
    requires t.queue == s.queue && p < |s.threads| && s.queue[k - 1] < |s.threads| && !s.threads[p].spin
    requires s.queue[k - 1] != p
    requires var x := s.queue[k - 1];
      t.threads == s.threads[x := s.threads[x].(next := Some(p))][p := s.threads[p].(pc := Line102(x))]
    requires forall q :: Owns(t, q) <==> Owns(s, q)
    ensures forall i :: 0 <= i < |s.queue| ==> Place(t, i)
  {
    hide Owning;
    forall i | 0 <= i < |s.queue|
      ensures Place(t, i)
    {
      assert Place(s, i);
      if i + 1 < |s.queue| {
        assert Place(s, i + 1);
      }
    }
  }

  lemma AttachKnows(s: State, t: State, p: nat, x: nat)
    requires Queue(s) && p < |s.threads| && x < |s.threads| && x != p && InQueue(s, x)
    requires s.threads[p].pc == Line100(x)
    requires t.threads == s.threads[x := s.threads[x].(next := Some(p))][p := s.threads[p].(pc := Line102(x))]
    requires t.queue == s.queue
    requires s.threads[x].next.None?
    ensures forall q :: 0 <= q < |s.threads| ==> Knows(t, q)
  {
    forall q | 0 <= q < |s.threads|
      ensures Knows(t, q)
    {
      assert Knows(s, q);
    }
  }

  /** The owner's node, seen before its successor attaches. */
  lemma HeadLink(s: State, p: nat)
    requires Queue(s) && OneOwner(s) && s.queue != [] && s.queue[0] == p
    ensures p < |s.threads| && Knows(s, p) && Owns(s, p) && s.threads[p].next == Link(s, 1)
  {
    assert Place(s, 0);
  }

  lemma QueueClear(s: State, p: nat)
    requires Queue(s) && OneOwner(s) && p < |s.threads| && s.threads[p].pc == Line114(Some(p))
    requires !Racing(s, p)
    ensures Queue(Step(s, p)) && Step(s, p).queue == []
  {
    hide Step;
    var t := Step(s, p);
    HeadOwns(s, p);
    assert s.queue[|s.queue| - 1] == p && |s.queue| == 1;
    ClearStep(s, p);
    forall q
      ensures !InQueue(t, q)
    {
      assert InQueue(t, q) ==> InQueue(s, q) && q != p;
      assert InQueue(s, q) ==> q in s.queue;
    }
    forall q | 0 <= q < |s.threads|
      ensures Knows(t, q)
    {
      assert Knows(s, q);
      if q != p {
        OnlyOwnerReleases(s, p, q);
      }
    }
  }

  /** No other thread is on the part of the release path that needs the lock. */
  lemma OnlyOwnerReleases(s: State, p: nat, q: nat)
    requires OneOwner(s) && Owns(s, p) && q < |s.threads| && q != p
    ensures !Owns(s, q)
  {
  }

  lemma QueueSignal(s: State, p: nat)
    requires Queue(s) && OneOwner(s) && p < |s.threads| && s.threads[p].pc.Line126Store?
    ensures Queue(Step(s, p)) && s.queue != [] && Step(s, p).queue == s.queue[1..]
    ensures |s.queue| >= 2 && s.queue[1] == s.threads[p].pc.succ
  {
    hide Step;
    var q := s.threads[p].pc.succ;
    HeadOwns(s, p);
    HeadLink(s, p);
    assert |s.queue| >= 2 && s.queue[1] == q && Place(s, 1) && WaitsFor(s, q, p);
    SignalStep(s, p, q);
    var t := Step(s, p);
    assert Owns(t, q) && !InQueue(t, p);
    assert forall r :: r != p ==> (InQueue(t, r) <==> InQueue(s, r));
    hide Owning;
    SignalPlaces(s, t, p, q);
    SignalMembers(s, t, p);
    SignalKnows(s, t, p);
  }

  lemma SignalPlaces(s: State, t: State, p: nat, q: nat)
    requires Queue(s) && |s.queue| >= 2 && s.queue[0] == p && s.queue[1] == q && t.queue == s.queue[1..]
    requires p < |s.threads| && q < |s.threads| && Owns(t, q)
    requires t.threads == s.threads[q := s.threads[q].(spin := true)][p := s.threads[p].(pc := Idle)]
    ensures forall i :: 0 <= i < |t.queue| ==> Place(t, i)
  {
    hide Owning;
    forall i | 0 <= i < |t.queue|
      ensures Place(t, i)
    {
      assert Place(s, i + 1) && t.queue[i] == s.queue[i + 1];
      if i + 2 < |s.queue| {
        assert Place(s, i + 2);
      }
    }
  }

  lemma SignalKnows(s: State, t: State, p: nat)
    requires Queue(s) && OneOwner(s) && Owns(s, p) && |t.threads| == |s.threads|
    requires t.threads[p].pc == Idle
    requires forall r :: 0 <= r < |s.threads| && r != p ==>
      t.threads[r].pc == s.threads[r].pc && t.threads[r].next == s.threads[r].next
    ensures forall r :: 0 <= r < |s.threads| ==> Knows(t, r)
  {
    forall r | 0 <= r < |s.threads|
      ensures Knows(t, r)
    {
      assert Knows(s, r);
      if r != p {
        OnlyOwnerReleases(s, p, r);
      }
    }
  }

  lemma SignalMembers(s: State, t: State, p: nat)
    requires Members(s) && |s.queue| >= 2 && s.queue[0] == p && t.queue == s.queue[1..]
    requires !InQueue(t, p) && forall r :: r != p ==> (InQueue(t, r) <==> InQueue(s, r))
    ensures Members(t)
  {
    assert s.queue == [p] + t.queue;
  }

  lemma QueueKept(s: State, p: nat)
    requires Queue(s) && OneOwner(s) && p < |s.threads| && !Racing(s, p)
    ensures Queue(Step(s, p))
  {
    var pc := s.threads[p].pc;
    if pc == Idle || pc == Line94 {
      hide Queue, OneOwner, Step;
      QueueReset(s, p);
    } else if pc == Line97 {
      hide Queue, OneOwner, Step;
      QueueExchange(s, p);
    } else if pc.Line100? {
      hide Queue, OneOwner, Step;
      QueueAttach(s, p);
    } else if pc == Line114(Some(p)) {
      hide Queue, OneOwner, Step;
      QueueClear(s, p);
    } else if pc.Line126Store? {
      hide Queue, OneOwner, Step;
      QueueSignal(s, p);
    } else if Step(s, p) != s {
      QueueOwner(s, p);
    }
  }

  lemma QueueOwner(s: State, p: nat)
    requires Queue(s) && OneOwner(s) && p < |s.threads| && Step(s, p) != s
    requires s.threads[p].pc !in {Idle, Line94, Line97, Line114(Some(p))}
    requires !s.threads[p].pc.Line100? && !s.threads[p].pc.Line126Store?
    ensures Queue(Step(s, p))
  {
    var t := Step(s, p);
    assert Knows(s, p);
    assert t.queue == s.queue && t.tail == s.tail;
    assert t.threads == s.threads[p := s.threads[p].(pc := t.threads[p].pc)];
    if Owns(s, p) {
      HeadOwns(s, p);
      assert Place(s, 0);
    }
    assert Knows(t, p);
    hide Queue, OneOwner, Step, Knows;
    QueueLocal(s, t, p);
  }

  // ---------------------------------------------------------------------------
  // First come, first served

  /** The lock has been granted in the order of the exchanges, and those still queued
    are the ones that come next. */
  ghost predicate Fifo(s: State) {
    && |s.grants| <= |s.arrivals|
    && s.grants == s.arrivals[..|s.grants|]
    && (if s.queue == [] then |s.grants| == |s.arrivals|
        else |s.grants| >= 1 && s.arrivals[|s.grants| - 1..] == s.queue)
  }

  lemma QuietStep(s: State, p: nat)
    requires p < |s.threads| && s.threads[p].pc !in {Line97, Line114(Some(p))} && !s.threads[p].pc.Line126Store?
    ensures var t := Step(s, p); t.queue == s.queue && t.arrivals == s.arrivals && t.grants == s.grants
  {
  }

  lemma FifoExchange(s: State, p: nat)
    requires Fifo(s) && p < |s.threads| && s.threads[p].pc == Line97
    requires s.tail.None? <==> s.queue == []
    ensures Fifo(Step(s, p))
  {
    hide Step;
    ExchangeStep(s, p);
    var t, n := Step(s, p), |s.grants|;
    if s.queue == [] {
      assert t.arrivals[n..] == [p];
    } else {
      assert t.arrivals[n - 1..] == s.arrivals[n - 1..] + [p];
    }
  }

  lemma FifoKept(s: State, p: nat)
    requires Fifo(s) && Queue(s) && OneOwner(s) && p < |s.threads| && !Racing(s, p)
    ensures Fifo(Step(s, p))
  {
    hide Step;
    var pc := s.threads[p].pc;
    if pc == Line97 {
      FifoExchange(s, p);
    } else if pc == Line114(Some(p)) {
      QueueClear(s, p);
      ClearStep(s, p);
      HeadOwns(s, p);
      assert |s.queue| == 1;
    } else if pc.Line126Store? {
      QueueSignal(s, p);
      assert Place(s, 1);
      FifoSignal(s, p);
    } else {
      QuietStep(s, p);
    }
  }

  lemma FifoSignal(s: State, p: nat)
    requires Fifo(s) && |s.queue| >= 2 && p < |s.threads| && s.threads[p].pc.Line126Store?
    requires s.queue[1] == s.threads[p].pc.succ && s.queue[1] < |s.threads| && s.queue[1] != p
    ensures Fifo(Step(s, p))
  {
    hide Step;
    var t := Step(s, p);
    SignalStep(s, p, s.queue[1]);
    var n := |s.grants|;
    assert s.arrivals[n - 1..][1] == s.queue[1];
    assert s.arrivals[n - 1..][1..] == s.arrivals[n..];
    assert s.arrivals[..n + 1] == s.arrivals[..n] + [s.arrivals[n]];
  }

  // ---------------------------------------------------------------------------
  // Waiters are dropped exactly by racing clears

  predicate Waiting(s: State, q: int) {
    0 <= q < |s.threads| && (s.threads[q].pc.Line100? || (s.threads[q].pc.Line102? && !s.threads[q].spin))
  }

  /** Someone waits for the lock although nobody owns it. */
  ghost predicate Orphaned(s: State) {
    (exists q :: Waiting(s, q)) && forall p :: !Owns(s, p)
  }

  ghost predicate Sound(s: State) {
    OneOwner(s) && Queue(s) && Fifo(s)
  }

  lemma SoundInit(n: nat)
    ensures Sound(Init(n))
  {
    var s := Init(n);
    assert forall p :: !InQueue(s, p);
  }

  lemma SoundNotOrphaned(s: State)
    requires Sound(s)
    ensures !Orphaned(s)
  {
    if q :| Waiting(s, q) {
      assert InQueue(s, q) && q in s.queue;
      assert Place(s, 0);
    }
  }

  lemma LostAtClear(s: State, p: nat, q: nat)
    requires OneOwner(s) && Racing(s, p) && Behind(s, q, p)
    ensures Lost(Step(s, p), p, q)
  {
    hide Step;
    ClearStep(s, p);
    forall r | 0 <= r < |s.threads| && r != p
      ensures s.threads[r].next == Some(q) ==> s.threads[r].pc == Idle
      ensures s.threads[r].pc != Line126Store(q)
    {
      assert Node(s, r) && Node(s, q);
    }
    assert Node(s, q);
  }

  /** From a sound state a step keeps soundness unless it is a racing clear, and a
    racing clear always leaves a waiter behind that no thread but p can serve. */
  lemma RaceDropsWaiter(s: State, p: nat)
    requires Sound(s) && p < |s.threads|
    ensures if Racing(s, p) then Orphaned(Step(s, p)) && exists q :: Lost(Step(s, p), p, q) else Sound(Step(s, p))
  {
    OneOwnerKept(s, p);
    if Racing(s, p) {
      HeadOwns(s, p);
      assert s.tail == Some(s.queue[|s.queue| - 1]) && |s.queue| >= 2;
      assert Place(s, 1);
      var q := s.queue[1];
      ClearStep(s, p);
      hide Step;
      assert Waiting(Step(s, p), q);
      LostAtClear(s, p, q);
    } else {
      hide Step, OneOwner, Queue, Fifo;
      QueueKept(s, p);
      FifoKept(s, p);
    }
  }

  /** Some step of the schedule is a racing clear. */
  ghost predicate HasRace(n: nat, sched: seq<nat>) {
    exists k :: 0 <= k < |sched| && Racing(Exec(Init(n), sched[..k]), sched[k])
  }

  /** While no clear has raced the queue is intact: owner first, lk->next last, every
    node linked, grants in the order of the exchanges. */
  lemma {:induction false} SoundUntilRace(n: nat, sched: seq<nat>)
    requires !HasRace(n, sched)
    ensures Sound(Exec(Init(n), sched))
  {
    if sched == [] {
      SoundInit(n);
    } else {
      var k := |sched| - 1;
      var m := Exec(Init(n), sched[..k]);
      assert !Racing(m, sched[k]);
      PrefixHasNoRace(n, sched, k);
      SoundUntilRace(n, sched[..k]);
      if sched[k] < |m.threads| {
        hide Sound, Step;
        RaceDropsWaiter(m, sched[k]);
      }
    }
  }

  lemma PrefixHasNoRace(n: nat, sched: seq<nat>, k: nat)
    requires !HasRace(n, sched) && k <= |sched|
    ensures !HasRace(n, sched[..k])
  {
    hide Exec;
    forall j | 0 <= j < k
      ensures !Racing(Exec(Init(n), sched[..k][..j]), sched[..k][j])
    {
      assert sched[..k][..j] == sched[..j];
    }
  }

  /** No waiter is orphaned in a run exactly when no clear in it is a racing one. */
  lemma OrphanIffRace(n: nat, sched: seq<nat>)
    ensures (exists k :: 0 <= k <= |sched| && Orphaned(Exec(Init(n), sched[..k]))) <==> HasRace(n, sched)
  {
    if HasRace(n, sched) {
      var k := FirstRace(n, sched, |sched|);
      SoundUntilRace(n, sched[..k]);
      var m := Exec(Init(n), sched[..k]);
      RaceDropsWaiter(m, sched[k]);
      assert sched[..k + 1][..k] == sched[..k];
      assert Orphaned(Exec(Init(n), sched[..k + 1]));
    } else if k :| 0 <= k <= |sched| && Orphaned(Exec(Init(n), sched[..k])) {
      PrefixHasNoRace(n, sched, k);
      SoundUntilRace(n, sched[..k]);
      SoundNotOrphaned(Exec(Init(n), sched[..k]));
    }
  }

  lemma {:induction false} FirstRace(n: nat, sched: seq<nat>, b: nat) returns (k: nat)
    requires b <= |sched| && exists j :: 0 <= j < b && Racing(Exec(Init(n), sched[..j]), sched[j])
    ensures k < b && Racing(Exec(Init(n), sched[..k]), sched[k]) && !HasRace(n, sched[..k])
  {
    hide Exec;
    var j :| 0 <= j < b && Racing(Exec(Init(n), sched[..j]), sched[j]);
    if HasRace(n, sched[..j]) {
      var i :| 0 <= i < j && Racing(Exec(Init(n), sched[..j][..i]), sched[..j][i]);
      assert sched[..j][..i] == sched[..i];
      k := FirstRace(n, sched, j);
    } else {
      k := j;
    }
  }

  // ---------------------------------------------------------------------------
  // Lines 113 and 114 as one step, the intended compare-and-swap

  /** Turn k of the schedule is a read of lk->next in line 113. */
  predicate ReadsAt(n: nat, sched: seq<nat>, k: nat) {
    k < |sched| && sched[k] < n && Exec(Init(n), sched[..k]).threads[sched[k]].pc == Line113
  }

  /** Every thread that reads lk->next in line 113 takes the next turn too. */
  ghost predicate AtomicRelease(n: nat, sched: seq<nat>) {
    forall k :: 0 <= k && k + 1 < |sched| && ReadsAt(n, sched, k) ==> sched[k + 1] == sched[k]
  }

  /** Thread q has just read lk->next, in the last turn, and it is still what was read. */
  predicate JustRead(n: nat, sched: seq<nat>, q: nat) {
    var k := |sched| - 1;
    && 0 < |sched| && sched[k] == q && ReadsAt(n, sched, k)
    && q < n && Exec(Init(n), sched).threads[q].pc == Line114(Exec(Init(n), sched).tail)
  }

  lemma ReadStep(s: State, p: nat, q: nat)
    requires p < |s.threads| && q < |s.threads| && Step(s, p).threads[q].pc.Line114?
    ensures q == p ==> s.threads[p].pc == Line113 && Step(s, p).threads[p].pc == Line114(Step(s, p).tail)
    ensures q != p ==> s.threads[q].pc.Line114?
  {
  }

  lemma {:induction false} AtomicReads(n: nat, sched: seq<nat>, q: nat)
    requires AtomicRelease(n, sched) && q < n && Exec(Init(n), sched).threads[q].pc.Line114?
    ensures JustRead(n, sched, q)
  {
    hide Step;
    if sched != [] {
      var k := |sched| - 1;
      var rest, p := sched[..k], sched[k];
      var m := Exec(Init(n), rest);
      if p < n {
        ReadStep(m, p, q);
      }
      if m.threads[q].pc.Line114? {
        AtomicPrefix(n, sched, k);
        AtomicReads(n, rest, q);
        AtomicNext(n, sched, k, q);
      }
    }
  }

  lemma AtomicNext(n: nat, sched: seq<nat>, k: nat, q: nat)
    requires AtomicRelease(n, sched) && k < |sched| && JustRead(n, sched[..k], q)
    ensures sched[k] == q
  {
    hide Exec;
    assert sched[..k][..k - 1] == sched[..k - 1];
    assert ReadsAt(n, sched, k - 1) && sched[k - 1 + 1] == sched[k];
  }

  lemma AtomicPrefix(n: nat, sched: seq<nat>, k: nat)
    requires AtomicRelease(n, sched) && k <= |sched|
    ensures AtomicRelease(n, sched[..k])
  {
    hide Exec;
    forall j | 0 <= j && j + 1 < k && ReadsAt(n, sched[..k], j) ensures sched[..k][j + 1] == sched[..k][j] {
      assert sched[..k][..j] == sched[..j];
      assert ReadsAt(n, sched, j);
    }
  }

  /** With lines 113 and 114 as one step no clear races. */
  lemma AtomicReleaseNeverRaces(n: nat, sched: seq<nat>)
    requires AtomicRelease(n, sched)
    ensures !HasRace(n, sched)
  {
    hide Exec;
    forall k | 0 <= k < |sched| ensures !Racing(Exec(Init(n), sched[..k]), sched[k]) {
      var m := Exec(Init(n), sched[..k]);
      if sched[k] < n && m.threads[sched[k]].pc.Line114? {
        AtomicPrefix(n, sched, k);
        AtomicReads(n, sched[..k], sched[k]);
      }
    }
  }

  // ---------------------------------------------------------------------------
  // Progress

  predicate Inside(s: State, p: int) {
    0 <= p < |s.threads| && (s.threads[p].pc == Line113 || s.threads[p].pc.Line114? || s.threads[p].pc.Line115?)
  }

  /** lk->spin is set exactly while one thread is between lines 112 and 115. */
  ghost predicate SpinLock(s: State) {
    && (s.spin <==> exists p :: Inside(s, p))
    && (forall p, q :: Inside(s, p) && Inside(s, q) ==> p == q)
  }

  /** What a step does to lk->spin and to who is between lines 112 and 115. */
  ghost predicate SpinEffect(s: State, p: nat, t: State)
    requires p < |s.threads|
  {
    && (forall q :: q != p ==> (Inside(t, q) <==> Inside(s, q)))
    && (if s.threads[p].pc == Line112 && !s.spin then Inside(t, p) && t.spin
        else if s.threads[p].pc.Line115? then !Inside(t, p) && !t.spin
        else (Inside(t, p) <==> Inside(s, p)) && t.spin == s.spin)
  }

  predicate ReleaseLine(pc: Pc) {
    pc.Line112? || pc.Line113? || pc.Line114? || pc.Line115?
  }

  lemma SpinRelease(s: State, p: nat)
    requires p < |s.threads| && ReleaseLine(s.threads[p].pc)
    ensures SpinEffect(s, p, Step(s, p))
  {
  }

  predicate NodeLine(pc: Pc) { pc.Line97? || pc.Line100? || pc.Line126Store? }

  lemma SpinNode(s: State, p: nat)
    requires p < |s.threads| && NodeLine(s.threads[p].pc)
    ensures SpinEffect(s, p, Step(s, p))
  {
  }

  lemma SpinQuiet(s: State, p: nat)
    requires p < |s.threads| && !ReleaseLine(s.threads[p].pc) && !NodeLine(s.threads[p].pc)
    ensures SpinEffect(s, p, Step(s, p))
  {
  }

  lemma SpinLockKept(s: State, p: nat)
    requires SpinLock(s) && p < |s.threads|
    ensures SpinLock(Step(s, p))
  {
    hide Step;
    if ReleaseLine(s.threads[p].pc) {
      SpinRelease(s, p);
    } else if NodeLine(s.threads[p].pc) {
      SpinNode(s, p);
    } else {
      SpinQuiet(s, p);
    }
    assert s.threads[p].pc.Line115? ==> Inside(s, p);
  }

  /** Thread p takes part in the hand-over and its next step changes something. */
  predicate Moves(s: State, p: int) {
    0 <= p < |s.threads| && (InQueue(s, p) || Inside(s, p)) && Step(s, p) != s
  }

  /** While anybody owns or waits for the lock, one of those who do, or who release it, can
    take a real step. */
  lemma NoDeadlock(s: State)
    requires Sound(s) && SpinLock(s) && s.queue != []
    ensures exists p :: Moves(s, p)
  {
    var h := s.queue[0];
    HeadLink(s, h);
    if s.threads[h].pc == Line112 && s.spin {
      var q :| Inside(s, q);
      assert Step(s, q).threads[q].pc != s.threads[q].pc;
      assert Moves(s, q);
    } else if s.threads[h].pc == Line122 && s.threads[h].next.None? {
      assert Place(s, 1);
      var q := s.queue[1];
      AttachStep(s, q, h);
      assert Step(s, q).threads[q].pc == Line102(h);
      assert Moves(s, q);
    } else {
      assert Knows(s, h);
      HeadMoves(s, h);
      assert Moves(s, h);
    }
  }

  lemma HeadMoves(s: State, h: nat)
    requires Owns(s, h) && Knows(s, h) && OneOwner(s)
    requires !(s.threads[h].pc == Line112 && s.spin) && !(s.threads[h].pc == Line122 && s.threads[h].next.None?)
    ensures Step(s, h) != s
  {
    assert Node(s, h);
    assert Step(s, h).threads[h].pc != s.threads[h].pc;
  }

  lemma {:induction false} SpinLockAlways(n: nat, sched: seq<nat>)
    ensures SpinLock(Exec(Init(n), sched))
  {
    hide Step;
    if sched == [] {
      assert forall p :: !Inside(Init(n), p);
    } else {
      var k := |sched| - 1;
      SpinLockAlways(n, sched[..k]);
      var m := Exec(Init(n), sched[..k]);
      if sched[k] < |m.threads| {
        hide SpinLock;
        SpinLockKept(m, sched[k]);
      }
    }
  }

  /** In a run without a racing clear the lock goes to the threads in the order of
    their exchanges, the thread in the critical section is the last one served, and
    the lock never gets stuck while anybody owns or waits for it. */
  lemma FirstComeFirstServed(n: nat, sched: seq<nat>, p: nat)
    requires !HasRace(n, sched) && p < n
    ensures var s := Exec(Init(n), sched);
      && s.grants <= s.arrivals
      && (s.threads[p].pc == Critical ==> s.grants != [] && s.grants[|s.grants| - 1] == p)
      && (InQueue(s, p) ==> exists q :: Moves(s, q))
  {
    hide Step, Exec;
    SoundUntilRace(n, sched);
    SpinLockAlways(n, sched);
    var s := Exec(Init(n), sched);
    if InQueue(s, p) {
      assert p in s.queue;
      NoDeadlock(s);
    }
    if s.threads[p].pc == Critical {
      HeadOwns(s, p);
      assert s.arrivals[|s.grants| - 1..][0] == p;
    }
  }

  /** The lock with the compare-and-swap it means to have: in every run the lock goes to the
    threads in the order of their exchanges, nobody is orphaned, and nothing gets stuck. */
  lemma AtomicFirstComeFirstServed(n: nat, sched: seq<nat>, p: nat)
    requires AtomicRelease(n, sched) && p < n
    ensures var s := Exec(Init(n), sched);
      && Sound(s) && !Orphaned(s) && s.grants <= s.arrivals
      && (s.threads[p].pc == Critical ==> s.grants != [] && s.grants[|s.grants| - 1] == p)
      && (InQueue(s, p) ==> exists q :: Moves(s, q))
  {
    hide Exec, Sound, Moves;
    AtomicReleaseNeverRaces(n, sched);
    SoundUntilRace(n, sched);
    SoundNotOrphaned(Exec(Init(n), sched));
    FirstComeFirstServed(n, sched, p);
  }

  // ---------------------------------------------------------------------------
  // What a dropped waiter waits for

  /** Thread q waits behind p, which is done with releasing; no other thread will signal q. */
  predicate Lost(s: State, p: nat, q: nat) {
    && p < |s.threads| && q < |s.threads| && p != q
    && (s.threads[p].pc == Line115(Some(p)) || s.threads[p].pc == Idle)
    && (s.threads[q].pc == Line100(p) || s.threads[q].pc == Line102(p)) && !s.threads[q].spin
    && forall r :: 0 <= r < |s.threads| && r != p ==>
         && (s.threads[r].next == Some(q) ==> s.threads[r].pc == Idle)
         && s.threads[r].pc != Line126Store(q)
  }

  lemma LostReleaser(s: State, p: nat, q: nat)
    requires Lost(s, p, q) && s.threads[p].pc != Idle
    ensures Lost(Step(s, p), p, q)
  {
  }

  lemma LostWaiter(s: State, p: nat, q: nat)
    requires Lost(s, p, q)
    ensures Lost(Step(s, q), p, q)
  {
  }

  lemma LostNode(s: State, p: nat, q: nat, r: nat)
    requires Lost(s, p, q) && r < |s.threads| && r != p && r != q && NodeLine(s.threads[r].pc)
    ensures Lost(Step(s, r), p, q)
  {
    hide Step;
    NodeThread(s, r);
  }

  /** A step that attaches or signals: others get at most a link to the thread, or a signal. */
  lemma NodeThread(s: State, r: nat)
    requires r < |s.threads| && NodeLine(s.threads[r].pc)
    ensures var t := Step(s, r);
      && (forall x :: 0 <= x < |s.threads| ==> t.threads[x].next == s.threads[x].next || t.threads[x].next == Some(r))
      && (forall x :: 0 <= x < |s.threads| && x != r ==> t.threads[x].pc == s.threads[x].pc)
      && (forall x :: 0 <= x < |s.threads| && x != r ==>
            t.threads[x].spin == s.threads[x].spin || s.threads[r].pc == Line126Store(x))
      && (!t.threads[r].pc.Line126Store? || t == s)
  {
  }

  /** A step outside the lines that touch other nodes changes the thread alone. */
  lemma QuietThread(s: State, r: nat)
    requires r < |s.threads| && !NodeLine(s.threads[r].pc)
    ensures var t := Step(s, r);
      && (forall x :: 0 <= x < |s.threads| && x != r ==> t.threads[x] == s.threads[x])
      && (t.threads[r].next == s.threads[r].next || t.threads[r].next.None?)
      && (s.threads[r].pc == Idle ==> t.threads[r].next.None?)
      && (t.threads[r].pc.Line126Store? ==>
            s.threads[r].pc == Line126 && s.threads[r].next == Some(t.threads[r].pc.succ))
  {
  }

  lemma LostQuiet(s: State, p: nat, q: nat, r: nat)
    requires Lost(s, p, q) && r < |s.threads| && r != p && r != q && !NodeLine(s.threads[r].pc)
    ensures Lost(Step(s, r), p, q)
  {
    hide Step;
    QuietThread(s, r);
  }

  lemma LostKept(s: State, p: nat, q: nat, r: nat)
    requires Lost(s, p, q) && r < |s.threads| && !(r == p && s.threads[p].pc == Idle)
    ensures Lost(Step(s, r), p, q)
  {
    hide Step, Lost;
    if r == p {
      LostReleaser(s, p, q);
    } else if r == q {
      LostWaiter(s, p, q);
    } else if NodeLine(s.threads[r].pc) {
      LostNode(s, p, q, r);
    } else {
      LostQuiet(s, p, q, r);
    }
  }

  /** In the schedule thread p does not start to acquire. */
  ghost predicate StaysOut(s: State, p: nat, sched: seq<nat>) {
    forall k :: 0 <= k < |sched| && sched[k] == p && p < |s.threads| ==> Exec(s, sched[..k]).threads[p].pc != Idle
  }

  /** A dropped waiter is not served in any continuation in which the thread that dropped it
    does not acquire the lock again. */
  lemma {:induction false} LostForGood(s: State, p: nat, q: nat, sched: seq<nat>)
    requires Lost(s, p, q) && StaysOut(s, p, sched)
    ensures Lost(Exec(s, sched), p, q)
  {
    hide Step, Lost;
    if sched != [] {
      var k := |sched| - 1;
      assert forall j :: 0 <= j < k ==> sched[..k][..j] == sched[..j] && sched[..k][j] == sched[j];
      LostForGood(s, p, q, sched[..k]);
      var m := Exec(s, sched[..k]);
      if sched[k] < |m.threads| {
        LostKept(m, p, q, sched[k]);
      }
    }
  }

  // ---------------------------------------------------------------------------
  // A run that drops a waiter

  lemma ExecStep(s: State, sched: seq<nat>, p: nat)
    requires p < |s.threads|
    ensures Exec(s, sched + [p]) == Step(Exec(s, sched), p)
  {
    assert (sched + [p])[..|sched|] == sched;
  }

  lemma ExecThrice(s: State, sched: seq<nat>, p: nat)
    requires p < |s.threads|
    ensures Exec(s, sched + [p, p, p]) == Step(Step(Step(Exec(s, sched), p), p), p)
  {
    hide Step;
    ExecStep(s, sched, p);
    ExecStep(s, sched + [p], p);
    ExecStep(s, sched + [p] + [p], p);
    assert sched + [p, p, p] == sched + [p] + [p] + [p];
  }

  /** Thread 0 in the critical section, thread 1 idle. */
  function Alone(pc: Pc, spin: bool): (s: State) {
    State([Thread(pc, None, false), Thread(Idle, None, false)], Some(0), spin, [0], [0], [0])
  }

  lemma AcquireAlone()
    ensures var s := Init(2); Step(Step(Step(s, 0), 0), 0) == Alone(Critical, false)
  {
    var s := Init(2);
    assert s.threads == [Thread(Idle, None, false), Thread(Idle, None, false)];
    var s1 := Step(s, 0);
    assert s1.threads == [Thread(Line94, None, false), Thread(Idle, None, false)];
    var s2 := Step(s1, 0);
    assert s2.threads == [Thread(Line97, None, false), Thread(Idle, None, false)];
  }

  lemma ReleaseAlone()
    ensures var s := Alone(Critical, false); Step(Step(Step(s, 0), 0), 0) == Alone(Line114(Some(0)), true)
  {
    var s := Alone(Critical, false);
    assert Step(s, 0) == Alone(Line112, false);
    assert Step(Alone(Line112, false), 0) == Alone(Line113, true);
    assert Step(Alone(Line113, true), 0) == Alone(Line114(Some(0)), true);
  }

  lemma IntrudeAlone()
    ensures var s := Alone(Line114(Some(0)), true); Racing(Step(Step(Step(s, 1), 1), 1), 0)
  {
    var s := Alone(Line114(Some(0)), true);
    var s1 := Step(s, 1);
    assert s1.threads == [s.threads[0], Thread(Line94, None, false)] && s1.tail == Some(0);
    var s2 := Step(s1, 1);
    assert s2.threads == [s.threads[0], Thread(Line97, None, false)] && s2.tail == Some(0);
  }

  /** Thread 0 has cleared lk->next although thread 1 is queued behind it. */
  function Cleared(): (s: State) {
    State([Thread(Line115(Some(0)), None, false), Thread(Line100(0), None, false)], None, true, [0, 1], [0], [1])
  }

  lemma ClearAlone()
    ensures var s := Alone(Line114(Some(0)), true); Step(Step(Step(Step(s, 1), 1), 1), 0) == Cleared()
  {
    var s := Alone(Line114(Some(0)), true);
    var s1 := Step(s, 1);
    assert s1.threads == [s.threads[0], Thread(Line94, None, false)] && s1.tail == Some(0);
    var s2 := Step(s1, 1);
    assert s2.threads == [s.threads[0], Thread(Line97, None, false)] && s2.tail == Some(0);
    var s3 := Step(s2, 1);
    assert s3.threads == [s.threads[0], Thread(Line100(0), None, false)] && s3.queue == [0, 1] && s3.arrivals == [0, 1];
    var s4 := Step(s3, 0);
    assert s4.threads == Cleared().threads && s4.queue == [1];
  }

  /** Thread 0 acquires and starts to release up to line 113, thread 1 exchanges, thread 0
    clears: thread 1 waits for a lock nobody holds, and for as long as thread 0 does not
    acquire the lock again it is not served. */
  lemma DroppedWaiter(more: seq<nat>)
    requires StaysOut(Cleared(), 0, more)
    ensures HasRace(2, [0, 0, 0, 0, 0, 0, 1, 1, 1, 0])
    ensures Exec(Init(2), [0, 0, 0, 0, 0, 0, 1, 1, 1, 0]) == Cleared() && Orphaned(Cleared())
    ensures Lost(Exec(Cleared(), more), 0, 1)
  {
    hide Step, Racing, Exec, Lost;
    RunToClear();
    assert Orphaned(Cleared()) by {
      assert Waiting(Cleared(), 1);
    }
    assert Lost(Cleared(), 0, 1) by { LostCleared(); }
    LostForGood(Cleared(), 0, 1, more);
  }

  lemma LostCleared()
    ensures Lost(Cleared(), 0, 1)
  {
  }

  lemma RunToClear()
    ensures HasRace(2, [0, 0, 0, 0, 0, 0, 1, 1, 1, 0])
    ensures Exec(Init(2), [0, 0, 0, 0, 0, 0, 1, 1, 1, 0]) == Cleared()
  {
    hide Step, Racing;
    var s := Init(2);
    var sched: seq<nat> := [0, 0, 0, 0, 0, 0, 1, 1, 1, 0];
    assert Exec(s, []) == s;
    hide Exec;
    ExecThrice(s, [], 0);
    AcquireAlone();
    assert [] + [0, 0, 0] == [0, 0, 0];
    ExecThrice(s, [0, 0, 0], 0);
    ReleaseAlone();
    assert [0, 0, 0] + [0, 0, 0] == [0, 0, 0, 0, 0, 0];
    ExecThrice(s, [0, 0, 0, 0, 0, 0], 1);
    IntrudeAlone();
    assert sched[..9] == [0, 0, 0, 0, 0, 0] + [1, 1, 1];
    assert Racing(Exec(s, sched[..9]), sched[9]);
    ClearAlone();
    ExecStep(s, sched[..9], 0);
    assert sched[..9] + [0] == sched;
  }

  /** If thread 0 does acquire again, its reused node can still lead it to the dropped waiter. */
  lemma ServedAfterAll()
    ensures Exec(Cleared(), [0, 0, 1, 0, 0, 0, 0, 0, 1]).threads[1].pc == Critical
  {
    var s := Cleared();
    var s1 := Step(s, 0);
    assert s1.threads == [Thread(Idle, None, false), Thread(Line100(0), None, false)] && s1.tail == None;
    var s2 := Step(s1, 0);
    assert s2.threads == [Thread(Line94, None, false), Thread(Line100(0), None, false)] && s2.tail == None;
    var s3 := Step(s2, 1);
    assert s3.threads == [Thread(Line94, Some(1), false), Thread(Line102(0), None, false)] && s3.tail == None;
    var s4 := Step(s3, 0);
    assert s4.threads == [Thread(Line97, Some(1), false), Thread(Line102(0), None, false)] && s4.tail == None;
    var s5 := Step(s4, 0);
    assert s5.threads == [Thread(Critical, Some(1), false), Thread(Line102(0), None, false)];
    var s6 := Step(s5, 0);
    assert s6.threads == [Thread(Line126, Some(1), false), Thread(Line102(0), None, false)];
    var s7 := Step(s6, 0);
    assert s7.threads == [Thread(Line126Store(1), Some(1), false), Thread(Line102(0), None, false)];
    var s8 := Step(s7, 0);
    assert s8.threads == [Thread(Idle, Some(1), false), Thread(Line102(0), None, true)];
    assert Step(s8, 1).threads[1].pc == Critical;
    RunSix(s);
    RunNine(s, s6);
  }

  lemma ExecNothing(s: State)
    ensures Exec(s, []) == s
  {
  }

  lemma RunThree(s: State)
    requires |s.threads| == 2
    ensures Exec(s, [0, 0, 1]) == Step(Step(Step(s, 0), 0), 1)
  {
    hide Step, Exec;
    ExecNothing(s);
    ExecStep(s, [], 0);
    assert [] + [0] == [0];
    ExecStep(s, [0], 0);
    assert [0] + [0] == [0, 0];
    ExecStep(s, [0, 0], 1);
    assert [0, 0] + [1] == [0, 0, 1];
  }

  lemma RunSix(s: State)
    requires |s.threads| == 2
    ensures Exec(s, [0, 0, 1, 0, 0, 0]) == Step(Step(Step(Step(Step(Step(s, 0), 0), 1), 0), 0), 0)
  {
    hide Step, Exec;
    RunThree(s);
    ExecThrice(s, [0, 0, 1], 0);
    assert [0, 0, 1] + [0, 0, 0] == [0, 0, 1, 0, 0, 0];
  }

  lemma RunNine(s: State, t: State)
    requires |s.threads| == |t.threads| == 2 && Exec(s, [0, 0, 1, 0, 0, 0]) == t
    ensures Exec(s, [0, 0, 1, 0, 0, 0, 0, 0, 1]) == Step(Step(Step(t, 0), 0), 1)
  {
    hide Step, Exec;
    ExecStep(s, [0, 0, 1, 0, 0, 0], 0);
    assert [0, 0, 1, 0, 0, 0] + [0] == [0, 0, 1, 0, 0, 0, 0];
    ExecStep(s, [0, 0, 1, 0, 0, 0, 0], 0);
    assert [0, 0, 1, 0, 0, 0, 0] + [0] == [0, 0, 1, 0, 0, 0, 0, 0];
    ExecStep(s, [0, 0, 1, 0, 0, 0, 0, 0], 1);
    assert [0, 0, 1, 0, 0, 0, 0, 0] + [1] == [0, 0, 1, 0, 0, 0, 0, 0, 1];
  }
}
