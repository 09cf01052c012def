/** The array lock of libthread.c, one step per access to shared memory.

  With at most lk->size threads it refines a ticket lock with unbounded counters, so
  it gives mutual exclusion in first-come order; with more threads two of them can
  be inside at once. */
module ArrayLock {
  import opened Remainder

  /** The line a thread is about to execute, with its locals. */
  datatype Pc =
    | Idle                            // line 144: spin lock m
    | Line145                         // pos = lk->next
    | Line146(pos: nat)               // lk->next = pos + 1
    | Line147(pos: nat)               // lk->next == lk->size ?
    | Line147Wrap(pos: nat)           // lk->next = 0
    | Line148(pos: nat)               // drop m
    | Line150(pos: nat)               // wait for lk->lock[pos]
    | Line151(pos: nat)               // lk->lockpos = pos
    | Critical                        // in the critical section, then line 155
    | Line158(nextpos: nat)           // read lk->lockpos
    | Line158Store(nextpos: nat, own: nat) // lk->lock[own] = 0
    | Line159(nextpos: nat)           // lk->lock[nextpos] = 1

  datatype State = State(
    /** lk->lock, lk->next, lk->m and lk->lockpos; lk->size is |slots|. */
    slots: seq<nat>,
    next: nat,
    m: bool,
    lockpos: nat,
    threads: seq<Pc>,
    /** History: tickets handed out so far, the one being served, and the threads
      holding the tickets from `serving` on, in order. */
    issued: nat,
    serving: nat,
    order: seq<nat>,
    tickets: map<nat, nat>)

  /** arraylock_init. */
  function Init(size: nat, n: nat): (s: State)
    requires size > 0
  {
    State(seq(size, i => if i == 0 then 1 else 0), 0, false, 0, seq(n, _ => Idle), 0, 0, [], map[])
  }

  function Goto(s: State, p: nat, pc: Pc): (t: State)
    requires p < |s.threads|
    ensures |t.threads| == |s.threads|
  {
    s.(threads := s.threads[p := pc])
  }

  function Store(s: State, i: nat, v: nat): (t: State) {
    if i < |s.slots| then s.(slots := s.slots[i := v]) else s
  }

  /** Thread p's next step; a thread waiting in vain stays where it is. */
  function Step(s: State, p: nat): (t: State)
    requires p < |s.threads|
    ensures |t.threads| == |s.threads| && |t.slots| == |s.slots|
  {
    match s.threads[p]
    case Idle => if s.m then s else Goto(s.(m := true), p, Line145)
    case Line145 =>
      Goto(s.(issued := s.issued + 1, order := s.order + [p], tickets := s.tickets[p := s.issued]), p, Line146(s.next))
    case Line146(pos) => Goto(s.(next := pos + 1), p, Line147(pos))
    case Line147(pos) => Goto(s, p, if s.next == |s.slots| then Line147Wrap(pos) else Line148(pos))
    case Line147Wrap(pos) => Goto(s.(next := 0), p, Line148(pos))
    case Line148(pos) => Goto(s.(m := false), p, Line150(pos))
    case Line150(pos) => if pos < |s.slots| && s.slots[pos] != 0 then Goto(s, p, Line151(pos)) else s
    case Line151(pos) => Goto(s.(lockpos := pos), p, Critical)
    case Critical => Goto(s, p, Line158(if s.lockpos + 1 == |s.slots| then 0 else s.lockpos + 1))
    case Line158(np) => Goto(s, p, Line158Store(np, s.lockpos))
    case Line158Store(np, own) => Goto(Store(s, own, 0), p, Line159(np))
    case Line159(np) =>
      Goto(Store(s, np, 1), p, Idle).(
        serving := s.serving + 1,
        tickets := s.tickets - {p},
        order := if s.order == [] then [] else s.order[1..])
  }

  function Exec(s: State, sched: seq<nat>): (t: State)
    ensures |t.threads| == |s.threads| && |t.slots| == |s.slots|
  {
    if sched == [] then s else
      var m := Exec(s, sched[..|sched| - 1]);
      var p := sched[|sched| - 1];
      if p < |m.threads| then Step(m, p) else m
  }

  // ---------------------------------------------------------------------------
  // The invariant

  /** Between the store of line 144 and the one of line 148. */
  predicate HoldsM(pc: Pc) {
    pc == Line145 || pc.Line146? || pc.Line147? || pc.Line147Wrap? || pc.Line148?
  }

  /** Holds a ticket. */
  predicate Ticketed(pc: Pc) {
    pc != Idle && pc != Line145
  }

  /** Past the wait in line 150. */
  predicate Inside(pc: Pc) {
    pc.Line151? || pc == Critical || pc.Line158? || pc.Line158Store? || pc.Line159?
  }

  /** The locals of the thread with ticket `tick`. */
  predicate Locals(size: nat, lockpos: nat, pc: Pc, tick: nat)
    requires size > 0
  {
    var pos := tick % size;
    match pc
    case Line146(p) => p == pos
    case Line147(p) => p == pos
    case Line147Wrap(p) => p == pos
    case Line148(p) => p == pos
    case Line150(p) => p == pos
    case Line151(p) => p == pos
    case Critical => lockpos == pos
    case Line158(np) => lockpos == pos && np == (tick + 1) % size
    case Line158Store(np, own) => own == pos && np == (tick + 1) % size
    case Line159(np) => np == (tick + 1) % size
    case _ => false
  }

  /** The i-th thread in ticket order: only the first may be past the wait. */
  predicate Place(s: State, i: int)
    requires |s.slots| > 0
  {
    && 0 <= i < |s.order| && s.order[i] < |s.threads|
    && s.order[i] in s.tickets && s.tickets[s.order[i]] == s.serving + i
    && Locals(|s.slots|, s.lockpos, s.threads[s.order[i]], s.serving + i)
    && (i > 0 ==> !Inside(s.threads[s.order[i]]))
  }

  /** lk->next as the holder of m leaves it on the way. */
  predicate NextOk(s: State, pc: Pc)
    requires |s.slots| > 0
  {
    match pc
    case Line146(pos) => s.next == pos && s.issued > 0
    case Line147(pos) => s.next == pos + 1 && s.issued > 0
    case Line147Wrap(pos) => s.next == pos + 1 == |s.slots| && s.issued > 0
    case _ => s.next == s.issued % |s.slots|
  }

  /** Thread p is between lines 144 and 148; having a ticket, it has the last one. */
  predicate Taking(s: State, p: int) {
    0 <= p < |s.threads| && HoldsM(s.threads[p])
  }

  predicate TakingOk(s: State, p: int)
    requires |s.slots| > 0
  {
    && Taking(s, p) && s.m && NextOk(s, s.threads[p])
    && (Ticketed(s.threads[p]) ==> s.order != [] && s.order[|s.order| - 1] == p)
  }

  ghost predicate Spin(s: State)
    requires |s.slots| > 0
  {
    && (forall p :: Taking(s, p) ==> TakingOk(s, p))
    && (forall p, q :: Taking(s, p) && Taking(s, q) ==> p == q)
    && (!s.m ==> s.next == s.issued % |s.slots|)
  }

  predicate InOrder(s: State, p: int) {
    0 <= p < |s.threads| && Ticketed(s.threads[p])
  }

  ghost predicate Order(s: State)
    requires |s.slots| > 0
  {
    && s.issued == s.serving + |s.order|
    && (forall p :: InOrder(s, p) <==> p in s.order)
    && (forall p :: p in s.tickets ==> p in s.order)
    && (forall i, j :: 0 <= i < j < |s.order| ==> s.order[i] != s.order[j])
    && (forall i :: 0 <= i < |s.order| ==> Place(s, i))
  }

  /** Exactly the slot being served is set, and none while it is handed on. */
  ghost predicate Slots(s: State)
    requires |s.slots| > 0
  {
    forall j :: 0 <= j < |s.slots| ==>
      s.slots[j] == if j == s.serving % |s.slots|
                       && !(s.order != [] && s.order[0] < |s.threads| && s.threads[s.order[0]].Line159?)
                    then 1 else 0
  }

  ghost predicate Inv(s: State) {
    && 0 < |s.slots| && |s.threads| <= |s.slots|
    && Spin(s) && Order(s) && Slots(s)
  }

  lemma InvInit(size: nat, n: nat)
    requires 0 < size && n <= size
    ensures Inv(Init(size, n))
  {
    var s := Init(size, n);
    assert forall p :: !InOrder(s, p) && !Taking(s, p);
    assert 0 % size == 0;
  }

  // Steps that change only one thread's counter and a lock word.

  lemma InvEnter(s: State, p: nat)
    requires Inv(s) && p < |s.threads| && s.threads[p] == Idle && !s.m
    ensures Inv(Step(s, p))
  {
    var t := Step(s, p);
    assert t == s.(m := true, threads := s.threads[p := Line145]);
    hide Step;
    assert forall q :: InOrder(t, q) <==> InOrder(s, q);
    assert forall q :: Taking(t, q) ==> q == p || Taking(s, q);
    SamePlaces(s, t, p);
  }

  /** Places survive a step of a thread without a ticket. */
  lemma SamePlaces(s: State, t: State, p: nat)
    requires |s.slots| > 0 && Order(s) && p < |s.threads| && !InOrder(s, p)
    requires t.slots == s.slots && t.order == s.order && t.serving == s.serving && t.lockpos == s.lockpos
    requires t.tickets == s.tickets && |t.threads| == |s.threads|
    requires forall q :: 0 <= q < |s.threads| && q != p ==> t.threads[q] == s.threads[q]
    ensures forall i :: 0 <= i < |t.order| ==> Place(t, i)
  {
    forall i | 0 <= i < |t.order|
      ensures Place(t, i)
    {
      assert Place(s, i) && s.order[i] in s.order;
    }
  }

  lemma InvTake(s: State, p: nat)
    requires Inv(s) && p < |s.threads| && s.threads[p] == Line145
    ensures Inv(Step(s, p))
  {
    var t := Step(s, p);
    assert Taking(s, p) && TakingOk(s, p) && !InOrder(s, p) && p !in s.order;
    assert t == s.(issued := s.issued + 1, order := s.order + [p], tickets := s.tickets[p := s.issued],
                   threads := s.threads[p := Line146(s.next)]);
    hide Step;
    assert forall q :: InOrder(t, q) <==> q == p || InOrder(s, q);
    assert forall q :: Taking(t, q) <==> Taking(s, q);
    forall i | 0 <= i < |t.order|
      ensures Place(t, i)
    {
      if i < |s.order| {
        assert Place(s, i) && s.order[i] in s.order;
      }
    }
    if s.order != [] {
      assert Place(s, 0) && s.order[0] in s.order;
    }
  }

  /** Lines 146 to 148: the counter is advanced under m. */
  lemma AdvanceStep(s: State, p: nat)
    requires p < |s.threads| && HoldsM(s.threads[p]) && s.threads[p] != Line145
    ensures var t := Step(s, p); var pc := s.threads[p]; var pos := pc.pos;
      && t == s.(threads := s.threads[p := t.threads[p]], next := t.next, m := t.m)
      && (pc.Line146? ==> t.threads[p] == Line147(pos) && t.next == pos + 1 && t.m == s.m)
      && (pc.Line147? ==> t.next == s.next && t.m == s.m)
      && (pc.Line147? ==> t.threads[p] == if s.next == |s.slots| then Line147Wrap(pos) else Line148(pos))
      && (pc.Line147Wrap? ==> t.threads[p] == Line148(pos) && t.next == 0 && t.m == s.m)
      && (pc.Line148? ==> t.threads[p] == Line150(pos) && t.next == s.next && !t.m)
  {
  }

  lemma InvAdvance(s: State, p: nat)
    requires Inv(s) && p < |s.threads| && HoldsM(s.threads[p]) && s.threads[p] != Line145
    ensures Inv(Step(s, p))
  {
    hide Step;
    AdvanceStep(s, p);
    var t := Step(s, p);
    var n := |s.order| - 1;
    assert Taking(s, p) && TakingOk(s, p) && Place(s, n);
    ModNext(s.issued - 1, |s.slots|);
    assert Taking(t, p) ==> TakingOk(t, p);
    assert !t.m ==> t.next == t.issued % |t.slots| && !Taking(t, p);
    assert Place(t, n);
    assert forall q :: Taking(t, q) ==> Taking(s, q);
    assert forall q :: InOrder(t, q) <==> InOrder(s, q);
    hide NextOk, Locals;
    forall i | 0 <= i < |t.order|
      ensures Place(t, i)
    {
      assert Place(s, i);
    }
    AdvanceSlots(s, t, p);
  }

  lemma AdvanceSlots(s: State, t: State, p: nat)
    requires |s.slots| > 0 && Slots(s) && p < |s.threads| == |t.threads|
    requires !s.threads[p].Line159? && !t.threads[p].Line159?
    requires t.slots == s.slots && t.order == s.order && t.serving == s.serving
    requires t.threads == s.threads[p := t.threads[p]]
    ensures Slots(t)
  {
  }

  /** A thread with a ticket stays at its place. */
  lemma InvOwner(s: State, t: State, p: nat)
    requires Inv(s) && s.order != [] && s.order[0] == p && p < |s.threads|
    requires !HoldsM(s.threads[p]) && Ticketed(s.threads[p]) && |t.threads| == |s.threads|
    requires !HoldsM(t.threads[p]) && Ticketed(t.threads[p])
    requires t == s.(threads := s.threads[p := t.threads[p]], lockpos := t.lockpos, slots := t.slots)
    requires |t.slots| == |s.slots| && Place(t, 0) && Slots(t)
    ensures Inv(t)
  {
    assert forall q :: InOrder(t, q) <==> InOrder(s, q);
    assert forall q :: Taking(t, q) <==> Taking(s, q);
    assert forall q :: Taking(s, q) ==> TakingOk(s, q);
    forall i | 0 <= i < |t.order|
      ensures Place(t, i)
    {
      assert Place(s, i);
    }
  }

  /** A thread passes line 150 exactly when its ticket is the one being served. */
  lemma ServedPasses(s: State, i: nat)
    requires Inv(s) && i < |s.order| && s.order[i] < |s.threads| && s.threads[s.order[i]].Line150?
    ensures s.threads[s.order[i]].pos < |s.slots|
    ensures s.slots[s.threads[s.order[i]].pos] != 0 <==> i == 0
  {
    assert Place(s, i) && Place(s, 0);
    AtMostThreads(s);
    if (s.serving + i) % |s.slots| == s.serving % |s.slots| {
      ModDistinct(s.serving, s.serving + i, |s.slots|);
    }
  }

  /** No more tickets are out than there are threads. */
  lemma AtMostThreads(s: State)
    requires Inv(s)
    ensures |s.order| <= |s.threads|
  {
    forall i | 0 <= i < |s.order|
      ensures s.order[i] < |s.threads|
    {
      assert Place(s, i);
    }
    Pigeons(s.order, |s.threads|);
  }

  lemma {:induction false} Pigeons(xs: seq<nat>, n: nat)
    requires forall i :: 0 <= i < |xs| ==> xs[i] < n
    requires forall i, j :: 0 <= i < j < |xs| ==> xs[i] != xs[j]
    ensures |xs| <= n
  {
    if xs != [] {
      assert xs[0] < n;
      if j :| 0 <= j < |xs| && xs[j] == n - 1 {
        Pigeons(xs[..j] + xs[j + 1..], n - 1);
      } else {
        Pigeons(xs, n - 1);
      }
    }
  }

  lemma FindPlace(s: State, p: nat) returns (i: nat)
    requires Inv(s) && InOrder(s, p)
    ensures i < |s.order| && s.order[i] == p && Place(s, i)
    ensures Inside(s.threads[p]) ==> i == 0
  {
    assert p in s.order;
    i :| 0 <= i < |s.order| && s.order[i] == p;
    assert Place(s, i);
  }

  /** Lines 150 to 158 up to the store: the owner reads its way through. */
  lemma InvInside(s: State, p: nat)
    requires Inv(s) && p < |s.threads| && Step(s, p) != s
    requires s.threads[p].Line150? || s.threads[p].Line151? || s.threads[p] == Critical || s.threads[p].Line158?
    ensures Inv(Step(s, p))
  {
    var t := Step(s, p);
    assert InOrder(s, p);
    var i := FindPlace(s, p);
    if s.threads[p].Line150? {
      ServedPasses(s, i);
    }
    ModNext(s.serving, |s.slots|);
    assert t == s.(threads := s.threads[p := t.threads[p]], lockpos := t.lockpos);
    assert Place(t, 0);
    assert Slots(t) && !HoldsM(t.threads[p]) && Ticketed(t.threads[p]);
    hide Step, Inv;
    InvOwner(s, t, p);
  }

  lemma InvClear(s: State, p: nat)
    requires Inv(s) && p < |s.threads| && s.threads[p].Line158Store?
    ensures Inv(Step(s, p))
  {
    var t := Step(s, p);
    assert InOrder(s, p);
    var i := FindPlace(s, p);
    assert t == s.(threads := s.threads[p := t.threads[p]], slots := s.slots[s.serving % |s.slots| := 0]);
    assert Place(t, 0) && t.threads[p].Line159?;
    assert Slots(t);
    hide Step;
    InvOwner(s, t, p);
  }

  lemma InvPass(s: State, p: nat)
    requires Inv(s) && p < |s.threads| && s.threads[p].Line159?
    ensures Inv(Step(s, p))
  {
    var t := Step(s, p);
    assert InOrder(s, p);
    var i := FindPlace(s, p);
    var np := (s.serving + 1) % |s.slots|;
    assert t == s.(threads := s.threads[p := Idle], slots := s.slots[np := 1],
                   serving := s.serving + 1, order := s.order[1..], tickets := s.tickets - {p});
    hide Step;
    assert s.order == [p] + t.order;
    assert t.order != [] ==> Place(s, 1) && t.order[0] == s.order[1];
    assert Slots(t);
    PassSpin(s, t, p);
    PassOrder(s, t, p);
  }

  lemma PassSpin(s: State, t: State, p: nat)
    requires |s.slots| > 0 && Spin(s) && p < |s.threads| && !HoldsM(s.threads[p])
    requires s.order == [p] + t.order
    requires t == s.(threads := s.threads[p := Idle], slots := t.slots, serving := t.serving, order := t.order,
                        tickets := t.tickets)
    requires |t.slots| == |s.slots|
    ensures Spin(t)
  {
    assert forall q :: Taking(t, q) <==> Taking(s, q);
    forall q | Taking(t, q)
      ensures TakingOk(t, q)
    {
      assert TakingOk(s, q);
    }
  }

  lemma TailMembers(order: seq<nat>)
    requires order != [] && forall i, j :: 0 <= i < j < |order| ==> order[i] != order[j]
    ensures order[0] !in order[1..]
    ensures forall i, j :: 0 <= i < j < |order[1..]| ==> order[1..][i] != order[1..][j]
    ensures forall q :: q in order <==> q == order[0] || q in order[1..]
  {
    assert order == [order[0]] + order[1..];
  }

  lemma PassOrder(s: State, t: State, p: nat)
    requires |s.slots| > 0 && Order(s) && p < |s.threads| && Ticketed(s.threads[p])
    requires s.order != [] && s.order[0] == p && t.order == s.order[1..] && t.serving == s.serving + 1
    requires t == s.(threads := s.threads[p := Idle], slots := t.slots, serving := t.serving, order := t.order,
                     tickets := s.tickets - {p})
    requires |t.slots| == |s.slots|
    ensures Order(t)
  {
    TailMembers(s.order);
    assert forall q :: InOrder(t, q) <==> InOrder(s, q) && q != p;
    PassPlaces(s, t, p);
    hide Place;
  }

  lemma PassPlaces(s: State, t: State, p: nat)
    requires |s.slots| == |t.slots| > 0 && forall i :: 0 <= i < |s.order| ==> Place(s, i)
    requires s.order != [] && t.order == s.order[1..] && t.serving == s.serving + 1
    requires p < |s.threads| && p !in t.order && t.lockpos == s.lockpos
    requires t.threads == s.threads[p := Idle] && t.tickets == s.tickets - {p}
    ensures forall j :: 0 <= j < |t.order| ==> Place(t, j)
  {
    hide Locals, Inside;
    forall j | 0 <= j < |t.order|
      ensures Place(t, j)
    {
      assert Place(s, j + 1) && t.order[j] == s.order[j + 1] && t.order[j] in t.order;
    }
  }

  lemma InvKept(s: State, p: nat)
    requires Inv(s) && p < |s.threads|
    ensures Inv(Step(s, p))
  {
    hide Inv;
    if Step(s, p) != s {
      match s.threads[p] {
        case Idle => InvEnter(s, p);
        case Line145 => InvTake(s, p);
        case Line146(_) => InvAdvance(s, p);
        case Line147(_) => InvAdvance(s, p);
        case Line147Wrap(_) => InvAdvance(s, p);
        case Line148(_) => InvAdvance(s, p);
        case Line150(_) => InvInside(s, p);
        case Line151(_) => InvInside(s, p);
        case Critical => InvInside(s, p);
        case Line158(_) => InvInside(s, p);
        case Line158Store(_, _) => InvClear(s, p);
        case Line159(_) => InvPass(s, p);
      }
    }
  }

  lemma {:induction false} InvAlways(size: nat, n: nat, sched: seq<nat>)
    requires 0 < size && n <= size
    ensures Inv(Exec(Init(size, n), sched))
  {
    hide Inv, Step;
    if sched == [] {
      InvInit(size, n);
    } else {
      var k := |sched| - 1;
      InvAlways(size, n, sched[..k]);
      var m := Exec(Init(size, n), sched[..k]);
      if sched[k] < |m.threads| {
        InvKept(m, sched[k]);
      }
    }
  }

  /** With at most `size` threads, in every interleaving: one thread at most is past
    the wait and it is the one with the oldest ticket; at most one slot is set; when
    release reads lk->lockpos it finds the owner's own slot; and the tickets that are
    out lie less than `size` apart, so no two of them share a slot. */
  lemma MutualExclusion(size: nat, n: nat, sched: seq<nat>, p: nat, q: nat)
    requires 0 < size && n <= size && p < n && q < n
    ensures var s := Exec(Init(size, n), sched);
      && (Inside(s.threads[p]) && Inside(s.threads[q]) ==> p == q)
      && (Inside(s.threads[p]) ==> s.order != [] && s.order[0] == p)
      && (s.threads[p] == Critical || s.threads[p].Line158? ==> s.lockpos == s.serving % size)
      && (forall i, j :: 0 <= i < size && 0 <= j < size && s.slots[i] != 0 && s.slots[j] != 0 ==> i == j)
      && (p != q && p in s.tickets && q in s.tickets ==> s.tickets[p] % size != s.tickets[q] % size)
  {
    hide Step, Exec;
    InvAlways(size, n, sched);
    var s := Exec(Init(size, n), sched);
    if p != q && p in s.tickets && q in s.tickets {
      SlotsDiffer(s, p, q);
    }
    if Inside(s.threads[p]) {
      assert InOrder(s, p);
      var i := FindPlace(s, p);
    }
    if Inside(s.threads[q]) {
      assert InOrder(s, q);
      var j := FindPlace(s, q);
    }
  }

  /** Tickets that are out never share a slot. */
  lemma SlotsDiffer(s: State, p: nat, q: nat)
    requires Inv(s) && p < |s.threads| && q < |s.threads| && p != q && p in s.tickets && q in s.tickets
    ensures s.tickets[p] % |s.slots| != s.tickets[q] % |s.slots|
  {
    AtMostThreads(s);
    assert InOrder(s, p) && InOrder(s, q);
    var i := FindPlace(s, p);
    var j := FindPlace(s, q);
    if s.tickets[p] % |s.slots| == s.tickets[q] % |s.slots| {
      ModDistinct(s.serving + (if i < j then i else j), s.serving + (if i < j then j else i), |s.slots|);
    }
  }

  // ---------------------------------------------------------------------------
  // First come, first served

  /** The threads in the order in which they took tickets, and in which they passed the wait. */
  function Arrivals(s: State, sched: seq<nat>): (r: seq<nat>) {
    if sched == [] then [] else
      var m := Exec(s, sched[..|sched| - 1]);
      var p := sched[|sched| - 1];
      Arrivals(s, sched[..|sched| - 1]) + if p < |m.threads| && m.threads[p] == Line145 then [p] else []
  }

  function Grants(s: State, sched: seq<nat>): (r: seq<nat>) {
    if sched == [] then [] else
      var m := Exec(s, sched[..|sched| - 1]);
      var p := sched[|sched| - 1];
      Grants(s, sched[..|sched| - 1]) + if p < |m.threads| && m.threads[p].Line150? && Step(m, p) != m then [p] else []
  }

  predicate Served(s: State) {
    s.order != [] && s.order[0] < |s.threads| && Inside(s.threads[s.order[0]])
  }

  /** Tickets are numbers in the list of arrivals, of which a prefix has been served. */
  ghost predicate Listed(s: State, arrivals: seq<nat>, grants: seq<nat>) {
    && |arrivals| == s.issued && |grants| == s.serving + (if Served(s) then 1 else 0) <= |arrivals|
    && (forall p :: p in s.tickets ==> s.tickets[p] < |arrivals| && arrivals[s.tickets[p]] == p)
    && grants == arrivals[..|grants|]
  }

  lemma ListedTake(s: State, p: nat, arrivals: seq<nat>, grants: seq<nat>)
    requires Inv(s) && Listed(s, arrivals, grants) && p < |s.threads| && s.threads[p] == Line145
    ensures Listed(Step(s, p), arrivals + [p], grants)
  {
    assert !InOrder(s, p) && p !in s.order;
  }

  lemma ListedEnter(s: State, p: nat, arrivals: seq<nat>, grants: seq<nat>)
    requires Inv(s) && Listed(s, arrivals, grants) && p < |s.threads| && s.threads[p].Line150? && Step(s, p) != s
    ensures Listed(Step(s, p), arrivals, grants + [p])
  {
    var t := Step(s, p);
    assert t == s.(threads := s.threads[p := Line151(s.threads[p].pos)]);
    assert InOrder(s, p);
    var i := FindPlace(s, p);
    ServedPasses(s, i);
    hide Step, Inv;
    assert arrivals[..s.serving + 1] == arrivals[..s.serving] + [p];
  }

  lemma ListedLeave(s: State, p: nat, arrivals: seq<nat>, grants: seq<nat>)
    requires Inv(s) && Listed(s, arrivals, grants) && p < |s.threads| && s.threads[p].Line159?
    ensures Listed(Step(s, p), arrivals, grants)
  {
    var t := Step(s, p);
    assert InOrder(s, p);
    var i := FindPlace(s, p);
    assert t.threads == s.threads[p := Idle] && t.serving == s.serving + 1 && t.issued == s.issued;
    assert t.tickets == s.tickets - {p} && t.order == s.order[1..];
    hide Step;
    if t.order != [] {
      assert Place(s, 1);
    }
  }

  lemma ListedSame(s: State, p: nat, arrivals: seq<nat>, grants: seq<nat>)
    requires Listed(s, arrivals, grants) && p < |s.threads| && s.threads[p] != Line145 && !s.threads[p].Line159?
    requires s.threads[p].Line150? ==> Step(s, p) == s
    ensures Listed(Step(s, p), arrivals, grants)
  {
    var t := Step(s, p);
    assert t.threads == s.threads[p := t.threads[p]];
    assert Inside(t.threads[p]) == Inside(s.threads[p]);
  }

  lemma {:induction false} ListedAlways(size: nat, n: nat, sched: seq<nat>)
    requires 0 < size && n <= size
    ensures Listed(Exec(Init(size, n), sched), Arrivals(Init(size, n), sched), Grants(Init(size, n), sched))
  {
    hide Step, Listed, Inv;
    if sched == [] {
      ListedInit(size, n);
    } else {
      var s, k := Init(size, n), |sched| - 1;
      ListedAlways(size, n, sched[..k]);
      InvAlways(size, n, sched[..k]);
      var m, p := Exec(s, sched[..k]), sched[k];
      var a, g := Arrivals(s, sched[..k]), Grants(s, sched[..k]);
      if p < |m.threads| {
        if m.threads[p] == Line145 {
          ListedTake(m, p, a, g);
        } else if m.threads[p].Line150? && Step(m, p) != m {
          ListedEnter(m, p, a, g);
        } else if m.threads[p].Line159? {
          ListedLeave(m, p, a, g);
        } else {
          ListedSame(m, p, a, g);
        }
      }
      assert a + [] == a && g + [] == g;
    }
  }

  lemma ListedInit(size: nat, n: nat)
    requires 0 < size
    ensures Listed(Init(size, n), [], [])
  {
  }

  /** With at most `size` threads, in every interleaving the threads pass the wait in the order in which they
    took their tickets. */
  lemma FirstComeFirstServed(size: nat, n: nat, sched: seq<nat>)
    requires 0 < size && n <= size
    ensures Grants(Init(size, n), sched) <= Arrivals(Init(size, n), sched)
  {
    hide Exec, Arrivals, Grants;
    ListedAlways(size, n, sched);
  }

  // ---------------------------------------------------------------------------
  // Refinement of a ticket lock with unbounded counters

  /** A ticket lock: tickets are numbers, the holder of number `serving` may enter. */
  datatype Ticket = Ticket(issued: nat, serving: nat, held: map<nat, nat>, inside: set<nat>)

  predicate TakeTicket(a: Ticket, b: Ticket, p: nat) {
    p !in a.held && b == a.(issued := a.issued + 1, held := a.held[p := a.issued])
  }

  predicate EnterTicket(a: Ticket, b: Ticket, p: nat) {
    p in a.held && p !in a.inside && a.held[p] == a.serving && b == a.(inside := a.inside + {p})
  }

  predicate LeaveTicket(a: Ticket, b: Ticket, p: nat) {
    && p in a.held && p in a.inside
    && b == a.(serving := a.serving + 1, held := a.held - {p}, inside := a.inside - {p})
  }

  function Abs(s: State): (a: Ticket) {
    Ticket(s.issued, s.serving, s.tickets, set p | 0 <= p < |s.threads| && Inside(s.threads[p]))
  }

  lemma RefinesTake(s: State, p: nat)
    requires Inv(s) && p < |s.threads| && s.threads[p] == Line145
    ensures TakeTicket(Abs(s), Abs(Step(s, p)), p)
  {
    var t := Step(s, p);
    assert !InOrder(s, p) && p !in s.order;
    assert t == s.(issued := s.issued + 1, order := s.order + [p], tickets := s.tickets[p := s.issued],
                   threads := s.threads[p := Line146(s.next)]);
    hide Step;
    assert Abs(t).inside == Abs(s).inside;
  }

  lemma RefinesEnter(s: State, p: nat)
    requires Inv(s) && p < |s.threads| && s.threads[p].Line150? && Step(s, p) != s
    ensures EnterTicket(Abs(s), Abs(Step(s, p)), p)
  {
    var t := Step(s, p);
    assert t == s.(threads := s.threads[p := Line151(s.threads[p].pos)]);
    assert InOrder(s, p);
    var i := FindPlace(s, p);
    ServedPasses(s, i);
    hide Step;
    assert Abs(t).inside == Abs(s).inside + {p};
  }

  lemma RefinesLeave(s: State, p: nat)
    requires Inv(s) && p < |s.threads| && s.threads[p].Line159?
    ensures LeaveTicket(Abs(s), Abs(Step(s, p)), p)
  {
    var t := Step(s, p);
    assert InOrder(s, p);
    var i := FindPlace(s, p);
    assert t.threads == s.threads[p := Idle] && t.serving == s.serving + 1 && t.issued == s.issued;
    assert t.tickets == s.tickets - {p};
    hide Step;
    assert Abs(t).inside == Abs(s).inside - {p};
  }

  /** Every step of the array lock is a step of the ticket lock or none. */
  lemma RefinesTicketLock(s: State, p: nat)
    requires Inv(s) && p < |s.threads|
    ensures var a, b := Abs(s), Abs(Step(s, p));
      a == b || TakeTicket(a, b, p) || EnterTicket(a, b, p) || LeaveTicket(a, b, p)
  {
    hide Inv, Abs, TakeTicket, EnterTicket, LeaveTicket, Step;
    if s.threads[p] == Line145 {
      RefinesTake(s, p);
    } else if s.threads[p].Line150? && Step(s, p) != s {
      RefinesEnter(s, p);
    } else if s.threads[p].Line159? {
      RefinesLeave(s, p);
    } else {
      SameInside(s, p);
    }
  }

  lemma SameInside(s: State, p: nat)
    requires p < |s.threads| && s.threads[p] != Line145 && !s.threads[p].Line159?
    requires s.threads[p].Line150? ==> Step(s, p) == s
    ensures Abs(Step(s, p)) == Abs(s)
  {
    var t := Step(s, p);
    assert t.threads == s.threads[p := t.threads[p]];
    assert Inside(t.threads[p]) == Inside(s.threads[p]);
  }

  // ---------------------------------------------------------------------------
  // One thread too many

  lemma {:induction false} ExecConcat(s: State, a: seq<nat>, b: seq<nat>)
    ensures Exec(s, a + b) == Exec(Exec(s, a), b)
  {
    hide Step;
    if b == [] {
      assert a + b == a;
    } else {
      ExecConcat(s, a, b[..|b| - 1]);
      assert (a + b)[..|a + b| - 1] == a + b[..|b| - 1];
    }
  }

  /** Threads 0 to k - 1 have taken their tickets and wait at line 150. */
  predicate Lined(s: State, size: nat, n: nat, k: nat)
    requires 0 < size
  {
    && s.slots == Init(size, n).slots && !s.m && s.next == k % size && |s.threads| == n
    && (forall i :: 0 <= i < k && i < n ==> s.threads[i] == Line150(i % size))
    && (forall i :: k <= i < n ==> s.threads[i] == Idle)
  }

  function Turns(p: nat, k: nat): (sched: seq<nat>) {
    seq(k, _ => p)
  }

  lemma TurnsOf(s: State, p: nat, k: nat)
    requires p < |s.threads|
    ensures Exec(s, Turns(p, k + 1)) == Step(Exec(s, Turns(p, k)), p)
  {
    assert Turns(p, k + 1)[..k] == Turns(p, k);
  }

  lemma TakeThree(s: State, k: nat, r: nat)
    requires k < |s.threads| && s.threads[k] == Idle && !s.m && s.next == r
    ensures var t := Step(Step(Step(s, k), k), k);
      t.threads == s.threads[k := Line147(r)] && t.slots == s.slots && t.m && t.next == r + 1
  {
    var s1 := Step(s, k);
    assert s1 == s.(m := true, threads := s.threads[k := Line145]);
    var s2 := Step(s1, k);
    assert s2.threads == s.threads[k := Line146(r)] && s2.slots == s.slots && s2.m;
  }

  lemma TakeRest(s: State, k: nat, r: nat)
    requires k < |s.threads| && s.threads[k] == Line147(r) && s.m && s.next == r + 1
    ensures var t := Step(Step(s, k), k);
      if r + 1 == |s.slots| then
        var u := Step(t, k);
        u.threads == s.threads[k := Line150(r)] && u.slots == s.slots && !u.m && u.next == 0
      else t.threads == s.threads[k := Line150(r)] && t.slots == s.slots && !t.m && t.next == r + 1
  {
  }

  /** Thread k takes its ticket in five or six steps. */
  lemma LineUp(s: State, size: nat, n: nat, k: nat) returns (sched: seq<nat>)
    requires 0 < size && k < n && Lined(s, size, n, k)
    ensures Lined(Exec(s, sched), size, n, k + 1)
  {
    hide Step;
    var r := k % size;
    ModNext(k, size);
    TakeThree(s, k, r);
    ExecThree(s, k);
    var t := Exec(s, Turns(k, 3));
    TakeRest(t, k, r);
    TurnsOf(s, k, 3);
    TurnsOf(s, k, 4);
    TurnsOf(s, k, 5);
    sched := Turns(k, if r + 1 == size then 6 else 5);
    hide Exec;
    assert Exec(s, sched).threads == s.threads[k := Line150(r)];
  }

  lemma ExecThree(s: State, p: nat)
    requires p < |s.threads|
    ensures Exec(s, Turns(p, 3)) == Step(Step(Step(s, p), p), p)
  {
    hide Step;
    TurnsOf(s, p, 0);
    TurnsOf(s, p, 1);
    TurnsOf(s, p, 2);
  }

  lemma {:induction false} AllLineUp(size: nat, n: nat, k: nat) returns (sched: seq<nat>)
    requires 0 < size && k <= n
    ensures Lined(Exec(Init(size, n), sched), size, n, k)
  {
    if k == 0 {
      sched := [];
      assert 0 % size == 0;
    } else {
      var a := AllLineUp(size, n, k - 1);
      hide Step, Exec;
      var b := LineUp(Exec(Init(size, n), a), size, n, k - 1);
      ExecConcat(Init(size, n), a, b);
      sched := a + b;
    }
  }

  /** The bound is exact: with any number of threads above `size` some interleaving
    has thread 0 and thread `size` past the wait at the same time. */
  lemma TooManyThreads(size: nat, n: nat)
    requires 0 < size < n
    ensures exists sched :: var s := Exec(Init(size, n), sched); Inside(s.threads[0]) && Inside(s.threads[size])
  {
    var a := AllLineUp(size, n, n);
    var s := Exec(Init(size, n), a);
    assert 0 % size == 0;
    assert size % size == 0 by { ModOf(1, 0, size); }
    assert s.threads[0] == Line150(0) && s.threads[size] == Line150(0) && s.slots[0] == 1;
    var s1 := Step(s, 0);
    assert s1.threads[0] == Line151(0) && s1.threads[size] == Line150(0) && s1.slots == s.slots;
    var s2 := Step(s1, size);
    assert Inside(s2.threads[0]) && Inside(s2.threads[size]);
    hide Step;
    ExecTwo(s, 0, size);
    ExecConcat(Init(size, n), a, [0, size]);
    assert Exec(Init(size, n), a + [0, size]) == s2;
  }

  lemma ExecTwo(s: State, p: nat, q: nat)
    requires p < |s.threads| && q < |s.threads|
    ensures Exec(s, [p, q]) == Step(Step(s, p), q)
  {
    hide Step;
    assert [p, q][..1] == [p] && [p][..0] == [];
    assert Exec(s, []) == s;
    assert Exec(s, [p]) == Step(s, p);
  }
}
