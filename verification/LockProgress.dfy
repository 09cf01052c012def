/** That the array lock can be had: with at most as many threads as slots, from every state of every run every thread
  can get into the critical section. */
module ArrayProgress {
  import opened ArrayLock

  /** Some schedule leads from s to t. */
  ghost predicate Leads(s: State, t: State) {
    exists sched :: Exec(s, sched) == t
  }

  lemma {:induction false} ExecConcat(s: State, a: seq<nat>, b: seq<nat>)
    ensures Exec(s, a + b) == Exec(Exec(s, a), b)
  {
    hide Step;
    if b == [] {
      assert a + b == a;
    } else {
      ExecConcat(s, a, b[..|b| - 1]);
      assert (a + b)[..|a + b| - 1] == a + b[..|b| - 1];
    }
  }

  lemma LeadsNone(s: State)
    ensures Leads(s, s)
  {
    assert Exec(s, []) == s;
  }

  lemma LeadsOn(s: State, p: nat, t: State)
    requires p < |s.threads| && Leads(Step(s, p), t)
    ensures Leads(s, t)
  {
    hide Step;
    var sched :| Exec(Step(s, p), sched) == t;
    assert [p][..0] == [] && Exec(s, [p]) == Step(s, p);
    ExecConcat(s, [p], sched);
  }

  lemma LeadsTrans(s: State, m: State, t: State)
    requires Leads(s, m) && Leads(m, t)
    ensures Leads(s, t)
  {
    hide Exec;
    var a :| Exec(s, a) == m;
    var b :| Exec(m, b) == t;
    ExecConcat(s, a, b);
  }

  /** The spin lock m is set only by a thread between lines 144 and 148. */
  ghost predicate Full(s: State) {
    Inv(s) && (s.m ==> exists p :: Taking(s, p))
  }

  lemma FullKept(s: State, p: nat)
    requires Full(s) && p < |s.threads|
    ensures Full(Step(s, p))
  {
    var t := Step(s, p);
    InvKept(s, p);
    hide Spin, Order, Slots;
    if t.m {
      if HoldsM(t.threads[p]) {
        assert Taking(t, p);
      } else {
        var q :| Taking(s, q);
        SpinOne(s, p, q);
        assert Taking(t, q);
      }
    }
  }

  lemma SpinOne(s: State, p: nat, q: int)
    requires Inv(s) && p < |s.threads| && Taking(s, q) && Step(s, p).m && !HoldsM(Step(s, p).threads[p])
    ensures q != p
  {
  }

  lemma {:induction false} FullAlways(size: nat, n: nat, sched: seq<nat>)
    requires 0 < size && n <= size
    ensures Full(Exec(Init(size, n), sched))
  {
    hide Inv, Step;
    if sched == [] {
      InvInit(size, n);
    } else {
      var k := |sched| - 1;
      FullAlways(size, n, sched[..k]);
      var m := Exec(Init(size, n), sched[..k]);
      if sched[k] < |m.threads| {
        FullKept(m, sched[k]);
      }
    }
  }

  // ---- Dropping m ----

  function ToDrop(pc: Pc): (r: nat) {
    match pc
    case Line145 => 5 case Line146(_) => 4 case Line147(_) => 3 case Line147Wrap(_) => 2 case Line148(_) => 1
    case _ => 0
  }

  lemma DropStep(s: State, p: nat)
    requires p < |s.threads| && HoldsM(s.threads[p])
    ensures var t := Step(s, p);
      && (forall q :: 0 <= q < |s.threads| && q != p ==> t.threads[q] == s.threads[q])
      && (if s.threads[p].Line148? then !t.m
          else HoldsM(t.threads[p]) && ToDrop(t.threads[p]) < ToDrop(s.threads[p]))
  {
  }

  lemma {:induction false} FreeM(s: State, p: nat) returns (t: State)
    requires Full(s) && p < |s.threads| && HoldsM(s.threads[p])
    ensures Leads(s, t) && Full(t) && !t.m && |t.threads| == |s.threads|
    ensures forall q :: 0 <= q < |s.threads| && q != p ==> t.threads[q] == s.threads[q]
    decreases ToDrop(s.threads[p])
  {
    hide Full, Leads, Step, ToDrop, HoldsM;
    DropStep(s, p);
    FullKept(s, p);
    if s.threads[p].Line148? {
      t := Step(s, p);
      LeadsNone(t);
    } else {
      t := FreeM(Step(s, p), p);
    }
    LeadsOn(s, p, t);
  }

  // ---- Serving the first in line ----

  /** How far a thread with a ticket is from line 160. */
  function ToLeave(pc: Pc): (r: nat) {
    match pc
    case Line146(_) => 11 case Line147(_) => 10 case Line147Wrap(_) => 9 case Line148(_) => 8 case Line150(_) => 7
    case Line151(_) => 6 case Critical => 5 case Line158(_) => 4 case Line158Store(_, _) => 3 case Line159(_) => 2
    case _ => 0
  }

  lemma HeadMoves(s: State)
    requires Full(s) && s.order != []
    ensures s.order[0] < |s.threads|
    ensures var h := s.order[0]; var t := Step(s, h);
      && (forall q :: 0 <= q < |s.threads| && q != h ==> t.threads[q] == s.threads[q])
      && (if s.threads[h].Line159? then t.order == s.order[1..] && t.threads[h] == Idle
          else t.order == s.order && ToLeave(t.threads[h]) + 1 <= ToLeave(s.threads[h])
               && (ToLeave(s.threads[h]) > 5 ==> ToLeave(t.threads[h]) >= 5))
  {
    assert Place(s, 0);
    var h := s.order[0];
    if s.threads[h].Line150? {
      ServedPasses(s, 0);
    }
  }

  /** A thread with a ticket that has not passed through the critical section gets there. */
  lemma {:induction false} Enters(s: State, q: nat, i: nat) returns (t: State)
    requires Full(s) && q < |s.threads| && i < |s.order| && s.order[i] == q && ToLeave(s.threads[q]) >= 5
    ensures Leads(s, t) && Full(t) && q < |t.threads| && t.threads[q] == Critical
    decreases i, ToLeave(s.threads[HeadOf(s)])
  {
    hide Full, Leads, Step;
    if s.threads[q] == Critical {
      t := s;
      LeadsNone(s);
    } else {
      HeadMoves(s);
      var h := s.order[0];
      FullKept(s, h);
      OneTicket(s, i);
      t := Enters(Step(s, h), q, if s.threads[h].Line159? then i - 1 else i);
      LeadsOn(s, h, t);
    }
  }

  /** The thread whose ticket is served. */
  function HeadOf(s: State): (h: nat)
    ensures s.threads != [] ==> h < |s.threads|
  {
    if s.order != [] && s.order[0] < |s.threads| then s.order[0] else 0
  }

  lemma OneTicket(s: State, i: nat)
    requires Full(s) && i < |s.order|
    ensures i > 0 ==> s.order[i] != s.order[0]
  {
  }

  /** A thread past the critical section leaves. */
  lemma {:induction false} Leaves(s: State, q: nat) returns (t: State)
    requires Full(s) && s.order != [] && s.order[0] == q && q < |s.threads| && 2 <= ToLeave(s.threads[q]) < 5
    ensures Leads(s, t) && Full(t) && |t.threads| == |s.threads| && t.threads[q] == Idle
    decreases ToLeave(s.threads[q])
  {
    hide Full, Leads;
    HeadMoves(s);
    FullKept(s, q);
    if s.threads[q].Line159? {
      t := Step(s, q);
      LeadsNone(t);
    } else {
      t := Leaves(Step(s, q), q);
    }
    LeadsOn(s, q, t);
  }

  lemma PlaceIn(s: State, q: nat) returns (i: nat)
    requires Full(s) && q < |s.threads| && Ticketed(s.threads[q])
    ensures i < |s.order| && s.order[i] == q && (i > 0 ==> !Inside(s.threads[q])) && ToLeave(s.threads[q]) >= 2
  {
    assert InOrder(s, q);
    i :| 0 <= i < |s.order| && s.order[i] == q;
    assert Place(s, i);
  }

  /** A thread outside takes a ticket. */
  lemma TakesTicket(s: State, q: nat) returns (t: State)
    requires Full(s) && q < |s.threads| && !Ticketed(s.threads[q])
    ensures Leads(s, t) && Full(t) && |t.threads| == |s.threads| && t.threads[q].Line146?
  {
    hide Full, Leads;
    var m := s;
    LeadsNone(s);
    if s.threads[q] == Idle {
      if s.m {
        var p := Holder(s);
        m := FreeM(s, p);
      }
      FullKept(m, q);
      var u := Step(m, q);
      LeadsNone(u);
      LeadsOn(m, q, u);
      LeadsTrans(s, m, u);
      m := u;
    }
    FullKept(m, q);
    t := Step(m, q);
    LeadsNone(t);
    LeadsOn(m, q, t);
    LeadsTrans(s, m, t);
  }

  lemma Holder(s: State) returns (p: nat)
    requires Full(s) && s.m
    ensures p < |s.threads| && HoldsM(s.threads[p])
  {
    var q :| Taking(s, q);
    p := q;
  }

  /** With at most `size` threads every thread can get into the critical section, from every state of every run. */
  lemma EveryoneCanEnter(size: nat, n: nat, sched: seq<nat>, q: nat)
    requires 0 < size && n <= size && q < n
    ensures exists t :: Leads(Exec(Init(size, n), sched), t) && q < |t.threads| && t.threads[q] == Critical
  {
    hide Full, Leads, Step, Exec;
    FullAlways(size, n, sched);
    var s := Exec(Init(size, n), sched);
    var m := s;
    LeadsNone(s);
    if Ticketed(s.threads[q]) {
      var i := PlaceIn(s, q);
      if ToLeave(s.threads[q]) < 5 {
        m := Leaves(s, q);
      }
    }
    if !Ticketed(m.threads[q]) {
      var u := TakesTicket(m, q);
      LeadsTrans(s, m, u);
      m := u;
    }
    var i := PlaceIn(m, q);
    var t := Enters(m, q, i);
    LeadsTrans(s, m, t);
  }
}

/** That sequence locks make progress: an undisturbed read returns what is in memory, and from every state of every
  run every thread can complete a read and a write. */
module SeqProgress {
  import opened Remainder
  import opened SeqLock

  ghost predicate Leads(s: State, t: State) {
    exists sched :: Exec(s, sched) == t
  }

  lemma LeadsNone(s: State)
    ensures Leads(s, s)
  {
    assert Exec(s, []) == s;
  }

  lemma LeadsOn(s: State, turn: Turn, t: State)
    requires Leads(Step(s, turn), t)
    ensures Leads(s, t)
  {
    hide Step;
    var sched :| Exec(Step(s, turn), sched) == t;
    assert [turn][..0] == [] && Exec(s, [turn]) == Step(s, turn);
    ExecConcat(s, [turn], sched);
  }

  lemma LeadsTrans(s: State, m: State, t: State)
    requires Leads(s, m) && Leads(m, t)
    ensures Leads(s, t)
  {
    hide Exec;
    var a :| Exec(s, a) == m;
    var b :| Exec(m, b) == t;
    ExecConcat(s, a, b);
  }

  /** In every run, from a state with no write under way, three steps of a reader and nobody else return the word in
    memory, whatever the count. */
  lemma UndisturbedRead(n: nat, mem: int, sched: seq<Turn>, p: nat, call: Call)
    requires var s := Exec(Init(n, mem), sched); p < n && s.threads[p] == Line61 && s.seqno % 2 == 0
    ensures var s := Exec(Init(n, mem), sched);
      var turn := Turn(p, call);
      var t := Step(Step(Step(s, turn), turn), turn);
      t == s.(threads := s.threads[p := Returned(s.mem, s.version)])
  {
    hide Exec;
    var s := Exec(Init(n, mem), sched);
    var turn := Turn(p, call);
    var a := Step(s, turn);
    assert a == s.(threads := s.threads[p := Line62(s.seqno, s.version)]);
    var b := Step(a, turn);
    assert b == s.(threads := s.threads[p := Line64(s.seqno, s.version, s.mem)]);
  }

  /** A read that has seen the present count. */
  predicate Fresh(s: State, seqi: nat) { seqi == s.seqno && seqi % 2 == 0 }

  /** How far a thread is from being idle, when no other writes. */
  function ToIdle(s: State, pc: Pc): (r: nat) {
    match pc
    case Idle => 0 case Returned(_, _) => 1
    case Line64(seqi, _, _) => if Fresh(s, seqi) then 2 else 5
    case Line62(seqi, _) => if Fresh(s, seqi) then 3 else 6
    case Line61 => 4
    case Line80 => 1 case Line77Store(_) => 2 case Line77 => 3 case Line75(_) => 4 case Line73Store(_, _) => 5
    case Line73(_) => 6 case Line72(_) => 7
  }

  lemma IdleStep(s: State, p: nat, call: Call)
    requires Inv(s) && p < |s.threads| && (!s.splk || Writes(s, p)) && s.threads[p] != Idle
    ensures var t := Step(s, Turn(p, call));
      && (!t.splk || Writes(t, p)) && ToIdle(t, t.threads[p]) < ToIdle(s, s.threads[p])
  {
    WrapStep(s.version);
    assert Local(s, s.threads[p]);
  }

  lemma {:induction false} Completes(s: State, p: nat) returns (t: State)
    requires Inv(s) && p < |s.threads| && (!s.splk || Writes(s, p))
    ensures Leads(s, t) && Inv(t) && |t.threads| == |s.threads| && !t.splk && t.threads[p] == Idle
    decreases ToIdle(s, s.threads[p])
  {
    hide Inv, Leads, Step, ToIdle;
    if s.threads[p] == Idle {
      t := s;
      LeadsNone(s);
    } else {
      var turn := Turn(p, Read);
      IdleStep(s, p, Read);
      InvKept(s, turn);
      t := Completes(Step(s, turn), p);
      LeadsOn(s, turn, t);
    }
  }

  lemma WriterOf(s: State) returns (p: nat)
    requires Inv(s) && s.splk
    ensures p < |s.threads| && Writes(s, p)
  {
    var q :| Writes(s, q);
    p := q;
  }

  /** From every state of every run a thread can be done with what it is doing, and no write be under way. */
  lemma AllQuiet(n: nat, mem: int, sched: seq<Turn>, p: nat) returns (t: State)
    requires p < n
    ensures Leads(Exec(Init(n, mem), sched), t) && Inv(t) && |t.threads| == n && !t.splk && t.threads[p] == Idle
  {
    hide Exec, Inv, Leads, Step;
    InvAlways(n, mem, sched);
    var s := Exec(Init(n, mem), sched);
    var m := s;
    LeadsNone(s);
    if s.splk {
      var w := WriterOf(s);
      m := Completes(s, w);
    }
    t := Completes(m, p);
    LeadsTrans(s, m, t);
  }

  lemma EvenCount(s: State)
    requires Inv(s) && !s.splk
    ensures s.seqno % 2 == 0
  {
    WrapStep(s.version);
  }

  lemma EveryoneCanRead(n: nat, mem: int, sched: seq<Turn>, p: nat)
    requires p < n
    ensures exists t ::
      Leads(Exec(Init(n, mem), sched), t) && p < |t.threads| && t.threads[p] == Returned(t.mem, t.version)
  {
    hide Exec, Inv, Leads;
    var s := AllQuiet(n, mem, sched, p);
    EvenCount(s);
    var turn := Turn(p, Read);
    var a := Step(s, turn);
    var b := Step(a, turn);
    var c := Step(b, turn);
    var t := Step(c, turn);
    assert a.threads[p] == Line61 && b.threads[p] == Line62(s.seqno, s.version);
    assert c.threads[p] == Line64(s.seqno, s.version, s.mem) && t.threads[p] == Returned(t.mem, t.version);
    hide Step;
    LeadsNone(t);
    LeadsOn(c, turn, t);
    LeadsOn(b, turn, t);
    LeadsOn(a, turn, t);
    LeadsOn(s, turn, t);
    LeadsTrans(Exec(Init(n, mem), sched), s, t);
  }

  /** The write of val by a thread that may write it now. */
  predicate Writing(s: State, p: nat, val: int) {
    && p < |s.threads|
    && match s.threads[p]
       case Line72(v) => v == val && !s.splk
       case Line73(v) => v == val
       case Line73Store(v, _) => v == val
       case Line75(v) => v == val
       case Line77 => s.mem == val
       case Line77Store(_) => s.mem == val
       case Line80 => s.mem == val
       case _ => false
  }

  lemma {:induction false} WriteCompletes(s: State, p: nat, val: int) returns (t: State)
    requires Writing(s, p, val)
    ensures Leads(s, t) && p < |t.threads| && t.threads[p] == Idle && t.mem == val
    decreases ToIdle(s, s.threads[p])
  {
    hide Leads;
    var turn := Turn(p, Read);
    if s.threads[p] == Line80 {
      t := Step(s, turn);
      LeadsNone(t);
    } else {
      t := WriteCompletes(Step(s, turn), p, val);
    }
    LeadsOn(s, turn, t);
  }

  lemma EveryoneCanWrite(n: nat, mem: int, sched: seq<Turn>, p: nat, val: int)
    requires p < n
    ensures exists t ::
      Leads(Exec(Init(n, mem), sched), t) && p < |t.threads| && t.threads[p] == Idle && t.mem == val
  {
    hide Exec, Inv, Leads;
    var s := AllQuiet(n, mem, sched, p);
    var turn := Turn(p, Write(val));
    var t := WriteCompletes(Step(s, turn), p, val);
    LeadsOn(s, turn, t);
    LeadsTrans(Exec(Init(n, mem), sched), s, t);
  }
}

/** That the token game goes on: from every state of every run every thread can finish. */
module FrisbeeProgress {
  import opened Remainder
  import opened FrisbeeSeq

  ghost predicate Leads(s: State, t: State, maxpass: nat) {
    exists sched :: Exec(s, maxpass, sched) == t
  }

  lemma {:induction false} ExecConcat(s: State, maxpass: nat, a: seq<nat>, b: seq<nat>)
    ensures Exec(s, maxpass, a + b) == Exec(Exec(s, maxpass, a), maxpass, b)
  {
    hide Step;
    if b == [] {
      assert a + b == a;
    } else {
      ExecConcat(s, maxpass, a, b[..|b| - 1]);
      assert (a + b)[..|a + b| - 1] == a + b[..|b| - 1];
    }
  }

  lemma LeadsNone(s: State, maxpass: nat)
    ensures Leads(s, s, maxpass)
  {
    assert Exec(s, maxpass, []) == s;
  }

  lemma LeadsOn(s: State, p: nat, t: State, maxpass: nat)
    requires Leads(Step(s, maxpass, p), t, maxpass)
    ensures Leads(s, t, maxpass)
  {
    hide Step;
    var sched :| Exec(Step(s, maxpass, p), maxpass, sched) == t;
    assert [p][..0] == [] && Exec(s, maxpass, [p]) == Step(s, maxpass, p);
    ExecConcat(s, maxpass, [p], sched);
  }

  lemma LeadsTrans(s: State, m: State, t: State, maxpass: nat)
    requires Leads(s, m, maxpass) && Leads(m, t, maxpass)
    ensures Leads(s, t, maxpass)
  {
    hide Exec;
    var a :| Exec(s, maxpass, a) == m;
    var b :| Exec(m, maxpass, b) == t;
    ExecConcat(s, maxpass, a, b);
  }

  // ---- The spin lock and the count ----

  predicate HasSpin(s: State, p: int) {
    && 0 <= p < |s.threads|
    && match s.threads[p]
       case Write73(_, _, _) => true case Write73Store(_, _, _, _) => true case Write75(_, _, _) => true
       case Write77(_, _) => true case Write77Store(_, _, _) => true case Write80(_, _) => true
       case _ => false
  }

  /** Between the two increments of the count. */
  predicate Mid(pc: Pc) { pc.Write75? || pc.Write77? || pc.Write77Store? }

  /** One thread at most has the spin lock; the count is odd exactly between its increments. */
  ghost predicate Spin(s: State) {
    && s.seqno < WRAP
    && (s.splk <==> exists p :: HasSpin(s, p))
    && (forall p, q :: HasSpin(s, p) && HasSpin(s, q) ==> p == q)
    && (forall p :: HasSpin(s, p) ==> (Mid(s.threads[p]) <==> s.seqno % 2 == 1))
    && (!s.splk ==> s.seqno % 2 == 0)
    && forall p :: 0 <= p < |s.threads| ==>
         && (s.threads[p].Write73Store? ==> s.threads[p].r == s.seqno)
         && (s.threads[p].Write77Store? ==> s.threads[p].r == s.seqno)
  }

  lemma WrapParity(v: nat)
    requires v < WRAP
    ensures (v + 1) % WRAP % 2 == 1 - v % 2 && (v + 1) % WRAP < WRAP
  {
  }

  /** A step that touches neither the spin lock nor the count. */
  lemma SpinSame(s: State, t: State, p: nat)
    requires Spin(s) && p < |s.threads| == |t.threads| && t.threads == s.threads[p := t.threads[p]]
    requires t.splk == s.splk && t.seqno == s.seqno && !HasSpin(s, p) && !HasSpin(t, p)
    ensures Spin(t)
  {
    assert forall q :: HasSpin(t, q) <==> HasSpin(s, q);
    assert forall q :: HasSpin(s, q) ==> q != p;
  }

  lemma SpinTake(s: State, maxpass: nat, p: nat)
    requires Spin(s) && p < |s.threads| && (s.threads[p].Write72? || HasSpin(s, p))
    ensures Spin(Step(s, maxpass, p))
  {
    var t := Step(s, maxpass, p);
    WrapParity(s.seqno);
    assert t.threads == s.threads[p := t.threads[p]];
    assert forall q :: q != p ==> (HasSpin(t, q) <==> HasSpin(s, q));
    assert HasSpin(s, p) || !HasSpin(s, p);
    assert HasSpin(t, p) || !HasSpin(t, p);
    forall q | 0 <= q < |s.threads|
      ensures t.threads[q].Write73Store? ==> t.threads[q].r == t.seqno
      ensures t.threads[q].Write77Store? ==> t.threads[q].r == t.seqno
    {
      if q != p && HasSpin(s, p) {
        assert !HasSpin(s, q);
      }
    }
  }

  lemma QuietStep(s: State, maxpass: nat, p: nat)
    requires p < |s.threads| && !s.threads[p].Write72? && !HasSpin(s, p)
    ensures var t := Step(s, maxpass, p);
      t.threads == s.threads[p := t.threads[p]] && t.splk == s.splk && t.seqno == s.seqno && !HasSpin(t, p)
  {
  }

  lemma SpinKept(s: State, maxpass: nat, p: nat)
    requires Spin(s)
    ensures Spin(Step(s, maxpass, p))
  {
    if p < |s.threads| {
      hide Spin, Step, HasSpin;
      if s.threads[p].Write72? || HasSpin(s, p) {
        SpinTake(s, maxpass, p);
      } else {
        QuietStep(s, maxpass, p);
        SpinSame(s, Step(s, maxpass, p), p);
      }
    }
  }

  ghost predicate Full(s: State, maxpass: nat) { Inv(s, maxpass) && Spin(s) }

  lemma FullKept(s: State, maxpass: nat, p: nat)
    requires Full(s, maxpass)
    ensures Full(Step(s, maxpass, p), maxpass)
  {
    hide Inv, Spin, Step;
    InvKept(s, maxpass, p);
    SpinKept(s, maxpass, p);
  }

  lemma {:induction false} FullAlways(n: nat, maxpass: nat, sched: seq<nat>)
    requires n > 0 && maxpass + 1 < WRAP
    ensures Full(Exec(Init(n), maxpass, sched), maxpass)
  {
    if sched == [] {
      InvInit(n, maxpass);
      hide Inv;
      assert forall p :: !HasSpin(Init(n), p);
    } else {
      hide Full, Step;
      var k := |sched| - 1;
      FullAlways(n, maxpass, sched[..k]);
      FullKept(Exec(Init(n), maxpass, sched[..k]), maxpass, sched[k]);
    }
  }

  // ---- One thread alone ----

  /** Nobody else is in the way of p. */
  ghost predicate Clear(s: State, p: nat) { p < |s.threads| && (!s.splk || HasSpin(s, p)) }

  /** How far a write is from the end. */
  function ToDrop(pc: Pc): (r: nat) {
    match pc
    case Write80(_, _) => 1 case Write77Store(_, _, _) => 2 case Write77(_, _) => 3 case Write75(_, _, _) => 4
    case Write73Store(_, _, _, _) => 5 case Write73(_, _, _) => 6
    case _ => 0
  }

  lemma DropStep(s: State, maxpass: nat, p: nat)
    requires HasSpin(s, p) && Knows(s, maxpass, p) && maxpass < WRAP - 1
    ensures var t := Step(s, maxpass, p);
      && s.passes <= t.passes
      && if s.threads[p].Write80? then !t.splk else HasSpin(t, p) && ToDrop(t.threads[p]) < ToDrop(s.threads[p])
  {
  }

  lemma Here(s: State, maxpass: nat, p: nat)
    requires Full(s, maxpass) && p < |s.threads|
    ensures Knows(s, maxpass, p) && 1 <= s.passes && maxpass < WRAP - 1 && (!s.splk ==> s.seqno % 2 == 0)
  {
  }

  lemma {:induction false} DropsSpin(s: State, maxpass: nat, p: nat) returns (t: State)
    requires Full(s, maxpass) && HasSpin(s, p)
    ensures Leads(s, t, maxpass) && Full(t, maxpass) && |t.threads| == |s.threads| && !t.splk && s.passes <= t.passes
    decreases ToDrop(s.threads[p])
  {
    hide Full, Leads, Step, ToDrop, Knows;
    Here(s, maxpass, p);
    DropStep(s, maxpass, p);
    FullKept(s, maxpass, p);
    if s.threads[p].Write80? {
      t := Step(s, maxpass, p);
      LeadsNone(t, maxpass);
    } else {
      t := DropsSpin(Step(s, maxpass, p), maxpass, p);
    }
    LeadsOn(s, p, t, maxpass);
  }

  lemma FreeSpin(s: State, maxpass: nat) returns (t: State)
    requires Full(s, maxpass)
    ensures Leads(s, t, maxpass) && Full(t, maxpass) && |t.threads| == |s.threads| && !t.splk && s.passes <= t.passes
  {
    if s.splk {
      var q :| HasSpin(s, q);
      hide Full, Leads;
      t := DropsSpin(s, maxpass, q);
    } else {
      hide Full;
      t := s;
      LeadsNone(s, maxpass);
    }
  }

  /** A read that has seen the present count. */
  predicate Fresh(s: State, seqi: nat) { seqi == s.seqno && seqi % 2 == 0 }

  /** How far the owner is from writing the pass count, when nobody is in its way. */
  function ToPass(s: State, p: nat, pc: Pc): (r: nat) {
    match pc
    case Write75(_, _, _) => 1 case Write73Store(_, _, _, _) => 2 case Write73(_, _, _) => 3 case Write72(_, _, _) => 4
    case Task74(_) => 5 case Task61(o) => if o == p then 6 else 10
    case Read64(seqi, o) => if Fresh(s, seqi) && o == p then 7 else 11
    case Read62(seqi) => if Fresh(s, seqi) then 8 else 12
    case Read61 => 9
    case _ => 0
  }

  /** On the way to the next pass. */
  predicate Toward(pc: Pc) {
    pc.Read61? || pc.Read62? || pc.Read64? || pc.Task61? || BeforePass(pc)
  }

  lemma PassStep(s: State, maxpass: nat, p: nat)
    requires p < |s.threads| && Knows(s, maxpass, p) && Clear(s, p) && s.owner == p
    requires 1 <= s.passes <= maxpass < WRAP - 1 && Toward(s.threads[p]) && (!s.splk ==> s.seqno % 2 == 0)
    ensures var t := Step(s, maxpass, p);
      && |t.threads| == |s.threads|
      && (if s.threads[p].Write75? then t.passes == s.passes + 1
          else t.passes == s.passes && t.owner == p && Clear(t, p) && Toward(t.threads[p])
               && ToPass(t, p, t.threads[p]) < ToPass(s, p, s.threads[p]))
  {
    assert HasSpin(s, p) || !HasSpin(s, p);
  }

  lemma {:induction false} Passes1(s: State, maxpass: nat, p: nat) returns (t: State)
    requires Full(s, maxpass) && p < |s.threads| && Clear(s, p) && s.owner == p
    requires s.passes <= maxpass && Toward(s.threads[p])
    ensures Leads(s, t, maxpass) && Full(t, maxpass) && |t.threads| == |s.threads| && t.passes == s.passes + 1
    decreases ToPass(s, p, s.threads[p])
  {
    hide Full, Leads, Step, ToPass, Toward, Clear, Knows;
    Here(s, maxpass, p);
    PassStep(s, maxpass, p);
    FullKept(s, maxpass, p);
    if s.threads[p].Write75? {
      t := Step(s, maxpass, p);
      LeadsNone(t, maxpass);
    } else {
      t := Passes1(Step(s, maxpass, p), maxpass, p);
    }
    LeadsOn(s, p, t, maxpass);
  }

  /** How far a thread that has passed is from handing the token on and dropping the spin lock. */
  function ToHand(pc: Pc): (r: nat) {
    match pc
    case Write80(_, _) => 1 case Write77Store(_, _, _) => 2 case Write77(_, _) => 3 case Write75(_, _, _) => 4
    case Write73Store(_, _, _, _) => 5 case Write73(_, _, _) => 6 case Write72(_, _, _) => 7
    case _ => 0
  }

  /** Writing the owner. */
  predicate Handing(pc: Pc) {
    match pc
    case Write72(w, _, _) => w == Owner case Write73(w, _, _) => w == Owner case Write73Store(w, _, _, _) => w == Owner
    case Write75(w, _, _) => w == Owner case Write77(w, _) => w == Owner case Write77Store(w, _, _) => w == Owner
    case Write80(w, _) => w == Owner
    case _ => false
  }

  lemma HandStep(s: State, maxpass: nat, p: nat)
    requires Full(s, maxpass) && p < |s.threads| && Clear(s, p) && Handing(s.threads[p])
    ensures var t := Step(s, maxpass, p);
      && |t.threads| == |s.threads| && t.passes == s.passes
      && (if s.threads[p].Write80? then t.threads[p] == Read61 && !t.splk && t.owner == s.owner
          else Clear(t, p) && Handing(t.threads[p]) && ToHand(t.threads[p]) < ToHand(s.threads[p]))
  {
    assert HasSpin(s, p) || !HasSpin(s, p);
  }

  lemma {:induction false} HandsOn(s: State, maxpass: nat, p: nat) returns (t: State)
    requires Full(s, maxpass) && p < |s.threads| && Clear(s, p) && Handing(s.threads[p])
    ensures Leads(s, t, maxpass) && Full(t, maxpass) && |t.threads| == |s.threads| && t.passes == s.passes
    ensures !t.splk && t.threads[p] == Read61
    decreases ToHand(s.threads[p])
  {
    hide Full, Leads, Step, ToHand, Handing, Clear;
    HandStep(s, maxpass, p);
    FullKept(s, maxpass, p);
    if s.threads[p].Write80? {
      t := Step(s, maxpass, p);
      LeadsNone(t, maxpass);
    } else {
      t := HandsOn(Step(s, maxpass, p), maxpass, p);
    }
    LeadsOn(s, p, t, maxpass);
  }

  /** With the spin lock free, a thread writes nothing but is about to, or reads. */
  lemma FreeOwner(s: State, maxpass: nat)
    requires Full(s, maxpass) && !s.splk && s.passes <= maxpass
    ensures s.owner < |s.threads| && Clear(s, s.owner)
    ensures Toward(s.threads[s.owner]) || Handing(s.threads[s.owner])
    ensures Handing(s.threads[s.owner]) ==> AfterPass(s.threads[s.owner])
  {
    var p := s.owner;
    assert Knows(s, maxpass, p) && !HasSpin(s, p);
  }

  /** One more pass is made. */
  lemma NextPass(s: State, maxpass: nat) returns (t: State)
    requires Full(s, maxpass) && s.passes <= maxpass
    ensures Leads(s, t, maxpass) && Full(t, maxpass) && |t.threads| == |s.threads| && s.passes < t.passes
  {
    hide Full, Leads, Toward, Handing, Clear;
    var m := FreeSpin(s, maxpass);
    if s.passes < m.passes {
      t := m;
    } else {
      FreeOwner(m, maxpass);
      var p := m.owner;
      if Handing(m.threads[p]) {
        var u := HandsOn(m, maxpass, p);
        LeadsTrans(s, m, u, maxpass);
        FreeOwner(u, maxpass);
        NotHanding(m, u, maxpass, p);
        t := Passes1(u, maxpass, u.owner);
        LeadsTrans(s, u, t, maxpass);
      } else {
        t := Passes1(m, maxpass, p);
        LeadsTrans(s, m, t, maxpass);
      }
    }
  }

  lemma NotHanding(m: State, u: State, maxpass: nat, p: nat)
    requires Full(m, maxpass) && Full(u, maxpass) && |u.threads| == |m.threads| && u.passes == m.passes
    requires p < |m.threads| && AfterPass(m.threads[p]) && u.threads[p] == Read61
    ensures !AfterPass(u.threads[u.owner])
  {
    assert Knows(m, maxpass, p) && Knows(u, maxpass, u.owner);
  }

  lemma {:induction false} AllPasses(s: State, maxpass: nat) returns (t: State)
    requires Full(s, maxpass)
    ensures Leads(s, t, maxpass) && Full(t, maxpass) && |t.threads| == |s.threads| && maxpass < t.passes
    decreases maxpass + 1 - s.passes
  {
    hide Full, Leads;
    if s.passes <= maxpass {
      var m := NextPass(s, maxpass);
      t := AllPasses(m, maxpass);
      LeadsTrans(s, m, t, maxpass);
    } else {
      t := s;
      LeadsNone(s, maxpass);
    }
  }

  // ---- Finishing ----

  function ToFinish(s: State, pc: Pc): (r: nat) {
    match pc
    case Task61(_) => 1
    case Read64(seqi, _) => if Fresh(s, seqi) then 2 else 5
    case Read62(seqi) => if Fresh(s, seqi) then 3 else 6
    case Read61 => 4
    case _ => 0
  }

  predicate Reading(pc: Pc) { pc.Read61? || pc.Read62? || pc.Read64? || pc.Task61? }

  lemma FinishStep(s: State, maxpass: nat, p: nat)
    requires Full(s, maxpass) && p < |s.threads| && !s.splk && maxpass < s.passes && Reading(s.threads[p])
    ensures var t := Step(s, maxpass, p);
      && |t.threads| == |s.threads| && !t.splk && t.passes == s.passes
      && (t.threads[p] == Finished
          || (Reading(t.threads[p]) && ToFinish(t, t.threads[p]) < ToFinish(s, s.threads[p])))
  {
  }

  lemma {:induction false} Finishes(s: State, maxpass: nat, p: nat) returns (t: State)
    requires Full(s, maxpass) && p < |s.threads| && !s.splk && maxpass < s.passes
    requires s.threads[p] == Finished || Reading(s.threads[p])
    ensures Leads(s, t, maxpass) && p < |t.threads| && t.threads[p] == Finished
    decreases ToFinish(s, s.threads[p])
  {
    hide Full, Leads, Step, ToFinish;
    if s.threads[p] == Finished {
      t := s;
      LeadsNone(s, maxpass);
    } else {
      FinishStep(s, maxpass, p);
      FullKept(s, maxpass, p);
      if Step(s, maxpass, p).threads[p] == Finished {
        t := Step(s, maxpass, p);
        LeadsNone(t, maxpass);
      } else {
        t := Finishes(Step(s, maxpass, p), maxpass, p);
      }
      LeadsOn(s, p, t, maxpass);
    }
  }

  lemma LateThread(s: State, maxpass: nat, p: nat)
    requires Full(s, maxpass) && p < |s.threads| && !s.splk && maxpass < s.passes
    ensures Clear(s, p) && (s.threads[p] == Finished || Reading(s.threads[p]) || Handing(s.threads[p]))
  {
    assert Knows(s, maxpass, p) && !HasSpin(s, p);
  }

  /** As long as maxpass leaves room to count, all passes can be made and every thread can finish, from every state of
    every run. */
  lemma EveryoneCanFinish(n: nat, maxpass: nat, sched: seq<nat>, p: nat)
    requires n > 0 && maxpass + 1 < WRAP && p < n
    ensures exists t ::
      Leads(Exec(Init(n), maxpass, sched), t, maxpass) && p < |t.threads| && t.threads[p] == Finished
  {
    hide Exec, Full, Leads, Handing, Clear, Reading, Step;
    FullAlways(n, maxpass, sched);
    var s := Exec(Init(n), maxpass, sched);
    var a := AllPasses(s, maxpass);
    var b := FreeSpin(a, maxpass);
    LeadsTrans(s, a, b, maxpass);
    LateThread(b, maxpass, p);
    if Handing(b.threads[p]) {
      var c := HandsOn(b, maxpass, p);
      LeadsTrans(s, b, c, maxpass);
      assert Reading(Read61) by { ReadsAgain(); }
      var t := Finishes(c, maxpass, p);
      LeadsTrans(s, c, t, maxpass);
    } else {
      var t := Finishes(b, maxpass, p);
      LeadsTrans(s, b, t, maxpass);
    }
  }

  lemma ReadsAgain()
    ensures Reading(Read61)
  {
  }
}

/** That the MCS lock can be had: as long as no clear has raced and none is about to, every thread can get into the
  critical section without a race. */
module McsProgress {
  import opened Options
  import opened McsLock

  /** A schedule from s in which no clear races. */
  ghost predicate NoRace(s: State, sched: seq<nat>) {
    forall k :: 0 <= k < |sched| ==> !Racing(Exec(s, sched[..k]), sched[k])
  }

  ghost predicate Leads(s: State, t: State) {
    exists sched :: NoRace(s, sched) && Exec(s, sched) == t
  }

  lemma {:induction false} ExecConcat(s: State, a: seq<nat>, b: seq<nat>)
    ensures Exec(s, a + b) == Exec(Exec(s, a), b)
  {
    hide Step;
    if b == [] {
      assert a + b == a;
    } else {
      ExecConcat(s, a, b[..|b| - 1]);
      assert (a + b)[..|a + b| - 1] == a + b[..|b| - 1];
    }
  }

  lemma NoRaceConcat(s: State, a: seq<nat>, b: seq<nat>)
    requires NoRace(s, a) && NoRace(Exec(s, a), b)
    ensures NoRace(s, a + b) && Exec(s, a + b) == Exec(Exec(s, a), b)
  {
    hide Exec;
    ExecConcat(s, a, b);
    var ab := a + b;
    forall k | 0 <= k < |ab| ensures !Racing(Exec(s, ab[..k]), ab[k]) {
      if k < |a| {
        assert ab[..k] == a[..k];
      } else {
        assert ab[..k] == a + b[..k - |a|];
        ExecConcat(s, a, b[..k - |a|]);
      }
    }
  }

  lemma LeadsNone(s: State)
    ensures Leads(s, s)
  {
    assert NoRace(s, []) && Exec(s, []) == s;
  }

  lemma LeadsOn(s: State, p: nat, t: State)
    requires p < |s.threads| && !Racing(s, p) && Leads(Step(s, p), t)
    ensures Leads(s, t)
  {
    hide Step;
    var sched :| NoRace(Step(s, p), sched) && Exec(Step(s, p), sched) == t;
    assert [p][..0] == [] && Exec(s, []) == s && Exec(s, [p]) == Step(s, p);
    assert NoRace(s, [p]);
    NoRaceConcat(s, [p], sched);
  }

  lemma LeadsTrans(s: State, m: State, t: State)
    requires Leads(s, m) && Leads(m, t)
    ensures Leads(s, t)
  {
    hide Exec;
    var a :| NoRace(s, a) && Exec(s, a) == m;
    var b :| NoRace(m, b) && Exec(m, b) == t;
    NoRaceConcat(s, a, b);
  }

  /** The queue is intact and no thread is about to make a racing clear. */
  ghost predicate Calm(s: State) {
    Sound(s) && SpinLock(s) && forall p: nat :: !Racing(s, p)
  }

  /** A step keeps the calm, unless it is an exchange while a thread is between lines 112 and 115. */
  lemma CalmKept(s: State, p: nat)
    requires Calm(s) && p < |s.threads| && (s.threads[p].pc == Line97 ==> !s.spin)
    ensures Calm(Step(s, p))
  {
    hide Sound, Step, SpinLock;
    RaceDropsWaiter(s, p);
    SpinLockKept(s, p);
    forall q: nat | Racing(Step(s, p), q) ensures false {
      StillFresh(s, p, q);
    }
  }

  lemma StillFresh(s: State, p: nat, q: nat)
    requires SpinLock(s) && p < |s.threads| && !Racing(s, q) && (s.threads[p].pc == Line97 ==> !s.spin)
    ensures !Racing(Step(s, p), q)
  {
    assert Inside(s, p) || !Inside(s, p);
    assert Inside(s, q) || !Inside(s, q);
  }

  // ---- Leaving the spin lock ----

  function ToLeaveSpin(pc: Pc): (r: nat) {
    match pc
    case Line113 => 3 case Line114(_) => 2 case Line115(_) => 1
    case _ => 0
  }

  lemma SpinMoves(s: State, p: nat)
    requires Inside(s, p)
    ensures var t := Step(s, p);
      && (forall q :: 0 <= q < |s.threads| && q != p ==> t.threads[q] == s.threads[q])
      && (if s.threads[p].pc.Line115? then !t.spin
          else Inside(t, p) && ToLeaveSpin(t.threads[p].pc) < ToLeaveSpin(s.threads[p].pc))
  {
  }

  lemma {:induction false} LeavesSpin(s: State, p: nat) returns (t: State)
    requires Calm(s) && Inside(s, p)
    ensures Leads(s, t) && Calm(t) && !t.spin && |t.threads| == |s.threads|
    ensures forall q :: 0 <= q < |s.threads| && q != p ==> t.threads[q] == s.threads[q]
    decreases ToLeaveSpin(s.threads[p].pc)
  {
    SpinMoves(s, p);
    hide Calm, Leads, Step, ToLeaveSpin;
    CalmKept(s, p);
    NotRacing(s, p);
    if s.threads[p].pc.Line115? {
      t := Step(s, p);
      LeadsNone(t);
    } else {
      t := LeavesSpin(Step(s, p), p);
    }
    LeadsOn(s, p, t);
  }

  lemma NotRacing(s: State, p: nat)
    requires Calm(s)
    ensures !Racing(s, p)
  {
  }

  // ---- Serving the first in line ----

  /** How far the owner is from having given the lock away. */
  function ToLeave(pc: Pc): (r: nat) {
    match pc
    case Line102(_) => 12 case Critical => 11 case Line112 => 10 case Line113 => 9 case Line114(_) => 8
    case Line115(_) => 7 case Line122 => 6 case Line126 => 5 case Line126Store(_) => 4
    case _ => 0
  }

  /** Something else has to happen before the owner can move. */
  function Sub(s: State, h: nat): (r: nat)
    requires h < |s.threads|
    ensures r <= 1
  {
    if (s.threads[h].pc == Line112 && s.spin) || (s.threads[h].pc == Line122 && s.threads[h].next.None?) then 1 else 0
  }

  /** Who moves so that the owner gets on. */
  lemma WhoMoves(s: State) returns (x: nat)
    requires Calm(s) && s.queue != []
    ensures s.queue[0] < |s.threads| && x < |s.threads| && s.threads[x].pc != Line97
    ensures var h := s.queue[0]; var t := Step(s, x);
      if t.queue == s.queue then
        && 2 * ToLeave(t.threads[h].pc) + Sub(t, h) < 2 * ToLeave(s.threads[h].pc) + Sub(s, h)
        && (ToLeave(s.threads[h].pc) > 11 ==> t.threads[h].pc == Critical)
        && 4 <= ToLeave(t.threads[h].pc)
        && (forall q :: 0 <= q < |s.threads| && q != h ==>
              t.threads[q].pc == s.threads[q].pc || (s.threads[q].pc.Line100? && t.threads[q].pc.Line102?)
              || s.threads[q].pc.Line115?)
      else
        && t.queue == s.queue[1..] && ToLeave(s.threads[h].pc) < 11 && !InQueue(t, h)
        && (forall q :: 0 <= q < |s.threads| && q != h ==> t.threads[q].pc == s.threads[q].pc)
  {
    hide Fifo;
    var h := s.queue[0];
    HeadLink(s, h);
    if s.threads[h].pc == Line112 && s.spin {
      var q :| Inside(s, q);
      x := q;
      HolderLeaves(s, h, x);
    } else if s.threads[h].pc == Line122 && s.threads[h].next.None? {
      assert Place(s, 1);
      x := s.queue[1];
      AttachStep(s, x, h);
      assert x != h;
    } else {
      x := h;
      HeadAlone(s, h);
    }
  }

  lemma HolderLeaves(s: State, h: nat, x: nat)
    requires OneOwner(s) && Owns(s, h) && s.threads[h].pc == Line112 && s.spin && Inside(s, x)
    ensures x != h && s.threads[x].pc == Line115(Some(x))
    ensures var t := Step(s, x); t == s.(spin := false, threads := s.threads[x := s.threads[x].(pc := Idle)])
  {
    if s.threads[x].pc != Line115(Some(x)) {
      assert Owns(s, x);
    }
  }

  /** The owner h moves on, and stays the owner. */
  ghost predicate Onward(s: State, t: State, h: nat)
    requires h < |s.threads| == |t.threads|
  {
    && 2 * ToLeave(t.threads[h].pc) + Sub(t, h) < 2 * ToLeave(s.threads[h].pc) + Sub(s, h)
    && (ToLeave(s.threads[h].pc) > 11 ==> t.threads[h].pc == Critical)
    && 4 <= ToLeave(t.threads[h].pc)
    && (forall q :: 0 <= q < |s.threads| && q != h ==> t.threads[q] == s.threads[q])
  }

  /** The owner h gives the lock away. */
  ghost predicate Away(s: State, t: State, h: nat)
    requires h < |s.threads| == |t.threads| && s.queue != []
  {
    && t.queue == s.queue[1..] && ToLeave(s.threads[h].pc) < 11 && !InQueue(t, h)
    && (forall q :: 0 <= q < |s.threads| && q != h ==> t.threads[q].pc == s.threads[q].pc)
  }

  lemma HeadRuns(s: State, h: nat)
    requires Owns(s, h) && Knows(s, h) && !s.threads[h].pc.Line126Store? && s.threads[h].pc != Line114(Some(h))
    requires !(s.threads[h].pc == Line112 && s.spin) && !(s.threads[h].pc == Line122 && s.threads[h].next.None?)
    ensures Step(s, h).queue == s.queue && Onward(s, Step(s, h), h)
  {
  }

  lemma HeadAlone(s: State, h: nat)
    requires Sound(s) && !Racing(s, h) && s.queue != [] && s.queue[0] == h && h < |s.threads| && Owns(s, h)
    requires !(s.threads[h].pc == Line112 && s.spin) && !(s.threads[h].pc == Line122 && s.threads[h].next.None?)
    ensures var t := Step(s, h); if t.queue == s.queue then Onward(s, t, h) else Away(s, t, h)
  {
    HeadLink(s, h);
    assert Node(s, h);
    hide Step, OneOwner, Queue, Fifo;
    if s.threads[h].pc.Line126Store? {
      SignalStep(s, h, s.threads[h].pc.succ);
    } else if s.threads[h].pc == Line114(Some(h)) {
      ClearStep(s, h);
    } else {
      HeadRuns(s, h);
    }
  }

  /** A queued thread that has not been in the critical section gets there. */
  lemma {:induction false} Enters(s: State, q: nat, i: nat) returns (t: State)
    requires Calm(s) && q < |s.threads| && i < |s.queue| && s.queue[i] == q && HeadIn(s)
    requires s.threads[q].pc.Line100? || ToLeave(s.threads[q].pc) >= 11
    ensures Leads(s, t) && q < |t.threads| && t.threads[q].pc == Critical
    decreases i, 2 * ToLeave(s.threads[s.queue[0]].pc) + Sub(s, s.queue[0])
  {
    hide Calm, Leads, Step, Sub, ToLeave;
    if s.threads[q].pc == Critical {
      t := s;
      LeadsNone(s);
    } else {
      var x := WhoMoves(s);
      CalmKept(s, x);
      NotRacing(s, x);
      Others(s, q, i);
      var m := Step(s, x);
      QueueIn(m);
      var j := if m.queue == s.queue then i else i - 1;
      Others(m, q, j);
      t := Enters(m, q, j);
      LeadsOn(s, x, t);
    }
  }

  predicate HeadIn(s: State) { s.queue != [] && s.queue[0] < |s.threads| }

  lemma QueueIn(s: State)
    requires Calm(s)
    ensures forall i :: 0 <= i < |s.queue| ==> s.queue[i] < |s.threads|
  {
    forall i | 0 <= i < |s.queue| ensures s.queue[i] < |s.threads| {
      assert Place(s, i);
    }
  }

  lemma Others(s: State, q: nat, i: nat)
    requires Calm(s) && i < |s.queue| && s.queue[i] == q && q < |s.threads|
    ensures i > 0 ==> q != s.queue[0]
    ensures i > 0 ==> s.threads[q].pc.Line100? || s.threads[q].pc.Line102?
    ensures i == 0 ==> !s.threads[q].pc.Line100?
    ensures ToLeave(s.threads[q].pc) >= 11 <==> s.threads[q].pc.Line102? || s.threads[q].pc == Critical
    ensures s.threads[q].pc.Line102? ==> ToLeave(s.threads[q].pc) > 11
  {
    assert Place(s, i);
  }

  // ---- Main results ----

  /** The owner gives the lock away. */
  lemma {:induction false} Leaves(s: State, q: nat) returns (t: State)
    requires Calm(s) && q < |s.threads| && s.queue != [] && s.queue[0] == q
    ensures Leads(s, t) && Calm(t) && |t.threads| == |s.threads| && !InQueue(t, q)
    decreases 2 * ToLeave(s.threads[q].pc) + Sub(s, q)
  {
    hide Calm, Leads, Step, Sub, ToLeave;
    var x := WhoMoves(s);
    CalmKept(s, x);
    NotRacing(s, x);
    if Step(s, x).queue == s.queue {
      t := Leaves(Step(s, x), q);
    } else {
      t := Step(s, x);
      LeadsNone(t);
    }
    LeadsOn(s, x, t);
  }

  /** One step of q, which is not in the queue, towards the exchange. */
  function ToExchange(pc: Pc): (r: nat) {
    match pc
    case Line97 => 1 case Line94 => 2 case Idle => 3 case Line115(_) => 4
    case _ => 0
  }

  lemma OutsideStep(s: State, q: nat)
    requires Calm(s) && q < |s.threads| && !InQueue(s, q) && s.threads[q].pc != Line97
    ensures var t := Step(s, q);
      !InQueue(t, q) && ToExchange(t.threads[q].pc) < ToExchange(s.threads[q].pc) && 1 <= ToExchange(t.threads[q].pc)
  {
  }

  /** A thread outside queues up. */
  lemma {:induction false} QueuesUp(s: State, q: nat) returns (t: State)
    requires Calm(s) && q < |s.threads| && !InQueue(s, q)
    ensures Leads(s, t) && Calm(t) && |t.threads| == |s.threads|
    ensures t.threads[q].pc == Critical || t.threads[q].pc.Line100?
    decreases ToExchange(s.threads[q].pc)
  {
    hide Calm, Leads, Step, ToExchange, InQueue;
    if s.threads[q].pc != Line97 {
      OutsideStep(s, q);
      CalmKept(s, q);
      NotRacing(s, q);
      t := QueuesUp(Step(s, q), q);
      LeadsOn(s, q, t);
    } else {
      var m := s;
      LeadsNone(s);
      if s.spin {
        var p := SpinHolder(s, q);
        m := LeavesSpin(s, p);
      }
      CalmKept(m, q);
      NotRacing(m, q);
      ExchangeStep(m, q);
      t := Step(m, q);
      LeadsNone(t);
      LeadsOn(m, q, t);
      LeadsTrans(s, m, t);
    }
  }

  lemma SpinHolder(s: State, q: nat) returns (p: nat)
    requires Calm(s) && s.spin && q < |s.threads| && s.threads[q].pc == Line97
    ensures Inside(s, p) && p != q
  {
    var x :| Inside(s, x);
    p := x;
  }

  lemma Queued(s: State, q: nat) returns (i: nat)
    requires Calm(s) && InQueue(s, q)
    ensures i < |s.queue| && s.queue[i] == q && HeadIn(s)
  {
    i := IndexOf(s, q);
    QueueIn(s);
  }

  /** From a calm state every thread can get into the critical section. */
  lemma CanEnter(s: State, q: nat) returns (t: State)
    requires Calm(s) && q < |s.threads|
    ensures Leads(s, t) && q < |t.threads| && t.threads[q].pc == Critical
  {
    hide Calm, Leads, Step;
    var m := s;
    LeadsNone(s);
    if InQueue(s, q) && !s.threads[q].pc.Line100? && ToLeave(s.threads[q].pc) < 11 {
      var i := Queued(s, q);
      Others(s, q, i);
      m := Leaves(s, q);
    }
    if !InQueue(m, q) {
      var u := QueuesUp(m, q);
      LeadsTrans(s, m, u);
      m := u;
    }
    var i := Queued(m, q);
    t := Enters(m, q, i);
    LeadsTrans(s, m, t);
  }

  /** Thread p is about to make a racing clear, and w is next behind it. */
  ghost predicate Doomed(s: State, p: nat, w: nat) {
    Sound(s) && Racing(s, p) && |s.queue| >= 2 && s.queue[0] == p && s.queue[1] == w
  }

  lemma RacingDooms(s: State, p: nat)
    requires Sound(s) && Racing(s, p)
    ensures exists w :: Doomed(s, p, w)
  {
    HeadOwns(s, p);
    assert Doomed(s, p, s.queue[1]);
  }

  /** Any other thread's step leaves the front of the queue as it is. */
  lemma FrontStays(s: State, p: nat, r: nat)
    requires OneOwner(s) && Racing(s, p) && r < |s.threads| && r != p
    ensures Step(s, r).queue in {s.queue, s.queue + [r]} && Step(s, r).threads[p].pc == s.threads[p].pc
  {
    assert Owns(s, p) && !Owns(s, r);
  }

  lemma DoomedStep(s: State, p: nat, w: nat, r: nat)
    requires Doomed(s, p, w) && r < |s.threads| && !Racing(s, r)
    ensures Doomed(Step(s, r), p, w)
  {
    hide Step;
    RaceDropsWaiter(s, r);
    FrontStays(s, p, r);
  }

  lemma {:induction false} DoomedStays(s: State, p: nat, w: nat, sched: seq<nat>)
    requires Doomed(s, p, w) && NoRace(s, sched)
    ensures Doomed(Exec(s, sched), p, w)
  {
    hide Doomed, Step, Racing;
    if sched != [] {
      var before := sched[..|sched| - 1];
      forall k | 0 <= k < |before| ensures !Racing(Exec(s, before[..k]), before[k]) {
        assert before[..k] == sched[..k];
      }
      DoomedStays(s, p, w, before);
      assert !Racing(Exec(s, before), sched[|sched| - 1]);
      if sched[|sched| - 1] < |s.threads| {
        DoomedStep(Exec(s, before), p, w, sched[|sched| - 1]);
      }
    }
  }

  lemma DoomedWaits(s: State, p: nat, w: nat)
    requires Doomed(s, p, w)
    ensures w < |s.threads| && s.threads[w].pc != Critical
  {
    assert Place(s, 1);
  }

  ghost predicate MayEnter(s: State, q: nat) {
    exists t :: Leads(s, t) && q < |t.threads| && t.threads[q].pc == Critical
  }

  lemma DoomedKeptOut(s: State, p: nat, w: nat)
    requires Doomed(s, p, w)
    ensures w < |s.threads| && !MayEnter(s, w)
  {
    DoomedWaits(s, p, w);
    hide Doomed, Exec;
    if t :| Leads(s, t) && w < |t.threads| && t.threads[w].pc == Critical {
      var sched :| NoRace(s, sched) && Exec(s, sched) == t;
      DoomedStays(s, p, w, sched);
      DoomedWaits(t, p, w);
    }
  }

  /** Main result: in a run without a racing clear every thread can still get into the critical section without one if
    and only if no thread is about to make one. */
  lemma EveryoneCanEnter(n: nat, sched: seq<nat>)
    requires !HasRace(n, sched)
    ensures var s := Exec(Init(n), sched);
      (forall q: nat :: q < n ==> MayEnter(s, q)) <==> forall p: nat :: !Racing(s, p)
  {
    hide Exec, Leads, Step;
    SoundUntilRace(n, sched);
    SpinLockAlways(n, sched);
    hide Sound, SpinLock, Doomed, Racing;
    var s := Exec(Init(n), sched);
    if forall p: nat :: !Racing(s, p) {
      forall q: nat | q < n ensures MayEnter(s, q) {
        var t := CanEnter(s, q);
      }
    } else {
      var p: nat :| Racing(s, p);
      RacingDooms(s, p);
      var w :| Doomed(s, p, w);
      DoomedKeptOut(s, p, w);
    }
  }

  /** With lines 113 and 114 as one step that is every run. */
  lemma AtomicCanEnter(n: nat, sched: seq<nat>, q: nat)
    requires AtomicRelease(n, sched) && q < n
    ensures MayEnter(Exec(Init(n), sched), q)
  {
    hide Exec, MayEnter, HasRace, AtomicRelease;
    AtomicReleaseNeverRaces(n, sched);
    var s := Exec(Init(n), sched);
    forall p: nat | p < |s.threads| && s.threads[p].pc.Line114? ensures !Racing(s, p) {
      AtomicReads(n, sched, p);
    }
    EveryoneCanEnter(n, sched);
  }
}
