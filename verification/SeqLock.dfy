/** The sequence lock of libthread.c: any number of readers and writers of one word,
  one step per access to shared memory, with the 32-bit sequence counter wrapping. */
module SeqLock {
  import opened Remainder

  /** The line a thread is about to execute, with its locals.  A reader also carries
    v, the number of counter increments at its line 61. */
  datatype Pc =
    | Idle
    | Line61                                       // seqi = lk->seq
    | Line62(seqi: nat, v: nat)                    // retval = *mem
    | Line64(seqi: nat, v: nat, retval: int)       // seqf = lk->seq, and the test
    | Returned(retval: int, v: nat)
    | Line72(val: int)                             // spin lock
    | Line73(val: int)                             // read lk->seq
    | Line73Store(val: int, r: nat)                // lk->seq = r + 1
    | Line75(val: int)                             // *mem = val
    | Line77                                       // read lk->seq
    | Line77Store(r: nat)                          // lk->seq = r + 1
    | Line80                                       // drop the spin lock

  datatype State = State(
    seqno: nat,
    splk: bool,
    mem: int,
    threads: seq<Pc>,
    /** History: how often lk->seq was incremented. */
    version: nat)

  /** What an idle thread does next. */
  datatype Call = Read | Write(val: int)

  datatype Turn = Turn(p: nat, call: Call)

  function Init(n: nat, mem: int): (s: State) {
    State(0, false, mem, seq(n, _ => Idle), 0)
  }

  function Goto(s: State, p: nat, pc: Pc): (t: State)
    requires p < |s.threads|
    ensures |t.threads| == |s.threads|
  {
    s.(threads := s.threads[p := pc])
  }

  function Step(s: State, turn: Turn): (t: State)
    ensures |t.threads| == |s.threads|
  {
    var p := turn.p;
    if p >= |s.threads| then s else
    match s.threads[p]
    case Idle => Goto(s, p, if turn.call.Read? then Line61 else Line72(turn.call.val))
    case Line61 => Goto(s, p, Line62(s.seqno, s.version))
    case Line62(seqi, v) => Goto(s, p, Line64(seqi, v, s.mem))
    case Line64(seqi, v, retval) =>
      if seqi != s.seqno || seqi % 2 == 1 then Goto(s, p, Line61) else Goto(s, p, Returned(retval, v))
    case Returned(_, _) => Goto(s, p, Idle)
    case Line72(val) => if s.splk then s else Goto(s.(splk := true), p, Line73(val))
    case Line73(val) => Goto(s, p, Line73Store(val, s.seqno))
    case Line73Store(val, r) => Goto(s.(seqno := (r + 1) % WRAP, version := s.version + 1), p, Line75(val))
    case Line75(val) => Goto(s.(mem := val), p, Line77)
    case Line77 => Goto(s, p, Line77Store(s.seqno))
    case Line77Store(r) => Goto(s.(seqno := (r + 1) % WRAP, version := s.version + 1), p, Line80)
    case Line80 => Goto(s.(splk := false), p, Idle)
  }

  function Exec(s: State, sched: seq<Turn>): (t: State)
    ensures |t.threads| == |s.threads|
  {
    if sched == [] then s else Step(Exec(s, sched[..|sched| - 1]), sched[|sched| - 1])
  }

  // ---------------------------------------------------------------------------
  // The invariant

  predicate Writes(s: State, p: int) {
    && 0 <= p < |s.threads|
    && match s.threads[p] {
         case Line73(_) => true
         case Line73Store(_, _) => true
         case Line75(_) => true
         case Line77 => true
         case Line77Store(_) => true
         case Line80 => true
         case _ => false
       }
  }

  /** Between the stores of lines 73 and 77. */
  predicate MidWrite(pc: Pc) {
    pc.Line75? || pc == Line77 || pc.Line77Store?
  }

  /** A reader that has read the word: its value is current unless the counter moved. */
  predicate Local(s: State, pc: Pc) {
    match pc
    case Line62(seqi, v) => seqi == v % WRAP && v <= s.version
    case Line64(seqi, v, retval) =>
      seqi == v % WRAP && v <= s.version && (s.version == v && v % 2 == 0 ==> retval == s.mem)
    case Line73Store(_, r) => r == s.seqno
    case Line77Store(r) => r == s.seqno
    case _ => true
  }

  ghost predicate Inv(s: State) {
    && s.seqno == s.version % WRAP
    && (forall p :: Writes(s, p) ==> s.splk)
    && (s.splk ==> exists p :: Writes(s, p))
    && (forall p, q :: Writes(s, p) && Writes(s, q) ==> p == q)
    && (forall p :: Writes(s, p) ==> (MidWrite(s.threads[p]) <==> s.version % 2 == 1))
    && (!s.splk ==> s.version % 2 == 0)
    && (forall p :: 0 <= p < |s.threads| ==> Local(s, s.threads[p]))
  }

  lemma WrapStep(v: nat)
    ensures (v % WRAP + 1) % WRAP == (v + 1) % WRAP
    ensures v % WRAP % 2 == v % 2
  {
  }

  lemma InvInit(n: nat, mem: int)
    ensures Inv(Init(n, mem))
  {
    assert forall p :: !Writes(Init(n, mem), p);
  }

  lemma InvKept(s: State, turn: Turn)
    requires Inv(s)
    ensures Inv(Step(s, turn))
  {
    var t, p := Step(s, turn), turn.p;
    if p < |s.threads| {
      WrapStep(s.version);
      assert Local(s, s.threads[p]);
      assert t.threads == s.threads[p := t.threads[p]];
      assert forall q :: q != p ==> (Writes(t, q) <==> Writes(s, q));
      assert Writes(s, p) || !Writes(s, p);
      assert Writes(t, p) || !Writes(t, p);
      forall q | 0 <= q < |s.threads|
        ensures Local(t, t.threads[q])
      {
        assert Local(s, s.threads[q]);
        if q != p && Writes(s, p) {
          assert !Writes(s, q);
        }
      }
    }
  }

  lemma {:induction false} InvAlways(n: nat, mem: int, sched: seq<Turn>)
    ensures Inv(Exec(Init(n, mem), sched))
  {
    hide Inv, Step;
    if sched == [] {
      InvInit(n, mem);
    } else {
      var k := |sched| - 1;
      InvAlways(n, mem, sched[..k]);
      InvKept(Exec(Init(n, mem), sched[..k]), sched[k]);
    }
  }

  /** lk->seq is odd exactly while a writer is between lines 73 and 77, and writers
    exclude each other. */
  lemma OddWhileWriting(n: nat, mem: int, sched: seq<Turn>)
    ensures var s := Exec(Init(n, mem), sched);
      && (s.seqno % 2 == 1 <==> exists p :: 0 <= p < n && MidWrite(s.threads[p]))
      && (forall p, q :: Writes(s, p) && Writes(s, q) ==> p == q)
  {
    hide Step, Exec;
    InvAlways(n, mem, sched);
    var s := Exec(Init(n, mem), sched);
    WrapStep(s.version);
    if s.version % 2 == 1 {
      var p :| Writes(s, p);
      assert MidWrite(s.threads[p]);
    }
    forall p | 0 <= p < n && MidWrite(s.threads[p])
      ensures s.version % 2 == 1
    {
      assert Writes(s, p);
    }
  }

  lemma WrapEqual(v: nat, w: nat)
    requires v <= w < v + WRAP && v % WRAP == w % WRAP
    ensures v == w
  {
  }

  /** A read that returns was not overlapped: if fewer than 2^31 writes, that is fewer
    than 2^32 increments, fall into its window, there was none at all since its line
    61, no write was under way, and the value is the one in memory at its return. */
  lemma ConsistentRead(n: nat, mem: int, sched: seq<Turn>, turn: Turn)
    requires var s := Exec(Init(n, mem), sched);
      && turn.p < n && s.threads[turn.p].Line64?
      && Step(s, turn).threads[turn.p].Returned?
      && s.version < s.threads[turn.p].v + WRAP
    ensures var s := Exec(Init(n, mem), sched); var pc := s.threads[turn.p];
      && Step(s, turn).threads[turn.p] == Returned(s.mem, s.version)
      && s.version == pc.v && s.version % 2 == 0
      && (forall p :: 0 <= p < n ==> !MidWrite(s.threads[p]))
  {
    hide Exec;
    InvAlways(n, mem, sched);
    var s := Exec(Init(n, mem), sched);
    var pc := s.threads[turn.p];
    assert Local(s, pc);
    WrapEqual(pc.v, s.version);
    WrapStep(s.version);
    assert forall p :: 0 <= p < n && MidWrite(s.threads[p]) ==> Writes(s, p);
  }

  // ---------------------------------------------------------------------------
  // The bound is exact

  lemma {:induction false} ExecConcat(s: State, a: seq<Turn>, b: seq<Turn>)
    ensures Exec(s, a + b) == Exec(Exec(s, a), b)
  {
    hide Step;
    if b == [] {
      assert a + b == a;
    } else {
      ExecConcat(s, a, b[..|b| - 1]);
      assert (a + b)[..|a + b| - 1] == a + b[..|b| - 1];
    }
  }

  lemma ExecSnoc(s: State, a: seq<Turn>, turn: Turn)
    ensures Exec(s, a + [turn]) == Step(Exec(s, a), turn)
  {
    assert (a + [turn])[..|a|] == a;
  }

  function Turns(turn: Turn, k: nat): (sched: seq<Turn>) {
    seq(k, _ => turn)
  }

  lemma TurnsNext(s: State, turn: Turn, k: nat)
    ensures Exec(s, Turns(turn, k + 1)) == Step(Exec(s, Turns(turn, k)), turn)
  {
    hide Step;
    assert Turns(turn, k + 1) == Turns(turn, k) + [turn];
    ExecSnoc(s, Turns(turn, k), turn);
  }

  /** The state of an undisturbed write between lines 73 and 75. */
  function HalfWritten(s: State, p: nat, val: int): (t: State)
    requires p < |s.threads|
  {
    s.(splk := true, version := s.version + 1, seqno := (s.version + 1) % WRAP,
       threads := s.threads[p := Line75(val)])
  }

  function Written(s: State, val: int, k: nat): (t: State) {
    s.(mem := val, version := s.version + 2 * k, seqno := (s.version + 2 * k) % WRAP)
  }

  lemma FirstHalf(s: State, p: nat, val: int)
    requires p < |s.threads| && s.threads[p] == Idle && !s.splk && s.seqno == s.version % WRAP
    ensures var turn := Turn(p, Write(val));
      Step(Step(Step(Step(s, turn), turn), turn), turn) == HalfWritten(s, p, val)
  {
    var turn := Turn(p, Write(val));
    WrapStep(s.version);
    var s1 := Step(s, turn);
    assert s1 == s.(threads := s.threads[p := Line72(val)]);
    var s2 := Step(s1, turn);
    assert s2 == s.(splk := true, threads := s.threads[p := Line73(val)]);
    var s3 := Step(s2, turn);
    assert s3 == s.(splk := true, threads := s.threads[p := Line73Store(val, s.seqno)]);
  }

  lemma SecondHalf(s: State, p: nat, val: int)
    requires p < |s.threads| && s.threads[p] == Idle && !s.splk && s.seqno == s.version % WRAP
    ensures var turn := Turn(p, Write(val)); var m := HalfWritten(s, p, val);
      Step(Step(Step(Step(m, turn), turn), turn), turn) == Written(s, val, 1)
  {
    var turn := Turn(p, Write(val));
    var m := HalfWritten(s, p, val);
    WrapStep(s.version + 1);
    var s1 := Step(m, turn);
    assert s1 == m.(mem := val, threads := s.threads[p := Line77]);
    var s2 := Step(s1, turn);
    assert s2 == m.(mem := val, threads := s.threads[p := Line77Store(m.seqno)]);
    var s3 := Step(s2, turn);
    assert s3 == Written(s, val, 1).(splk := true, threads := s.threads[p := Line80]);
    assert s.threads[p := Idle] == s.threads;
  }

  /** One undisturbed write. */
  lemma WriteAlone(s: State, p: nat, val: int)
    requires p < |s.threads| && s.threads[p] == Idle && !s.splk && s.seqno == s.version % WRAP
    ensures Exec(s, Turns(Turn(p, Write(val)), 8)) == Written(s, val, 1)
  {
    hide Step;
    var turn := Turn(p, Write(val));
    FourTurns(s, turn);
    FourMore(s, turn);
    FirstHalf(s, p, val);
    SecondHalf(s, p, val);
  }

  lemma FourTurns(s: State, turn: Turn)
    ensures Exec(s, Turns(turn, 4)) == Step(Step(Step(Step(s, turn), turn), turn), turn)
  {
    hide Step;
    TurnsNext(s, turn, 0);
    TurnsNext(s, turn, 1);
    TurnsNext(s, turn, 2);
    TurnsNext(s, turn, 3);
  }

  lemma FourMore(s: State, turn: Turn)
    ensures var m := Exec(s, Turns(turn, 4));
      Exec(s, Turns(turn, 8)) == Step(Step(Step(Step(m, turn), turn), turn), turn)
  {
    hide Step;
    TurnsNext(s, turn, 4);
    TurnsNext(s, turn, 5);
    TurnsNext(s, turn, 6);
    TurnsNext(s, turn, 7);
  }

  lemma {:induction false} WriteMany(s: State, p: nat, val: int, k: nat) returns (sched: seq<Turn>)
    requires p < |s.threads| && s.threads[p] == Idle && !s.splk && s.seqno == s.version % WRAP
    ensures Exec(s, sched) == if k == 0 then s else Written(s, val, k)
  {
    hide Step;
    if k == 0 {
      sched := [];
    } else {
      var a := WriteMany(s, p, val, k - 1);
      var m := Exec(s, a);
      assert m.version == s.version + 2 * (k - 1);
      hide Exec;
      WriteAlone(m, p, val);
      sched := a + Turns(Turn(p, Write(val)), 8);
      ExecConcat(s, a, Turns(Turn(p, Write(val)), 8));
    }
  }

  lemma StartRead(before: int)
    ensures Exec(Init(2, before), Turns(Turn(0, Read), 3))
      == Init(2, before).(threads := [Line64(0, 0, before), Idle])
  {
    var s, read := Init(2, before), Turn(0, Read);
    assert s.threads == [Idle, Idle];
    var s1 := Step(s, read);
    assert s1 == s.(threads := [Line61, Idle]);
    var s2 := Step(s1, read);
    assert s2 == s.(threads := [Line62(0, 0), Idle]);
    var s3 := Step(s2, read);
    assert s3 == s.(threads := [Line64(0, 0, before), Idle]);
    assert Turns(read, 0) == [] && Exec(s, []) == s;
    hide Step, Exec;
    TurnsNext(s, read, 0);
    TurnsNext(s, read, 1);
    TurnsNext(s, read, 2);
  }

  /** With 2^31 writes in its window a read can return a value long overwritten. */
  lemma StaleRead(before: int, val: int)
    ensures exists sched :: var s := Exec(Init(2, before), sched);
      s.threads[0] == Returned(before, 0) && s.mem == val && s.version == WRAP
  {
    hide Exec;
    var s, read := Init(2, before), Turn(0, Read);
    StartRead(before);
    var a := Turns(read, 3);
    var mid := Exec(s, a);
    var b := WriteMany(mid, 1, val, WRAP / 2);
    ExecConcat(s, a, b);
    ExecSnoc(s, a + b, read);
    var late := Written(mid, val, WRAP / 2);
    assert late.seqno == 0 && late.threads[0] == Line64(0, 0, before);
    assert Step(late, read).threads[0] == Returned(before, 0);
    assert Exec(s, a + b + [read]) == Step(late, read);
  }
}
