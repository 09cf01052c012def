/** The token game of frisbee_seq.c: each thread polls the owner through the sequence
  lock and, when it is the owner, advances the pass count and hands the token on,
  without any mutex around the two writes.  One step per access to shared memory. */
module FrisbeeSeq {
  import opened Remainder

  datatype Word = Passes | Owner

  /** The line of frisbee_task, or of the seqlock call it is in, that a thread is
    about to execute, with its locals. */
  datatype Pc =
    | Read61                                     // seqi = lk->seq
    | Read62(seqi: nat)                          // retval = cur_owner
    | Read64(seqi: nat, retval: nat)             // seqf = lk->seq, and the test
    | Task61(owner: nat)                         // cpass = passes, and both tests
    | Task74(owner: nat)                         // read passes for the argument
    | Write72(word: Word, val: nat, owner: nat)  // spin lock
    | Write73(word: Word, val: nat, owner: nat)  // read lk->seq
    | Write73Store(word: Word, val: nat, owner: nat, r: nat)
    | Write75(word: Word, val: nat, owner: nat)  // *mem = val
    | Write77(word: Word, owner: nat)            // read lk->seq
    | Write77Store(word: Word, owner: nat, r: nat)
    | Write80(word: Word, owner: nat)            // drop the spin lock
    | Finished

  datatype State = State(
    seqno: nat,
    splk: bool,
    passes: nat,
    owner: nat,
    threads: seq<Pc>,
    /** History: the thread that made each pass. */
    passed: seq<nat>)

  function Init(n: nat): (s: State) {
    State(0, false, 1, 0, seq(n, _ => Read61), [])
  }

  function Goto(s: State, p: nat, pc: Pc): (t: State)
    requires p < |s.threads|
    ensures |t.threads| == |s.threads|
  {
    s.(threads := s.threads[p := pc])
  }

  /** The write of line 75 to the word the call was given. */
  function StoreWord(s: State, p: nat, word: Word, val: nat): (t: State)
    ensures |t.threads| == |s.threads|
  {
    match word
    case Passes => s.(passes := val, passed := s.passed + [p])
    case Owner => s.(owner := val)
  }

  /** numthreads is the number of threads, maxpass the number of passes asked for. */
  function Step(s: State, maxpass: nat, p: nat): (t: State)
    ensures |t.threads| == |s.threads|
  {
    if p >= |s.threads| then s else
    match s.threads[p]
    case Read61 => Goto(s, p, Read62(s.seqno))
    case Read62(seqi) => Goto(s, p, Read64(seqi, s.owner))
    case Read64(seqi, retval) =>
      if seqi != s.seqno || seqi % 2 == 1 then Goto(s, p, Read61) else Goto(s, p, Task61(retval))
    case Task61(owner) =>
      if s.passes > maxpass then Goto(s, p, Finished)
      else if owner != p then Goto(s, p, Read61)
      else Goto(s, p, Task74(if owner + 1 >= |s.threads| then 0 else owner + 1))
    case Task74(owner) => Goto(s, p, Write72(Passes, (s.passes + 1) % WRAP, owner))
    case Write72(word, val, owner) =>
      if s.splk then s else Goto(s.(splk := true), p, Write73(word, val, owner))
    case Write73(word, val, owner) => Goto(s, p, Write73Store(word, val, owner, s.seqno))
    case Write73Store(word, val, owner, r) =>
      Goto(s.(seqno := (r + 1) % WRAP), p, Write75(word, val, owner))
    case Write75(word, val, owner) => Goto(StoreWord(s, p, word, val), p, Write77(word, owner))
    case Write77(word, owner) => Goto(s, p, Write77Store(word, owner, s.seqno))
    case Write77Store(word, owner, r) => Goto(s.(seqno := (r + 1) % WRAP), p, Write80(word, owner))
    case Write80(word, owner) =>
      Goto(s.(splk := false), p, if word == Passes then Write72(Owner, owner, owner) else Read61)
    case Finished => s
  }

  function Exec(s: State, maxpass: nat, sched: seq<nat>): (t: State)
    ensures |t.threads| == |s.threads|
  {
    if sched == [] then s else Step(Exec(s, maxpass, sched[..|sched| - 1]), maxpass, sched[|sched| - 1])
  }

  // ---------------------------------------------------------------------------
  // The invariant

  /** Past the test of line 64 with the token, before the pass count is written. */
  predicate BeforePass(pc: Pc) {
    match pc
    case Task74(_) => true
    case Write72(word, _, _) => word == Passes
    case Write73(word, _, _) => word == Passes
    case Write73Store(word, _, _, _) => word == Passes
    case Write75(word, _, _) => word == Passes
    case _ => false
  }

  /** The pass count is written, the owner not yet. */
  predicate AfterPass(pc: Pc) {
    match pc
    case Write72(word, _, _) => word == Owner
    case Write73(word, _, _) => word == Owner
    case Write73Store(word, _, _, _) => word == Owner
    case Write75(word, _, _) => word == Owner
    case Write77(word, _) => word == Passes
    case Write77Store(word, _, _) => word == Passes
    case Write80(word, _) => word == Passes
    case _ => false
  }

  predicate Passing(pc: Pc) {
    BeforePass(pc) || AfterPass(pc)
  }

  function After(p: nat, n: nat): (q: nat) {
    if p + 1 >= n then 0 else p + 1
  }

  /** The arguments a thread carries to its writes. */
  predicate Carries(s: State, p: nat, pc: Pc) {
    match pc
    case Task74(o) => o == After(p, |s.threads|)
    case Write72(word, val, o) => o == After(p, |s.threads|) && val == Argument(s, word, o)
    case Write73(word, val, o) => o == After(p, |s.threads|) && val == Argument(s, word, o)
    case Write73Store(word, val, o, _) => o == After(p, |s.threads|) && val == Argument(s, word, o)
    case Write75(word, val, o) => o == After(p, |s.threads|) && val == Argument(s, word, o)
    case Write77(word, o) => o == After(p, |s.threads|)
    case Write77Store(word, o, _) => o == After(p, |s.threads|)
    case Write80(word, o) => o == After(p, |s.threads|)
    case _ => true
  }

  function Argument(s: State, word: Word, o: nat): (val: nat) {
    if word == Passes then (s.passes + 1) % WRAP else o
  }

  /** What a thread at pc knows: a token it has seen stays its own until it passes. */
  predicate Knows(s: State, maxpass: nat, p: int)
    requires 0 <= p < |s.threads|
  {
    var pc := s.threads[p];
    && (pc.Read64? && pc.retval == p ==> s.owner == p)
    && (pc.Task61? && pc.owner == p ==> s.owner == p)
    && (pc == Finished ==> s.passes > maxpass)
    && (BeforePass(pc) ==> s.owner == p && s.passes <= maxpass)
    && (AfterPass(pc) ==> s.owner == p && s.passes >= 2 && p == (s.passes - 2) % |s.threads|)
    && Carries(s, p, pc)
  }

  /** Pass k + 1 was made by thread k mod n. */
  predicate RoundRobin(passed: seq<nat>, n: nat)
    requires n > 0
  {
    forall k :: 0 <= k < |passed| ==> passed[k] == k % n
  }

  ghost predicate Inv(s: State, maxpass: nat) {
    && |s.threads| > 0 && s.owner < |s.threads|
    && 1 <= s.passes <= maxpass + 1 < WRAP
    && |s.passed| == s.passes - 1 && RoundRobin(s.passed, |s.threads|)
    && (forall p :: 0 <= p < |s.threads| ==> Knows(s, maxpass, p))
    && (!AfterPass(s.threads[s.owner]) ==> s.owner == (s.passes - 1) % |s.threads|)
  }

  lemma InvInit(n: nat, maxpass: nat)
    requires n > 0 && maxpass + 1 < WRAP
    ensures Inv(Init(n), maxpass)
  {
    assert 0 % n == 0;
  }

  /** Steps that store neither word. */
  lemma InvLocal(s: State, t: State, maxpass: nat, p: nat)
    requires Inv(s, maxpass) && p < |s.threads| == |t.threads|
    requires t == s.(threads := s.threads[p := t.threads[p]], seqno := t.seqno, splk := t.splk)
    requires AfterPass(t.threads[p]) == AfterPass(s.threads[p])
    requires Knows(t, maxpass, p)
    ensures Inv(t, maxpass)
  {
    forall q | 0 <= q < |s.threads|
      ensures Knows(t, maxpass, q)
    {
      assert Knows(s, maxpass, q);
    }
  }

  lemma InvPass(s: State, t: State, maxpass: nat, p: nat)
    requires Inv(s, maxpass) && p < |s.threads| == |t.threads| && s.threads[p].Write75? && s.threads[p].word == Passes
    requires t == s.(passes := s.threads[p].val, passed := s.passed + [p],
                     threads := s.threads[p := Write77(Passes, s.threads[p].owner)])
    ensures Inv(t, maxpass)
  {
    assert Knows(s, maxpass, p);
    assert s.threads[p].val == s.passes + 1;
    forall q | 0 <= q < |s.threads|
      ensures Knows(t, maxpass, q)
    {
      assert Knows(s, maxpass, q);
    }
  }

  lemma InvHandOver(s: State, t: State, maxpass: nat, p: nat)
    requires Inv(s, maxpass) && p < |s.threads| == |t.threads| && s.threads[p].Write75? && s.threads[p].word == Owner
    requires t == s.(owner := s.threads[p].val,
                     threads := s.threads[p := Write77(Owner, s.threads[p].owner)])
    ensures Inv(t, maxpass)
  {
    assert Knows(s, maxpass, p);
    ModNext(s.passes - 2, |s.threads|);
    forall q | 0 <= q < |s.threads|
      ensures Knows(t, maxpass, q)
    {
      assert Knows(s, maxpass, q);
    }
    assert Knows(s, maxpass, t.owner) && Knows(t, maxpass, t.owner);
  }

  lemma LocalStep(s: State, maxpass: nat, p: nat)
    requires p < |s.threads| && !s.threads[p].Write75? && Knows(s, maxpass, p)
    ensures var t := Step(s, maxpass, p);
      && t == s.(threads := s.threads[p := t.threads[p]], seqno := t.seqno, splk := t.splk)
      && AfterPass(t.threads[p]) == AfterPass(s.threads[p])
      && Knows(t, maxpass, p)
  {
    assert s.threads[p := s.threads[p]] == s.threads;
  }

  lemma InvKept(s: State, maxpass: nat, p: nat)
    requires Inv(s, maxpass)
    ensures Inv(Step(s, maxpass, p), maxpass)
  {
    var t := Step(s, maxpass, p);
    if p < |s.threads| {
      assert Knows(s, maxpass, p);
      if s.threads[p].Write75? {
        if s.threads[p].word == Passes {
          InvPass(s, t, maxpass, p);
        } else {
          InvHandOver(s, t, maxpass, p);
        }
      } else {
        hide Step, Knows;
        LocalStep(s, maxpass, p);
        InvLocal(s, t, maxpass, p);
      }
    }
  }

  lemma {:induction false} InvAlways(n: nat, maxpass: nat, sched: seq<nat>)
    requires n > 0 && maxpass + 1 < WRAP
    ensures Inv(Exec(Init(n), maxpass, sched), maxpass)
  {
    hide Inv, Step;
    if sched == [] {
      InvInit(n, maxpass);
    } else {
      var k := |sched| - 1;
      InvAlways(n, maxpass, sched[..k]);
      InvKept(Exec(Init(n), maxpass, sched[..k]), maxpass, sched[k]);
    }
  }

  /** In every run the k-th pass is made by thread (k - 1) mod numthreads, two threads
    are never passing at once, and a run in which some thread has finished has made
    exactly maxpass passes. */
  lemma TokenRing(n: nat, maxpass: nat, sched: seq<nat>, p: nat, q: nat)
    requires n > 0 && maxpass + 1 < WRAP && p < n && q < n
    ensures var s := Exec(Init(n), maxpass, sched);
      && RoundRobin(s.passed, n) && |s.passed| == s.passes - 1 <= maxpass
      && (s.threads[p] == Finished ==> |s.passed| == maxpass)
      && (Passing(s.threads[p]) && Passing(s.threads[q]) ==> p == q)
  {
    hide Step, Exec;
    InvAlways(n, maxpass, sched);
    var s := Exec(Init(n), maxpass, sched);
    assert Knows(s, maxpass, p) && Knows(s, maxpass, q);
  }

  /** The 32-bit pass count never exceeds a maxpass of 2^32 - 1. */
  ghost predicate Endless(s: State) {
    && s.passes < WRAP
    && forall p :: 0 <= p < |s.threads| ==>
         (&& s.threads[p] != Finished
          && (s.threads[p].Write72? && s.threads[p].word == Passes ==> s.threads[p].val < WRAP)
          && (s.threads[p].Write73? && s.threads[p].word == Passes ==> s.threads[p].val < WRAP)
          && (s.threads[p].Write73Store? && s.threads[p].word == Passes ==> s.threads[p].val < WRAP)
          && (s.threads[p].Write75? && s.threads[p].word == Passes ==> s.threads[p].val < WRAP))
  }

  /** The limit on maxpass is exact: from 2^32 - 1 on no thread ever finishes. */
  lemma {:induction false} NeverFinishes(n: nat, maxpass: nat, sched: seq<nat>)
    requires maxpass + 1 >= WRAP
    ensures Endless(Exec(Init(n), maxpass, sched))
  {
    if sched != [] {
      var k := |sched| - 1;
      NeverFinishes(n, maxpass, sched[..k]);
      var m := Exec(Init(n), maxpass, sched[..k]);
      assert Step(m, maxpass, sched[k]).threads == m.threads
        || (sched[k] < |m.threads| && Step(m, maxpass, sched[k]).threads
              == m.threads[sched[k] := Step(m, maxpass, sched[k]).threads[sched[k]]]);
    }
  }
}
