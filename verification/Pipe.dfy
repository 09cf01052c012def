/** Pipes (pipe.c). Every access to a pipe is made with its lock held, so a run of readers and writers is a
  sequence of critical sections: each method is one, from taking the lock, at the start of a call or on waking, to
  giving it up, by returning or in sleep. */
module Pipe {
  import opened Blocks
  import opened Remainder

  const PIPESIZE := 512

  /** How a critical section ends: the call returns, fails, or sleeps having dealt with done bytes. */
  datatype Outcome = Returned | Failed | Blocked(done: nat)

  /** A pipe without its buffer and counters: what was ever written, how much of it was read, what the readers got,
    and who sleeps. */
  datatype Ideal = Ideal(stored: seq<Byte>, taken: nat, got: seq<Byte>, readopen: bool, writeopen: bool,
                         readers: set<nat>, writers: set<nat>)
  {
    predicate Ok() { taken <= |stored| <= taken + PIPESIZE }

    predicate Full() { |stored| == taken + PIPESIZE }

    predicate Empty() { |stored| == taken }

    /** A reader sleeps only while there is nothing to read and there may be more. */
    predicate ReadersWait() { readers != {} ==> Empty() && writeopen }
  }

  /** The critical sections. */
  datatype Section =
    | Writes(me: nat, addr: seq<Byte>, i: nat, killed: bool)
    | Reads(me: nat, n: nat, killed: bool)
    | ClosesWrite
    | ClosesRead
    | Kills(p: nat)

  /** The process is running, and has bytes left to write. */
  predicate Can(v: Ideal, a: Section) {
    match a
    case Writes(me, addr, i, killed) => i <= |addr| && me !in v.writers
    case Reads(me, n, killed) => me !in v.readers
    case _ => true
  }

  /** How many bytes a reader that asks for n gets. */
  function ReadCount(v: Ideal, n: nat): (m: nat)
    requires v.Ok()
    ensures m <= n && v.taken + m <= |v.stored|
  {
    if n < |v.stored| - v.taken then n else |v.stored| - v.taken
  }

  function Next(v: Ideal, a: Section): (v': Ideal)
    requires v.Ok() && Can(v, a)
    ensures v'.Ok()
  {
    match a
    case Writes(me, addr, i, killed) =>
      var room := v.taken + PIPESIZE - |v.stored|;
      if |addr| - i <= room then v.(stored := v.stored + addr[i..], readers := {})
      else
        var w := v.(stored := v.stored + addr[i..i + room]);
        if killed || !v.readopen then w else w.(readers := {}, writers := v.writers + {me})
    case Reads(me, n, killed) =>
      if v.Empty() && v.writeopen then
        if killed then v else v.(readers := v.readers + {me})
      else
        var m := ReadCount(v, n);
        v.(taken := v.taken + m, got := v.got + v.stored[v.taken..v.taken + m], writers := {})
    case ClosesWrite => v.(writeopen := false, readers := {})
    case ClosesRead => v.(readopen := false, writers := {})
    case Kills(p) => v.(readers := v.readers - {p}, writers := v.writers - {p})
  }

  function Start(): Ideal { Ideal([], 0, [], true, true, {}, {}) }

  /** The state after a run; a section that cannot start is passed over. */
  function Exec(acts: seq<Section>): (v: Ideal)
    ensures v.Ok()
  {
    if acts == [] then Start()
    else
      var v := Exec(acts[..|acts| - 1]);
      if Can(v, acts[|acts| - 1]) then Next(v, acts[|acts| - 1]) else v
  }

  /** In every run of sections, by any number of processes, what the readers got is the first part of what was
    written, in order and without gaps, and a writer sleeps only on a full pipe that is open for reading. */
  lemma {:induction false} Delivered(acts: seq<Section>)
    ensures var v := Exec(acts); v.got == v.stored[..v.taken] && (v.writers != {} ==> v.Full() && v.readopen)
  {
    if acts != [] {
      hide Next, Can;
      Delivered(acts[..|acts| - 1]);
      var v, a := Exec(acts[..|acts| - 1]), acts[|acts| - 1];
      if Can(v, a) {
        DeliveredStep(v, a);
      }
    }
  }

  lemma DeliveredStep(v: Ideal, a: Section)
    requires v.Ok() && Can(v, a) && v.got == v.stored[..v.taken] && (v.writers != {} ==> v.Full() && v.readopen)
    ensures var w := Next(v, a); w.got == w.stored[..w.taken] && (w.writers != {} ==> w.Full() && w.readopen)
  {
    match a
    case Writes(me, addr, i, killed) =>
      var room := v.taken + PIPESIZE - |v.stored|;
      WriteNext(v, me, addr, i, killed, if |addr| - i <= room then |addr| else i + room);
      hide Next;
      assert Next(v, a).stored[..v.taken] == v.stored[..v.taken];
    case Reads(me, n, killed) =>
      if !(v.Empty() && v.writeopen) {
        var m := ReadCount(v, n);
        assert v.stored[..v.taken + m] == v.stored[..v.taken] + v.stored[v.taken..v.taken + m];
      }
    case _ =>
  }

  /** What pipewrite makes of the pipe, by how many bytes it has stored. */
  lemma WriteNext(v: Ideal, me: nat, addr: seq<Byte>, i: nat, killed: bool, done: nat)
    requires v.Ok() && i <= done <= |addr| && me !in v.writers
    ensures var w, next := v.(stored := v.stored + addr[i..done]), Next(v, Writes(me, addr, i, killed));
      && (done == |addr| && w.Ok() ==> next == w.(readers := {}))
      && (done < |addr| && w.Full() ==>
            next == if killed || !v.readopen then w else w.(readers := {}, writers := v.writers + {me}))
  {
  }

  /** A writer fails on a full pipe, killed or without readers, and finds readers asleep. */
  predicate Strands(v: Ideal, a: Section) {
    && a.Writes? && v.readers != {}
    && |a.addr| - a.i > v.taken + PIPESIZE - |v.stored| && (a.killed || !v.readopen)
  }

  /** This is the one section after which a reader sleeps beside bytes that did not before. */
  lemma StrandsExactly(v: Ideal, a: Section)
    requires v.Ok() && Can(v, a) && v.ReadersWait()
    ensures Next(v, a).ReadersWait() <==> !Strands(v, a)
  {
  }

  /** The k-th section of the run strands readers, and one is asleep beside bytes, or without writers, ever since. */
  predicate StrandedSince(acts: seq<Section>, k: nat) {
    && k < |acts| && Can(Exec(acts[..k]), acts[k]) && Strands(Exec(acts[..k]), acts[k])
    && forall j :: k < j <= |acts| ==> !Exec(acts[..j]).ReadersWait()
  }

  /** In every run readers sleep only while there is nothing to read and may be more, unless some section stranded
    them. */
  lemma {:induction false} NoReaderLost(acts: seq<Section>)
    ensures Exec(acts).ReadersWait() <==> !exists k :: StrandedSince(acts, k)
  {
    hide Next, Can, Strands;
    var n := |acts|;
    assert acts[..n] == acts;
    if n > 0 && !Exec(acts).ReadersWait() {
      var rest, v := acts[..n - 1], Exec(acts[..n - 1]);
      NoReaderLost(rest);
      if v.ReadersWait() {
        StrandsExactly(v, acts[n - 1]);
        assert StrandedSince(acts, n - 1);
      } else {
        var k :| StrandedSince(rest, k);
        assert forall j :: 0 <= j < n ==> rest[..j] == acts[..j];
        assert StrandedSince(acts, k);
      }
    }
  }

  lemma ReadNext(v: Ideal, me: nat, n: nat, killed: bool, m: nat)
    requires v.Ok() && me !in v.readers && v.taken + m <= |v.stored| && m <= n
    requires !(v.Empty() && v.writeopen) && (m < n ==> v.taken + m == |v.stored|)
    ensures Next(v, Reads(me, n, killed)) ==
            v.(taken := v.taken + m, got := v.got + v.stored[v.taken..v.taken + m], writers := {})
  {
  }

  lemma ReadWaits(v: Ideal, me: nat, n: nat, killed: bool)
    requires v.Ok() && me !in v.readers && v.Empty() && v.writeopen
    ensures Next(v, Reads(me, n, killed)) == if killed then v else v.(readers := v.readers + {me})
  {
  }

  class Pipe {
    const data: array<Byte>
    var nread: nat
    var nwrite: nat
    var readopen: bool
    var writeopen: bool
    var writers: set<nat>           // asleep on &p->nwrite
    var readers: set<nat>           // asleep on &p->nread
    ghost var stored: seq<Byte>     // all bytes ever written
    ghost var taken: nat            // how many of them have been read
    ghost var got: seq<Byte>        // all bytes ever handed to readers

    ghost function View(): Ideal
      reads this
    {
      Ideal(stored, taken, got, readopen, writeopen, readers, writers)
    }

    /** The counters are those of the history modulo the word size, and the buffer has the bytes in between. */
    ghost predicate Buffered()
      reads this, data
    {
      && data.Length == PIPESIZE && taken <= |stored| <= taken + PIPESIZE
      && nread == taken % WRAP && nwrite == |stored| % WRAP
      && forall k :: taken <= k < |stored| ==> data[k % PIPESIZE] == stored[k]
    }

    ghost predicate Full()
      reads this
    {
      View().Full()
    }

    ghost predicate Empty()
      reads this
    {
      View().Empty()
    }

    ghost predicate Valid()
      reads this, data
    {
      Buffered() && (writers != {} ==> Full() && readopen)
    }

    ghost predicate ReadersWait()
      reads this
    {
      View().ReadersWait()
    }

    constructor ()
      ensures Valid() && fresh(data) && stored == [] && taken == 0 && readopen && writeopen
      ensures readers == {} && writers == {} && View() == Start()
    {
      data := new Byte[PIPESIZE](i => 0);
      nread, nwrite, readopen, writeopen, readers, writers := 0, 0, true, true, {}, {};
      stored, taken, got := [], 0, [];
    }

    /** p->data[p->nwrite++ % PIPESIZE] = b */
    method Store(b: Byte)
      requires Buffered() && !Full()
      modifies `nwrite, `stored, data
      ensures Buffered() && stored == old(stored) + [b]
    {
      Place(|stored|);
      forall k | taken <= k < |stored| ensures k % PIPESIZE != |stored| % PIPESIZE {
        Apart(k, |stored|);
      }
      data[nwrite % PIPESIZE] := b;
      nwrite := (nwrite + 1) % WRAP;
      stored := stored + [b];
    }

    /** b = p->data[p->nread++ % PIPESIZE] */
    method Fetch() returns (b: Byte)
      requires Buffered() && !Empty()
      modifies `nread, `taken
      ensures Buffered() && taken == old(taken) + 1 && b == stored[old(taken)]
    {
      Place(taken);
      b := data[nread % PIPESIZE];
      nread := (nread + 1) % WRAP;
      taken := taken + 1;
    }

    /** One critical section of pipewrite by process me, with bytes i and on still to be written. */
    method Write(me: nat, addr: seq<Byte>, i: nat, killed: bool) returns (r: Outcome, ghost done: nat)
      requires Valid() && i <= |addr| && me !in writers
      modifies `nwrite, `stored, `writers, `readers, data
      ensures View() == Next(old(View()), Writes(me, addr, i, killed))
      ensures Valid() && i <= done <= |addr| && stored == old(stored) + addr[i..done] && taken == old(taken)
      ensures readopen == old(readopen) && writeopen == old(writeopen)
      ensures r == Returned <==> |addr| - i <= old(taken) + PIPESIZE - |old(stored)|
      ensures r == Returned ==> done == |addr| && readers == {} && writers == old(writers)
      ensures r.Blocked? ==>
                && r.done == done < |addr| && Full() && readopen && !killed
                && writers == old(writers) + {me} && readers == {}
      ensures r == Failed ==>
                && done < |addr| && Full() && (killed || !readopen)
                && writers == old(writers) && readers == old(readers)
      ensures r == Failed <==> |addr| - i > old(taken) + PIPESIZE - |old(stored)| && (killed || !old(readopen))
      ensures ReadersWait() <==>
                || old(readers) == {} || |addr| - i <= old(taken) + PIPESIZE - |old(stored)|
                || (old(readopen) && !killed)
    {
      hide Next;
      var j := i;
      done := i;
      while j < |addr|
        invariant i <= j <= |addr| && done == j && Buffered() && stored == old(stored) + addr[i..j]
        invariant taken == old(taken) && readopen == old(readopen) && writeopen == old(writeopen)
        invariant writers == old(writers) && readers == old(readers)
        invariant writers != {} ==> j == i
      {
        Room(taken, |stored|);
        if nwrite == (nread + PIPESIZE) % WRAP {
          WriteNext(old(View()), me, addr, i, killed, done);
          if !readopen || killed {
            return Failed, done;
          }
          readers := {};
          writers := writers + {me};
          return Blocked(j), done;
        }
        Store(addr[j]);
        j, done := j + 1, done + 1;
      }
      WriteNext(old(View()), me, addr, i, killed, done);
      readers := {};
      r := Returned;
    }

    /** The copying loop of piperead. */
    method Copy(n: nat) returns (dst: seq<Byte>)
      requires Buffered()
      modifies `nread, `taken
      ensures Buffered() && taken == old(taken) + |dst| && |dst| <= n && dst == stored[old(taken)..taken]
      ensures |dst| < n ==> Empty()
    {
      dst := [];
      while |dst| < n
        invariant Buffered() && taken == old(taken) + |dst| && |dst| <= n && dst == stored[old(taken)..taken]
      {
        Room(taken, |stored|);
        if nread == nwrite {
          break;
        }
        var b := Fetch();
        dst := dst + [b];
      }
    }

    /** One critical section of piperead by process me. */
    method Read(me: nat, n: nat, killed: bool) returns (r: Outcome, dst: seq<Byte>)
      requires Valid() && me !in readers
      modifies `nread, `taken, `got, `writers, `readers
      ensures View() == Next(old(View()), Reads(me, n, killed))
      ensures Valid() && stored == old(stored) && taken == old(taken) + |dst| && |dst| <= n
      ensures dst == stored[old(taken)..taken]
      ensures readopen == old(readopen) && writeopen == old(writeopen)
      ensures r == Returned ==> writers == {} && readers == old(readers) && (|dst| < n ==> Empty())
      ensures r == Returned && |dst| == 0 < n ==> !writeopen
      ensures r != Returned ==> Empty() && writeopen && dst == [] && writers == old(writers)
      ensures r == Failed ==> killed && readers == old(readers)
      ensures r.Blocked? ==> r.done == 0 && !killed && readers == old(readers) + {me}
      ensures old(ReadersWait()) ==> ReadersWait()
    {
      hide Next;
      Room(taken, |stored|);
      if nread == nwrite && writeopen {
        ReadWaits(View(), me, n, killed);
        if killed {
          return Failed, [];
        }
        readers := readers + {me};
        return Blocked(0), [];
      }
      dst := Copy(n);
      ReadNext(old(View()), me, n, killed, |dst|);
      got := got + dst;
      writers := {};
      r := Returned;
    }

    /** pipeclose of the write end. */
    method CloseWrite()
      requires Valid()
      modifies `writeopen, `readers
      ensures View() == Next(old(View()), ClosesWrite)
      ensures Valid() && !writeopen && readers == {} && ReadersWait()
    {
      writeopen := false;
      readers := {};
    }

    /** pipeclose of the read end. */
    method CloseRead()
      requires Valid()
      modifies `readopen, `writers
      ensures View() == Next(old(View()), ClosesRead)
      ensures Valid() && !readopen && writers == {}
      ensures old(ReadersWait()) ==> ReadersWait()
    {
      readopen := false;
      writers := {};
    }

    /** kill makes a sleeping process runnable. */
    method Kill(p: nat)
      requires Valid()
      modifies `readers, `writers
      ensures View() == Next(old(View()), Kills(p))
      ensures Valid() && readers == old(readers) - {p} && writers == old(writers) - {p}
      ensures old(ReadersWait()) ==> ReadersWait()
    {
      readers, writers := readers - {p}, writers - {p};
    }
  }

  /** The uint counters tell a full pipe from any other, and so an empty one, though they wrap around. */
  lemma Room(taken: nat, total: nat)
    requires taken <= total <= taken + PIPESIZE
    ensures total % WRAP == (taken % WRAP + PIPESIZE) % WRAP <==> total == taken + PIPESIZE
    ensures total % WRAP == taken % WRAP <==> total == taken
  {
  }

  lemma Apart(k: nat, n: nat)
    requires k < n < k + PIPESIZE
    ensures k % PIPESIZE != n % PIPESIZE
  {
  }

  /** A wrapped counter selects the same place in the buffer. */
  lemma Place(total: nat)
    ensures total % WRAP % PIPESIZE == total % PIPESIZE
    ensures (total % WRAP + 1) % WRAP == (total + 1) % WRAP
  {
  }

  /** A killed writer leaves a reader asleep next to a full pipe: the reader sleeps, the writer fills the pipe
    without having woken anyone, and returns. */
  method StrandedReader(addr: seq<Byte>) returns (p: Pipe)
    requires |addr| > PIPESIZE
    ensures p.Valid() && p.readers == {1} && p.Full() && !p.ReadersWait()
  {
    p := new Pipe();
    var r, dst := p.Read(1, 1, false);
    ghost var done;
    r, done := p.Write(2, addr, 0, true);
  }
}
