/** The buffer cache (bio.c). Each method but BRead is one critical section, so a run of the system is any
  sequence of these calls by any processes; the contract of iderw is that of ide.c.

  Buffers are named by their index in bcache.buf; NBUF itself names bcache.head. */
module Bio {
  datatype Key = Key(dev: nat, blockno: nat)
  datatype Buf<D> = Buf(valid: bool, dirty: bool, key: Key, locked: bool, refcnt: nat, data: D)

  // ---- The list ----

  /** Entry k of the list that starts and ends at head. */
  function Ring(order: seq<nat>, head: nat, k: nat): nat
    requires k <= |order| + 1
  {
    if 0 < k <= |order| then order[k - 1] else head
  }

  predicate Linked(next: seq<nat>, prev: seq<nat>, order: seq<nat>, head: nat, k: nat)
    requires k <= |order|
  {
    var a, b := Ring(order, head, k), Ring(order, head, k + 1);
    a < |next| && b < |prev| && next[a] == b && prev[b] == a
  }

  /** next and prev run through head and the buffers of order, each once. */
  ghost predicate Cycle(next: seq<nat>, prev: seq<nat>, order: seq<nat>, head: nat) {
    && |next| == |prev| == head + 1
    && (forall i :: 0 <= i < |order| ==> order[i] < head)
    && (forall i, j :: 0 <= i < j < |order| ==> order[i] != order[j])
    && forall k :: 0 <= k <= |order| ==> Linked(next, prev, order, head, k)
  }

  function Without(order: seq<nat>, i: nat): seq<nat>
    requires i < |order|
  {
    order[..i] + order[i + 1..]
  }

  /** Taking a buffer out of the list. */
  lemma Unlink(next: seq<nat>, prev: seq<nat>, order: seq<nat>, head: nat, i: nat)
    requires Cycle(next, prev, order, head) && i < |order|
    ensures var b := order[i];
            && next[b] <= head && prev[b] <= head && next[b] != b
            && Cycle(next[prev[b] := next[b]], prev[next[b] := prev[b]], Without(order, i), head)
            && b !in Without(order, i)
  {
    var b := order[i];
    assert Linked(next, prev, order, head, i) && Linked(next, prev, order, head, i + 1);
    var next', prev', rest := next[prev[b] := next[b]], prev[next[b] := prev[b]], Without(order, i);
    forall k | 0 <= k <= |rest| ensures Linked(next', prev', rest, head, k) {
      assert Linked(next, prev, order, head, if k < i then k else k + 1);
      assert Ring(rest, head, k) == Ring(order, head, if k <= i then k else k + 1);
      assert Ring(rest, head, k + 1) == Ring(order, head, if k < i then k + 1 else k + 2);
    }
  }

  /** Putting a buffer in at the front. */
  lemma LinkFront(next: seq<nat>, prev: seq<nat>, order: seq<nat>, head: nat, b: nat)
    requires Cycle(next, prev, order, head) && b < head && b !in order
    ensures next[head] <= head
    ensures Cycle(next[b := next[head]][head := b], prev[b := head][next[head] := b], [b] + order, head)
  {
    assert Linked(next, prev, order, head, 0);
    var next', prev', order' := next[b := next[head]][head := b], prev[b := head][next[head] := b], [b] + order;
    forall k | 0 <= k <= |order'| ensures Linked(next', prev', order', head, k) {
      if k > 0 {
        assert Linked(next, prev, order, head, k - 1);
        assert Ring(order', head, k + 1) == Ring(order, head, k);
        assert k > 1 ==> Ring(order', head, k) == Ring(order, head, k - 1);
      }
    }
  }

  // ---- The contents ----

  /** What a buffer's flags promise; a touched buffer has been changed by its holder and not yet stored. */
  ghost predicate BufOk<D>(b: Buf<D>, touched: bool, disk: map<Key, D>, view: map<Key, D>) {
    && (b.dirty ==> b.valid) && (touched ==> b.locked && b.valid) && (b.locked ==> b.refcnt > 0)
    && (b.valid ==> b.key in disk && b.key in view)
    && (b.valid && !touched ==> b.data == view[b.key])
  }

  ghost predicate DirtyCopy<D>(bufs: seq<Buf<D>>, b: int, k: Key) {
    0 <= b < |bufs| && bufs[b].key == k && bufs[b].dirty
  }

  /** view has the last contents stored in each block: those on disk, unless a dirty buffer holds newer ones. */
  ghost predicate Stored<D>(bufs: seq<Buf<D>>, disk: map<Key, D>, view: map<Key, D>) {
    && disk.Keys == view.Keys
    && forall k :: k in disk ==> disk[k] == view[k] || exists b :: DirtyCopy(bufs, b, k)
  }

  /** A buffer that holds nothing and that nobody uses, whatever block it names. */
  predicate Blank<D>(b: Buf<D>) { !b.valid && !b.dirty && b.refcnt == 0 }

  /** Buffers that name the same block: they name block 0 of device 0, as binit leaves them, and all but the
    first on the list are blank. */
  ghost predicate Unique<D>(bufs: seq<Buf<D>>, order: seq<nat>) {
    forall i, j ::
      0 <= i < j < |order| && order[i] < |bufs| && order[j] < |bufs| && bufs[order[i]].key == bufs[order[j]].key ==>
      bufs[order[i]].key == Key(0, 0) && Blank(bufs[order[j]])
  }

  /** No buffer before b on the list names its block. */
  ghost predicate First<D>(bufs: seq<Buf<D>>, order: seq<nat>, b: nat) {
    && b < |bufs|
    && forall i, j :: 0 <= i < j < |order| && order[j] == b && order[i] < |bufs| ==> bufs[order[i]].key != bufs[b].key
  }

  /** The list has every buffer once. */
  ghost predicate Complete(order: seq<nat>, n: nat) {
    && |order| == n && (forall i :: 0 <= i < |order| ==> order[i] < n)
    && (forall i, j :: 0 <= i < j < |order| ==> order[i] != order[j])
    && forall b :: 0 <= b < n ==> b in order
  }

  ghost predicate Consistent<D>(bufs: seq<Buf<D>>, order: seq<nat>, touched: set<nat>, disk: map<Key, D>,
                                view: map<Key, D>)
  {
    && Complete(order, |bufs|) && Unique(bufs, order) && Stored(bufs, disk, view)
    && forall b :: 0 <= b < |bufs| ==> BufOk(bufs[b], b in touched, disk, view)
  }

  /** Two buffers in use never name the same block. */
  lemma UsedOnce<D>(bufs: seq<Buf<D>>, order: seq<nat>, b: nat, c: nat)
    requires Complete(order, |bufs|) && Unique(bufs, order) && b < |bufs| && c < |bufs| && b != c
    requires bufs[b].key == bufs[c].key
    ensures bufs[b].key == Key(0, 0) && (Blank(bufs[b]) || Blank(bufs[c]))
    ensures First(bufs, order, b) ==> Blank(bufs[c])
  {
    assert b in order && c in order;
    var i :| 0 <= i < |order| && order[i] == b;
    var j :| 0 <= j < |order| && order[j] == c;
  }

  lemma UsedFirst<D>(bufs: seq<Buf<D>>, order: seq<nat>, b: nat)
    requires Unique(bufs, order) && b < |bufs| && !Blank(bufs[b])
    ensures First(bufs, order, b)
  {
  }

  /** A clean buffer that nobody uses can be given to a block that is not cached. */
  lemma Recycle<D>(bufs: seq<Buf<D>>, order: seq<nat>, touched: set<nat>, disk: map<Key, D>, view: map<Key, D>, b: nat,
                   k: Key)
    requires Consistent(bufs, order, touched, disk, view) && b < |bufs| && bufs[b].refcnt == 0 && !bufs[b].dirty
    requires forall c :: 0 <= c < |bufs| ==> bufs[c].key != k
    ensures Consistent(bufs[b := Buf(false, false, k, bufs[b].locked, 1, bufs[b].data)], order, touched, disk, view)
  {
    var bufs' := bufs[b := Buf(false, false, k, bufs[b].locked, 1, bufs[b].data)];
    forall j | j in disk && disk[j] != view[j] ensures exists c :: DirtyCopy(bufs', c, j) {
      var c :| DirtyCopy(bufs, c, j);
      assert DirtyCopy(bufs', c, j);
    }
  }

  /** Changing one buffer, without its key, and perhaps what is stored in its block. */
  lemma Update<D>(bufs: seq<Buf<D>>, order: seq<nat>, touched: set<nat>, disk: map<Key, D>, view: map<Key, D>, b: nat,
                  x: Buf<D>, touched': set<nat>, disk': map<Key, D>, view': map<Key, D>)
    requires Consistent(bufs, order, touched, disk, view) && First(bufs, order, b) && x.key == bufs[b].key
    requires BufOk(x, b in touched', disk', view') && disk'.Keys == view'.Keys == disk.Keys
    requires forall c :: c != b ==> (c in touched' <==> c in touched)
    requires forall k :: k in disk && k != x.key ==> disk'[k] == disk[k] && view'[k] == view[k]
    requires x.key in disk ==> x.dirty || disk'[x.key] == view'[x.key]
    ensures Consistent(bufs[b := x], order, touched', disk', view')
  {
    var bufs' := bufs[b := x];
    forall k | k in disk' && disk'[k] != view'[k] ensures exists c :: DirtyCopy(bufs', c, k) {
      if k == x.key {
        assert DirtyCopy(bufs', b, k);
      } else {
        var c :| DirtyCopy(bufs, c, k);
        assert DirtyCopy(bufs', c, k);
      }
    }
    forall c | 0 <= c < |bufs'| ensures BufOk(bufs'[c], c in touched', disk', view') {
      if c != b && bufs[c].key == x.key {
        UsedOnce(bufs, order, b, c);
      }
    }
  }

  lemma Parts<D>(bufs: seq<Buf<D>>, order: seq<nat>, touched: set<nat>, disk: map<Key, D>, view: map<Key, D>, b: nat)
    requires Consistent(bufs, order, touched, disk, view) && b < |bufs|
    requires First(bufs, order, b) || !Blank(bufs[b]) || bufs[b].locked
    ensures First(bufs, order, b) && BufOk(bufs[b], b in touched, disk, view) && disk.Keys == view.Keys
    ensures bufs[b].key in disk && !bufs[b].dirty ==> disk[bufs[b].key] == view[bufs[b].key]
  {
    if !Blank(bufs[b]) {
      UsedFirst(bufs, order, b);
    }
    forall c | DirtyCopy(bufs, c, bufs[b].key) ensures c == b {
      if c != b {
        UsedOnce(bufs, order, b, c);
      }
    }
  }

  lemma Rotated(order: seq<nat>, i: nat, n: nat)
    requires Complete(order, n) && i < |order|
    ensures Complete([order[i]] + Without(order, i), n)
  {
    SplitAt(order, i);
  }

  /** A buffer that was in use moves to the front of the list. */
  lemma Fronted<D>(bufs: seq<Buf<D>>, order: seq<nat>, touched: set<nat>, disk: map<Key, D>, view: map<Key, D>, i: nat)
    requires Consistent(bufs, order, touched, disk, view) && i < |order| && First(bufs, order, order[i])
    ensures Consistent(bufs, [order[i]] + Without(order, i), touched, disk, view)
  {
    var b, rest := order[i], Without(order, i);
    var order' := [b] + rest;
    Rotated(order, i, |bufs|);
    assert forall k :: 0 <= k < |rest| ==> rest[k] == order[if k < i then k else k + 1];
    hide Without, Blank;
    forall j | 0 < j < |order'| && bufs[order'[j]].key == bufs[b].key
      ensures bufs[b].key == Key(0, 0) && Blank(bufs[order'[j]])
    {
      UsedOnce(bufs, order, b, order'[j]);
    }
  }

  lemma FirstStays<D>(bufs: seq<Buf<D>>, order: seq<nat>, b: nat, x: Buf<D>)
    requires First(bufs, order, b) && x.key == bufs[b].key
    ensures First(bufs[b := x], order, b)
  {
  }

  lemma Unlocked<D>(bufs: seq<Buf<D>>, order: seq<nat>, touched: set<nat>, disk: map<Key, D>, view: map<Key, D>, b: nat)
    requires Consistent(bufs, order, touched, disk, view) && b < |bufs| && bufs[b].refcnt == 0
    ensures !bufs[b].locked && b !in touched
  {
  }

  lemma SplitAt(order: seq<nat>, i: nat)
    requires i < |order|
    ensures |Without(order, i)| == |order| - 1
    ensures forall b :: b in order ==> b == order[i] || b in Without(order, i)
  {
    assert order == order[..i] + [order[i]] + order[i + 1..];
  }

  class BufferCache<D> {
    const nbuf: nat
    var bufs: seq<Buf<D>>
    var next: seq<nat>
    var prev: seq<nat>
    var disk: map<Key, D>
    ghost var order: seq<nat>         // the buffers from the most to the least recently used
    ghost var view: map<Key, D>       // the last contents stored in each block
    ghost var touched: set<nat>

    ghost predicate Listed()
      reads this
    {
      |bufs| == |order| == nbuf && Cycle(next, prev, order, nbuf) && forall b :: 0 <= b < nbuf ==> b in order
    }

    ghost predicate Valid()
      reads this
    {
      Listed() && Consistent(bufs, order, touched, disk, view)
    }

    /** binit, for a cache whose buffers are zeroed storage. */
    constructor (n: nat, disk: map<Key, D>, zero: D)
      ensures Valid() && nbuf == n && this.disk == view == disk && touched == {}
      ensures forall b :: 0 <= b < n ==> bufs[b].key == Key(0, 0) && Blank(bufs[b])
    {
      nbuf := n;
      bufs := seq(n, i => Buf(false, false, Key(0, 0), false, 0, zero));
      next, prev := seq(n + 1, i => n), seq(n + 1, i => n);
      this.disk, view, order, touched := disk, disk, [], {};
      new;
      for b := 0 to n
        invariant nbuf == n && |bufs| == n && this.disk == view == disk && touched == {}
        invariant forall c :: 0 <= c < n ==> bufs[c] == Buf(false, false, Key(0, 0), false, 0, zero)
        invariant |order| == b && Cycle(next, prev, order, n) && forall c :: c in order <==> 0 <= c < b
      {
        LinkFront(next, prev, order, n, b);
        next := next[b := next[n]];
        prev := prev[b := n];
        prev := prev[next[n] := b];
        next := next[n := b];
        order := [b] + order;
      }
    }

    /** bget up to the release of bcache.lock: a buffer for block k with a reference to it; nbuf when all
      are in use (the panic of bget). A buffer that is dirty or referred to is not recycled. */
    method BGet(k: Key) returns (b: nat)
      requires Valid()
      modifies `bufs
      ensures Valid() && b <= nbuf
      ensures b == nbuf <==> NoBuffer(old(bufs), k)
      ensures b == nbuf ==> bufs == old(bufs)
      ensures b < nbuf ==> bufs[b].key == k && bufs == old(bufs)[b := bufs[b]]
      ensures b < nbuf && old(bufs)[b].key == k ==>
                First(old(bufs), order, b) && bufs[b] == old(bufs)[b].(refcnt := old(bufs)[b].refcnt + 1)
      ensures b < nbuf && old(bufs)[b].key != k ==>
                && old(bufs)[b].refcnt == 0 && !old(bufs)[b].dirty
                && bufs[b].refcnt == 1 && !bufs[b].valid && !bufs[b].locked
                && (forall c :: 0 <= c < nbuf ==> old(bufs)[c].key != k)
                && exists i :: 0 <= i < nbuf && LeastRecent(old(bufs), order, i, b)
    {
      hide Cycle, Consistent;
      b := Find(k);
      if b != nbuf {
        Parts(bufs, order, touched, disk, view, b);
        Update(bufs, order, touched, disk, view, b, bufs[b].(refcnt := bufs[b].refcnt + 1), touched, disk, view);
        bufs := bufs[b := bufs[b].(refcnt := bufs[b].refcnt + 1)];
        return;
      }
      b := FindUnused();
      if b != nbuf {
        Unlocked(bufs, order, touched, disk, view, b);
        Recycle(bufs, order, touched, disk, view, b, k);
        bufs := bufs[b := Buf(false, false, k, bufs[b].locked, 1, bufs[b].data)];
      }
    }

    /** The first loop of bget. */
    method Find(k: Key) returns (b: nat)
      requires Listed()
      ensures b < nbuf ==> bufs[b].key == k && First(bufs, order, b)
      ensures b >= nbuf ==> b == nbuf && forall c :: 0 <= c < nbuf ==> bufs[c].key != k
    {
      assert Linked(next, prev, order, nbuf, 0);
      b := next[nbuf];
      ghost var i := 0;
      while b != nbuf
        invariant i <= nbuf && b == Ring(order, nbuf, i + 1)
        invariant forall j :: 0 <= j < i ==> bufs[order[j]].key != k
        decreases nbuf - i
      {
        if bufs[b].key == k {
          return;
        }
        assert Linked(next, prev, order, nbuf, i + 1);
        b := next[b];
        i := i + 1;
      }
      forall c | 0 <= c < nbuf ensures bufs[c].key != k {
        assert c in order;
        var j :| 0 <= j < |order| && order[j] == c;
      }
    }

    /** The second loop of bget. */
    method FindUnused() returns (b: nat)
      requires Listed()
      ensures b < nbuf ==> exists i :: 0 <= i < nbuf && LeastRecent(bufs, order, i, b)
      ensures b >= nbuf ==> b == nbuf && forall c :: 0 <= c < nbuf ==> bufs[c].refcnt > 0 || bufs[c].dirty
    {
      assert Linked(next, prev, order, nbuf, nbuf);
      b := prev[nbuf];
      ghost var i := nbuf;
      while b != nbuf
        invariant 0 <= i <= nbuf && b == Ring(order, nbuf, i)
        invariant forall j :: i <= j < nbuf ==> bufs[order[j]].refcnt > 0 || bufs[order[j]].dirty
        decreases i
      {
        if bufs[b].refcnt == 0 && !bufs[b].dirty {
          assert LeastRecent(bufs, order, i - 1, b);
          return;
        }
        assert Linked(next, prev, order, nbuf, i - 1);
        b := prev[b];
        i := i - 1;
      }
      forall c | 0 <= c < nbuf ensures bufs[c].refcnt > 0 || bufs[c].dirty {
        assert c in order;
        var j :| 0 <= j < |order| && order[j] == c;
      }
    }

    /** acquiresleep, which waits for the buffer to be unlocked. */
    method Lock(b: nat)
      requires Valid() && b < nbuf && bufs[b].refcnt > 0 && !bufs[b].locked
      modifies `bufs
      ensures Valid() && bufs == old(bufs)[b := old(bufs)[b].(locked := true)]
    {
      hide Cycle, Consistent;
      Parts(bufs, order, touched, disk, view, b);
      Update(bufs, order, touched, disk, view, b, bufs[b].(locked := true), touched, disk, view);
      bufs := bufs[b := bufs[b].(locked := true)];
    }

    /** The rest of bread: the holder of a buffer has the last contents stored in its block. */
    method ReadIn(b: nat)
      requires Valid() && b < nbuf && bufs[b].locked && b !in touched && bufs[b].key in disk
      modifies `bufs, `disk
      ensures Valid() && disk == old(disk) && bufs == old(bufs)[b := bufs[b]] && bufs[b].valid
      ensures bufs[b] == old(bufs)[b].(valid := true, data := bufs[b].data)
      ensures bufs[b].data == view[bufs[b].key]
    {
      hide Cycle, Consistent;
      Parts(bufs, order, touched, disk, view, b);
      if !bufs[b].valid {
        IdeRw(b);
      }
    }

    /** iderw: a dirty buffer is written to the disk, another is read from it. */
    method IdeRw(b: nat)
      requires Valid() && b < nbuf && bufs[b].locked && bufs[b].key in disk
      requires b !in touched && (bufs[b].valid ==> bufs[b].dirty)
      modifies `bufs, `disk
      ensures Valid() && bufs == old(bufs)[b := bufs[b]]
      ensures old(bufs)[b].dirty ==>
                disk == old(disk)[bufs[b].key := bufs[b].data] && bufs[b] == old(bufs)[b].(dirty := false)
      ensures !old(bufs)[b].dirty ==>
                disk == old(disk) && bufs[b] == old(bufs)[b].(valid := true, data := old(disk[bufs[b].key]))
      ensures disk[bufs[b].key] == view[bufs[b].key] == bufs[b].data
    {
      hide Cycle, Consistent;
      Parts(bufs, order, touched, disk, view, b);
      if bufs[b].dirty {
        Update(bufs, order, touched, disk, view, b, bufs[b].(dirty := false), touched,
               disk[bufs[b].key := bufs[b].data], view);
        disk := disk[bufs[b].key := bufs[b].data];
        bufs := bufs[b := bufs[b].(dirty := false)];
      } else {
        Update(bufs, order, touched, disk, view, b, bufs[b].(valid := true, data := disk[bufs[b].key]), touched, disk,
               view);
        bufs := bufs[b := bufs[b].(valid := true, data := disk[bufs[b].key])];
      }
    }

    /** The holder of a buffer changes its contents, to be stored with LogWrite or BWrite. */
    method Modify(b: nat, d: D)
      requires Valid() && b < nbuf && bufs[b].locked && bufs[b].valid
      modifies `bufs, `touched
      ensures Valid() && bufs == old(bufs)[b := old(bufs)[b].(data := d)] && touched == old(touched) + {b}
    {
      hide Cycle, Consistent;
      Parts(bufs, order, touched, disk, view, b);
      Update(bufs, order, touched, disk, view, b, bufs[b].(data := d), touched + {b}, disk, view);
      bufs, touched := bufs[b := bufs[b].(data := d)], touched + {b};
    }

    /** What log_write does to the buffer: it is pinned in the cache until it is written to the disk. */
    method LogWrite(b: nat)
      requires Valid() && b < nbuf && bufs[b].locked && bufs[b].valid
      modifies `bufs, `touched, `view
      ensures Valid() && bufs == old(bufs)[b := old(bufs)[b].(dirty := true)]
      ensures touched == old(touched) - {b} && view == old(view)[bufs[b].key := bufs[b].data]
    {
      hide Cycle, Consistent;
      Parts(bufs, order, touched, disk, view, b);
      Update(bufs, order, touched, disk, view, b, bufs[b].(dirty := true), touched - {b}, disk,
             view[bufs[b].key := bufs[b].data]);
      view, touched := view[bufs[b].key := bufs[b].data], touched - {b};
      bufs := bufs[b := bufs[b].(dirty := true)];
    }

    /** bwrite: the contents are stored and reach the disk. */
    method BWrite(b: nat)
      requires Valid() && b < nbuf && bufs[b].locked && bufs[b].valid
      modifies `bufs, `touched, `view, `disk
      ensures Valid() && bufs == old(bufs)[b := old(bufs)[b].(dirty := false)] && touched == old(touched) - {b}
      ensures view == old(view)[bufs[b].key := bufs[b].data] && disk == old(disk)[bufs[b].key := bufs[b].data]
    {
      LogWrite(b);
      IdeRw(b);
    }

    /** releasesleep in brelse, by a holder that has stored what it changed. */
    method Unlock(b: nat)
      requires Valid() && b < nbuf && bufs[b].locked && b !in touched
      modifies `bufs
      ensures Valid() && bufs == old(bufs)[b := old(bufs)[b].(locked := false)]
    {
      hide Cycle, Consistent;
      Parts(bufs, order, touched, disk, view, b);
      Update(bufs, order, touched, disk, view, b, bufs[b].(locked := false), touched, disk, view);
      bufs := bufs[b := bufs[b].(locked := false)];
    }

    /** The rest of brelse: the reference goes, and with the last one the buffer becomes the most recently used. */
    method Put(b: nat)
      requires Valid() && b < nbuf && 0 < bufs[b].refcnt && (bufs[b].refcnt == 1 ==> !bufs[b].locked)
      modifies `bufs, `next, `prev, `order
      ensures Valid() && bufs == old(bufs)[b := old(bufs)[b].(refcnt := old(bufs)[b].refcnt - 1)]
      ensures bufs[b].refcnt > 0 ==> order == old(order)
      ensures bufs[b].refcnt == 0 ==>
                exists i :: 0 <= i < nbuf && old(order)[i] == b && order == [b] + Without(old(order), i)
    {
      hide Cycle, Consistent, Without;
      Parts(bufs, order, touched, disk, view, b);
      Update(bufs, order, touched, disk, view, b, bufs[b].(refcnt := bufs[b].refcnt - 1), touched, disk, view);
      FirstStays(bufs, order, b, bufs[b].(refcnt := bufs[b].refcnt - 1));
      bufs := bufs[b := bufs[b].(refcnt := bufs[b].refcnt - 1)];
      if bufs[b].refcnt == 0 {
        ghost var i := MoveToFront(b);
        Fronted(bufs, old(order), touched, disk, view, i);
      }
    }

    method MoveToFront(b: nat) returns (ghost i: nat)
      requires Listed() && b < nbuf
      modifies `next, `prev, `order
      ensures Listed() && i < nbuf && old(order)[i] == b && order == [b] + Without(old(order), i)
    {
      assert b in order;
      i :| i < |order| && order[i] == b;
      hide Cycle;
      Unlink(next, prev, order, nbuf, i);
      SplitAt(order, i);
      prev := prev[next[b] := prev[b]];
      next := next[prev[b] := next[b]];
      LinkFront(next, prev, Without(order, i), nbuf, b);
      next := next[b := next[nbuf]];
      prev := prev[b := nbuf];
      prev := prev[next[nbuf] := b];
      next := next[nbuf := b];
      order := [b] + Without(order, i);
    }

    /** bread: when the buffer is unlocked the caller holds it with the last contents stored in the block; else the
      caller has a reference to it and waits. */
    method BRead(k: Key) returns (b: nat, waiting: bool)
      requires Valid() && k in disk
      modifies `bufs, `disk
      ensures Valid() && b <= nbuf && disk == old(disk)
      ensures b == nbuf <==> NoBuffer(old(bufs), k)
      ensures b == nbuf ==> bufs == old(bufs) && !waiting
      ensures b < nbuf ==> bufs[b].key == k && bufs[b].locked && bufs == old(bufs)[b := bufs[b]]
      ensures b < nbuf && old(bufs)[b].key == k ==>
                && First(old(bufs), order, b) && bufs[b].refcnt == old(bufs)[b].refcnt + 1
                && bufs[b].dirty == old(bufs)[b].dirty
      ensures b < nbuf && old(bufs)[b].key != k ==>
                && bufs[b].refcnt == 1 && !bufs[b].dirty
                && exists i :: 0 <= i < nbuf && LeastRecent(old(bufs), order, i, b)
      ensures b < nbuf ==> (waiting <==> old(bufs)[b].key == k && old(bufs)[b].locked)
      ensures b < nbuf && !waiting ==> bufs[b].valid && bufs[b].data == view[k]
      ensures waiting ==> bufs[b] == old(bufs)[b].(refcnt := old(bufs)[b].refcnt + 1)
    {
      hide Cycle, Consistent;
      b := BGet(k);
      waiting := b < nbuf && bufs[b].locked;
      if b < nbuf && !waiting {
        Parts(bufs, order, touched, disk, view, b);
        Lock(b);
        ReadIn(b);
      }
    }
  }

  /** binit leaves every buffer naming block 0 of device 0: that block is named more than once. */
  method Duplicates<D>(n: nat, disk: map<Key, D>, zero: D) returns (c: BufferCache<D>)
    requires 2 <= n
    ensures c.Valid() && c.nbuf == n && c.bufs[0].key == c.bufs[1].key == Key(0, 0)
  {
    c := new BufferCache(n, disk, zero);
  }

  /** No buffer names block k, and all are in use: the panic of bget. */
  predicate NoBuffer<D>(bufs: seq<Buf<D>>, k: Key) {
    forall c :: 0 <= c < |bufs| ==> bufs[c].key != k && (bufs[c].refcnt > 0 || bufs[c].dirty)
  }

  /** Buffer b is at place i of the list, unused and clean, and every buffer after it is not. */
  ghost predicate LeastRecent<D>(bufs: seq<Buf<D>>, order: seq<nat>, i: nat, b: nat) {
    && i < |order| && order[i] == b && b < |bufs| && bufs[b].refcnt == 0 && !bufs[b].dirty
    && forall j :: i < j < |order| && order[j] < |bufs| ==> bufs[order[j]].refcnt > 0 || bufs[order[j]].dirty
  }
}
