/** Writing to a file in pieces that each fit a log transaction (file.c). */
module File {
  import opened Blocks
  import opened Fs
  import LogSystem
  import RedoLog

  const CHUNK := (RedoLog.MAXOPBLOCKS - 1 - 1 - 2) / 2 * 512

  // ---- How many blocks one piece logs ----

  lemma SevenAtMost(a: nat, b: nat, c: nat, d: nat, e: nat, f: nat, g: nat)
    ensures |{a, b, c, d, e, f, g}| <= 7
  {
  }

  /** A piece touches at most four data blocks, wherever it starts; with the indirect block, the free map
    and the inode that makes seven. */
  lemma SevenBlocks(blk: Store, ino: Inode, off: nat, end: nat, logged: set<nat>, bitmap: nat, inode: nat)
    requires off <= end <= off + CHUNK
    requires forall b :: b in logged ==> b == inode || b == bitmap || Touched(blk, ino, off, end, b)
    ensures |logged| <= 7
  {
    hide Slot;
    var q := off / BSIZE;
    var ind: nat := ino.addrs[NDIRECT];
    var b0, b1, b2, b3 := Slot(blk, ino, q), Slot(blk, ino, q + 1), Slot(blk, ino, q + 2), Slot(blk, ino, q + 3);
    var all := {inode, bitmap, ind, b0, b1, b2, b3};
    forall b | b in logged ensures b in all {
      if Touched(blk, ino, off, end, b) && b != ino.addrs[NDIRECT] {
        var bn: nat :| off / BSIZE <= bn && bn * BSIZE < end && Slot(blk, ino, bn) == b;
        assert bn in {q, q + 1, q + 2, q + 3};
      }
    }
    LogSystem.SubsetSize(logged, all);
    SevenAtMost(inode, bitmap, ind, b0, b1, b2, b3);
  }

  /** Operations that log at most seven blocks each never make the log too big or outgrow it, in any run. */
  lemma SevenFit(c: LogSystem.Config, d: RedoLog.Disk, nprocs: nat, acts: seq<LogSystem.Action>)
    requires RedoLog.LOGSIZE <= c.g.size
    requires LogSystem.Exec(c, LogSystem.Boot(d, nprocs), acts).Some?
    requires LogSystem.Modest(c, LogSystem.Boot(d, nprocs), acts, 7)
    ensures LogSystem.Exec(c, LogSystem.Boot(d, nprocs), acts).value.panic == LogSystem.NoPanic
    ensures LogSystem.Within(c, LogSystem.Boot(d, nprocs), acts)
  {
    hide LogSystem.Exec, LogSystem.Modest, LogSystem.Within;
    LogSystem.ModestFits(c, d, nprocs, acts, 7);
    LogSystem.ModestWithin(c, d, nprocs, acts, 7);
  }

  // ---- filewrite ----

  /** Writing s and then t after it is writing s + t. */
  lemma OverwriteTwice(c: seq<Byte>, off: nat, s: seq<Byte>, t: seq<Byte>)
    requires off <= |c|
    ensures off + |s| <= |Overwrite(c, off, s)|
    ensures Overwrite(Overwrite(c, off, s), off + |s|, t) == Overwrite(c, off, s + t)
  {
  }

  class OpenFile {
    const writable: bool
    const inum: nat
    var off: nat
  }

  /** File i has the bytes of s from off on, and every file is otherwise as it was. */
  ghost predicate FileWritten(blk0: Store, inodes0: Inodes, blk: Store, inodes: Inodes, i: nat, off: nat,
                              s: seq<Byte>)
  {
    && inodes.Keys == inodes0.Keys && (s != [] ==> i in inodes0 && off <= inodes0[i].size)
    && forall j :: j in inodes0 ==>
         Content(blk, inodes[j]) ==
           if j == i && s != [] then Overwrite(Content(blk0, inodes0[i]), off, s) else Content(blk0, inodes0[j])
  }

  lemma FileWrittenMore(blk0: Store, inodes0: Inodes, blk1: Store, inodes1: Inodes, blk: Store, inodes: Inodes,
                        i: nat, off: nat, s: seq<Byte>, t: seq<Byte>)
    requires i in inodes0 && FileWritten(blk0, inodes0, blk1, inodes1, i, off, s) && t != []
    requires inodes.Keys == inodes1.Keys && off + |s| <= inodes1[i].size
    requires forall j :: j in inodes1 ==>
               Content(blk, inodes[j]) ==
                 if j == i then Overwrite(Content(blk1, inodes1[i]), off + |s|, t) else Content(blk1, inodes1[j])
    ensures FileWritten(blk0, inodes0, blk, inodes, i, off, s + t)
  {
    hide Content, Overwrite;
    if s != [] {
      OverwriteTwice(Content(blk0, inodes0[i]), off, s, t);
    } else {
      assert s + t == t && Content(blk1, inodes1[i]) == Content(blk0, inodes0[i]);
    }
  }

  // ---- The transactions of a write ----

  /** The transactions lead from a to b, one after the other. */
  ghost predicate Chained(a: Image, ts: seq<Transaction>, b: Image) {
    && (ts == [] ==> a == b)
    && (ts != [] ==> ts[0].before == a && ts[|ts| - 1].after == b)
    && forall k :: 0 < k < |ts| ==> ts[k].before == ts[k - 1].after
  }

  /** Each of the transactions has logged every block it changed. */
  ghost predicate AllCovered(l: Layout, ts: seq<Transaction>) {
    forall k :: 0 <= k < |ts| ==> Covered(l, ts[k].before, ts[k].after, ts[k].logged)
  }

  ghost predicate AllSmall(ts: seq<Transaction>) {
    forall k :: 0 <= k < |ts| ==> |ts[k].logged| <= 7
  }

  /** How many pieces n bytes make. */
  function Pieces(n: nat): nat { (n + CHUNK - 1) / CHUNK }

  /** How many of them are whole. */
  function Whole(n: nat): nat { n / CHUNK }

  /** The bytes written by the first k pieces of a write of which n bytes are written. */
  function Upto(k: nat, n: nat): (m: nat)
    ensures m <= n
  {
    if k * CHUNK < n then k * CHUNK else n
  }

  /** After transaction k the file on disk has the bytes of the pieces up to k, and every other file is as it was. */
  ghost predicate Prefixes(start: Image, ts: seq<Transaction>, i: nat, off: nat, s: seq<Byte>) {
    forall k :: 0 <= k < |ts| ==>
      FileWritten(start.blk, start.dinodes, ts[k].after.blk, ts[k].after.dinodes, i, off, s[..Upto(k + 1, |s|)])
  }

  lemma MorePrefixes(start: Image, ts: seq<Transaction>, t: Transaction, i: nat, off: nat, s: seq<Byte>, s': seq<Byte>)
    requires Prefixes(start, ts, i, off, s) && s <= s' && |s| == Upto(|ts|, |s'|)
    requires |s'| <= (|ts| + 1) * CHUNK
    requires FileWritten(start.blk, start.dinodes, t.after.blk, t.after.dinodes, i, off, s')
    ensures Prefixes(start, ts + [t], i, off, s')
  {
    hide FileWritten;
    var ts' := ts + [t];
    forall k | 0 <= k < |ts'|
      ensures FileWritten(start.blk, start.dinodes, ts'[k].after.blk, ts'[k].after.dinodes, i, off,
                          s'[..Upto(k + 1, |s'|)])
    {
      if k < |ts| {
        assert Upto(k + 1, |s'|) == Upto(k + 1, |s|);
        assert s'[..Upto(k + 1, |s'|)] == s[..Upto(k + 1, |s|)];
      } else {
        assert s'[..|s'|] == s';
      }
    }
  }

  /** The transactions lead from a to b, and each has logged what it changed: at most seven blocks, if the free map
    is one block. */
  ghost predicate Sound(l: Layout, small: bool, a: Image, ts: seq<Transaction>, b: Image) {
    Chained(a, ts, b) && AllCovered(l, ts) && (small ==> AllSmall(ts))
  }

  lemma MoreTransactions(l: Layout, small: bool, a: Image, ts: seq<Transaction>, t: Transaction)
    requires Sound(l, small, a, ts, t.before) && Covered(l, t.before, t.after, t.logged)
    requires small ==> |t.logged| <= 7
    ensures Sound(l, small, a, ts + [t], t.after)
  {
    hide Covered;
  }

  lemma NoTransactions(l: Layout, small: bool, a: Image)
    ensures Sound(l, small, a, [], a)
  {
  }

  /** Piece k starts after k whole pieces. */
  lemma PieceAt(k: nat, n: nat)
    requires Upto(k, n) < n
    ensures Upto(k, n) == k * CHUNK && Whole(Upto(k, n)) == k
    ensures Upto(k + 1, n) == Upto(k, n) + Piece(n - Upto(k, n)) && Upto(k + 1, n) <= (k + 1) * CHUNK
    ensures Pieces(Upto(k + 1, n)) == k + 1
  {
    Quotient(Upto(k, n), k);
    Quotient(Upto(k + 1, n) + CHUNK - 1, k + 1);
  }

  lemma Quotient(m: nat, k: nat)
    requires k * 1536 <= m < k * 1536 + 1536
    ensures CHUNK == 1536 && m / CHUNK == k
  {
  }

  /** The bytes of the pieces before the first that goes past the largest size. */
  function Tried(off: nat, n: nat): nat {
    if off + n <= MAXFILE * BSIZE then n
    else if off <= MAXFILE * BSIZE then (MAXFILE * BSIZE - off) / CHUNK * CHUNK
    else 0
  }

  lemma TriedAll(off: nat, n: nat)
    ensures off + n <= MAXFILE * BSIZE ==> Tried(off, n) == n
  {
  }

  lemma SizeFits(fs: FileSystem, i: nat)
    requires fs.Valid() && i in fs.inodes
    ensures fs.inodes[i].size <= MAXFILE * BSIZE
  {
    SizeBound(fs.blk, fs.inodes, i);
  }

  lemma TriedPiece(off: nat, n: nat, k: nat)
    requires Upto(k, n) < n && off + Upto(k, n) <= MAXFILE * BSIZE
    ensures var i := Upto(k, n); var n1 := Piece(n - i);
            if off + i + n1 <= MAXFILE * BSIZE then i + n1 <= Tried(off, n) else Tried(off, n) == i
  {
    PieceAt(k, n);
    var i := Upto(k, n);
    var n1 := Piece(n - i);
    if off + n > MAXFILE * BSIZE && off + i + n1 <= MAXFILE * BSIZE {
      assert n1 == CHUNK;
      Quotient(MAXFILE * BSIZE - off, (MAXFILE * BSIZE - off) / CHUNK);
    } else if off + i + n1 > MAXFILE * BSIZE {
      Quotient(MAXFILE * BSIZE - off, k);
    }
  }

  /** Writes addr at the file's offset, one transaction per piece; ts lists the transactions. */
  method FileWrite(fs: FileSystem, f: OpenFile, addr: seq<Byte>)
    returns (r: int, panicked: bool, ghost ts: seq<Transaction>)
    requires fs.Valid() && f.inum in fs.inodes && f.off < 0x1_0000_0000 && |addr| < 0x8000_0000
    modifies fs, f
    ensures panicked ==> fs.NoneFree()
    ensures panicked <==>
              && f.writable && old(f.off <= fs.inodes[f.inum].size)
              && Room(old(fs.own)) < Needed(old(fs.blk), old(fs.inodes)[f.inum], old(f.off),
                                            old(f.off) + Tried(old(f.off), |addr|))
    ensures !panicked ==>
              f.off == old(f.off) + if f.writable && old(f.off <= fs.inodes[f.inum].size) then Tried(old(f.off), |addr|)
                                    else 0
    ensures !panicked ==> fs.Valid() && old(f.off) <= f.off <= old(f.off) + |addr|
    ensures !panicked ==>
              FileWritten(old(fs.blk), old(fs.inodes), fs.blk, fs.inodes, f.inum, old(f.off),
                          addr[..f.off - old(f.off)])
    ensures !panicked && r != -1 ==> r == |addr| && f.off == old(f.off) + |addr|
    ensures !panicked && r == -1 && f.writable ==>
              || f.off > fs.inodes[f.inum].size
              || f.off + Piece(|addr| - (f.off - old(f.off))) > MAXFILE * BSIZE
    ensures !f.writable ==> r == -1 && f.off == old(f.off)
    ensures !panicked && old(fs.dinodes == fs.inodes) ==> fs.dinodes == fs.inodes
    ensures !panicked ==> fs.ops == old(fs.ops) + ts
    ensures !panicked ==> Sound(fs.Place(), fs.size <= BPB, old(fs.Now()), ts, fs.Now())
    ensures !panicked ==> |ts| == if !f.writable then 0 else if r != -1 then Pieces(|addr|)
                                  else Whole(f.off - old(f.off)) + 1
    ensures !panicked && old(fs.dinodes == fs.inodes) ==>
              Prefixes(old(fs.Now()), ts, f.inum, old(f.off), addr[..f.off - old(f.off)])
  {
    hide Content, Overwrite, FileWritten, Prefixes, Sound, Piece, Pieces, Whole, Tried, Room, Needed, Paid,
         FileSystem.Valid, FileSystem.NoneFree, FileSystem.Place;
    r, panicked, ts := -1, false, [];
    ghost var start := Start(fs.Now(), fs.inodes, fs.own, f.off, fs.ops);
    if !f.writable {
      WrittenNothing(fs.blk, fs.inodes, f.inum, f.off);
      LoggedNothing(start, fs.Place(), fs.size <= BPB, f.inum);
      assert addr[..0] == [];
      return;
    }
    var i;
    i, panicked, ts := WritePieces(fs, f, addr, start);
    r := if i == |addr| then i else -1;
  }

  /** What a call of filewrite starts from. */
  datatype Start = Start(now: Image, inodes: Inodes, own: Owners, off: nat, ops: seq<Transaction>)

  /** The call has written the bytes s to file i, and the blocks they need are all it has taken. */
  ghost predicate Written(start: Start, fs: FileSystem, i: nat, s: seq<Byte>)
    reads fs
  {
    && i in start.inodes && i in fs.inodes
    && FileWritten(start.now.blk, start.inodes, fs.blk, fs.inodes, i, start.off, s)
    && Paid(start.now.blk, start.inodes[i], start.own, fs.blk, fs.inodes[i], fs.own, start.off, start.off + |s|)
  }

  /** The call has written them in the transactions ts. */
  ghost predicate Logged(start: Start, l: Layout, small: bool, now: Image, inodes: Inodes, ops: seq<Transaction>,
                         i: nat, s: seq<Byte>, ts: seq<Transaction>)
  {
    && ops == start.ops + ts && Sound(l, small, start.now, ts, now)
    && (start.now.dinodes == start.inodes ==> now.dinodes == inodes && Prefixes(start.now, ts, i, start.off, s))
  }

  ghost predicate LoggedIn(start: Start, fs: FileSystem, i: nat, s: seq<Byte>, ts: seq<Transaction>)
    reads fs
  {
    Logged(start, fs.Place(), fs.size <= BPB, fs.Now(), fs.inodes, fs.ops, i, s, ts)
  }

  lemma LoggedMore(start: Start, l: Layout, small: bool, inodes1: Inodes, ops1: seq<Transaction>, inodes: Inodes,
                   i: nat, s: seq<Byte>, s': seq<Byte>, ts: seq<Transaction>, t: Transaction)
    requires Logged(start, l, small, t.before, inodes1, ops1, i, s, ts)
    requires Covered(l, t.before, t.after, t.logged) && (small ==> |t.logged| <= 7)
    requires t.before.dinodes == inodes1 ==> t.after.dinodes == inodes
    requires s <= s' && |s| == Upto(|ts|, |s'|) && |s'| <= (|ts| + 1) * CHUNK
    requires FileWritten(start.now.blk, start.inodes, t.after.blk, inodes, i, start.off, s')
    ensures Logged(start, l, small, t.after, inodes, ops1 + [t], i, s', ts + [t])
  {
    hide FileWritten, Covered, Sound, Prefixes, Upto;
    MoreTransactions(l, small, start.now, ts, t);
    if start.now.dinodes == start.inodes {
      MorePrefixes(start.now, ts, t, i, start.off, s, s');
    }
    assert start.ops + ts + [t] == start.ops + (ts + [t]);
  }

  lemma LoggedNothing(start: Start, l: Layout, small: bool, i: nat)
    ensures Logged(start, l, small, start.now, start.inodes, start.ops, i, [], [])
  {
    hide Sound, Prefixes;
    NoTransactions(l, small, start.now);
    NoPrefixes(start.now, i, start.off, []);
  }

  /** The loop of filewrite, which writes the first i bytes. */
  method WritePieces(fs: FileSystem, f: OpenFile, addr: seq<Byte>, ghost start: Start)
    returns (i: nat, panicked: bool, ghost ts: seq<Transaction>)
    requires fs.Valid() && f.inum in fs.inodes && f.off < 0x1_0000_0000 && |addr| < 0x8000_0000
    requires start == Start(fs.Now(), fs.inodes, fs.own, f.off, fs.ops)
    modifies fs, f
    ensures panicked ==> fs.NoneFree()
    ensures panicked <==>
              && start.off <= start.inodes[f.inum].size
              && Room(start.own) < Needed(start.now.blk, start.inodes[f.inum], start.off,
                                          start.off + Tried(start.off, |addr|))
    ensures !panicked ==> fs.Valid() && i <= |addr| && f.off == start.off + i
    ensures !panicked ==> i == if start.off <= start.inodes[f.inum].size then Tried(start.off, |addr|) else 0
    ensures !panicked ==> Written(start, fs, f.inum, addr[..i]) && LoggedIn(start, fs, f.inum, addr[..i], ts)
    ensures !panicked && i < |addr| ==>
              f.off > fs.inodes[f.inum].size || f.off + Piece(|addr| - i) > MAXFILE * BSIZE
    ensures !panicked ==> |ts| == if i == |addr| then Pieces(i) else Whole(i) + 1
  {
    hide Content, FileWritten, Logged, Upto, Piece, Pieces, Whole, Tried, Room, Needed, Paid,
         FileSystem.Valid, FileSystem.NoneFree, FileSystem.Place;
    panicked, ts := false, [];
    WrittenNothing(fs.blk, fs.inodes, f.inum, f.off);
    PaidNothing(fs.blk, fs.inodes[f.inum], fs.own, f.off);
    LoggedNothing(start, fs.Place(), fs.size <= BPB, f.inum);
    assert addr[..0] == [];
    var n := |addr|;
    UptoNone(n);
    i := 0;
    while i < n
      invariant fs.Valid() && f.inum in fs.inodes && f.off < 0x1_0000_0000
      invariant 0 <= i <= n && f.off == start.off + i && i == Upto(|ts|, n) && |ts| == Pieces(i)
      invariant Written(start, fs, f.inum, addr[..i]) && LoggedIn(start, fs, f.inum, addr[..i], ts)
      invariant if start.off <= start.inodes[f.inum].size then f.off <= fs.inodes[f.inum].size
                else i == 0 && fs.inodes == start.inodes
    {
      var n1 := Piece(n - i);
      ghost var t;
      var r;
      PieceAt(|ts|, n);
      SizeFits(fs, f.inum);
      if f.off <= fs.inodes[f.inum].size {
        TriedPiece(start.off, n, |ts|);
      }
      r, panicked, t := NextPiece(fs, f, addr, i, n1, start, ts);
      if panicked {
        NeededGrows(start.now.blk, start.inodes[f.inum], start.off, start.off + i + n1,
                    start.off + Tried(start.off, n));
        return;
      }
      ts := ts + [t];
      if r < 0 {
        break;
      }
      if r != n1 {
        assert false;
      }
      i := i + r;
    }
    SizeFits(fs, f.inum);
    TriedAll(start.off, n);
    PaidEnough(start.now.blk, start.inodes[f.inum], start.own, fs.blk, fs.inodes[f.inum], fs.own, start.off, f.off);
  }

  /** One turn of the loop of filewrite, after i bytes of addr. */
  method NextPiece(fs: FileSystem, f: OpenFile, addr: seq<Byte>, i: nat, n1: nat,
                   ghost start: Start, ghost ts: seq<Transaction>)
    returns (r: int, panicked: bool, ghost t: Transaction)
    requires fs.Valid() && f.inum in fs.inodes && f.off < 0x1_0000_0000 && |addr| < 0x8000_0000
    requires i == |ts| * CHUNK && 0 < n1 <= CHUNK && i + n1 <= |addr| && f.off == start.off + i
    requires Written(start, fs, f.inum, addr[..i]) && LoggedIn(start, fs, f.inum, addr[..i], ts)
    modifies fs, f
    ensures panicked ==> fs.NoneFree()
    ensures panicked ==>
              && old(f.off <= fs.inodes[f.inum].size) && old(f.off) + n1 <= MAXFILE * BSIZE
              && Room(start.own) < Needed(start.now.blk, start.inodes[f.inum], start.off, old(f.off) + n1)
    ensures !panicked ==> fs.Valid() && f.off < 0x1_0000_0000
    ensures !panicked ==> (r == n1 || r == -1) && f.off == old(f.off) + (if r == -1 then 0 else n1)
    ensures !panicked ==>
              (r == -1 <==> old(f.off > fs.inodes[f.inum].size) || old(f.off) + n1 > MAXFILE * BSIZE)
    ensures !panicked ==>
              && Written(start, fs, f.inum, addr[..f.off - start.off])
              && LoggedIn(start, fs, f.inum, addr[..f.off - start.off], ts + [t])
    ensures !panicked ==> if r == -1 then fs.inodes == old(fs.inodes) else f.off <= fs.inodes[f.inum].size
  {
    hide Content, Overwrite, Covered, Room, Needed, Paid, FileWritten, Logged, Upto, FileSystem.Valid,
         FileSystem.NoneFree, FileSystem.Place;
    ghost var blk1, inodes1, own1, off, ops1 := fs.blk, fs.inodes, fs.own, f.off, fs.ops;
    r, panicked, t := WritePiece(fs, f, addr[i..i + n1]);
    if panicked {
      PaidShort(start.now.blk, start.inodes[f.inum], start.own, blk1, inodes1[f.inum], own1, start.off, off, off + n1,
                off + n1);
      return;
    }
    PaidMore(start.now.blk, start.inodes[f.inum], start.own, blk1, inodes1[f.inum], own1,
             fs.blk, fs.inodes[f.inum], fs.own, start.off, off, f.off);
    if r != -1 {
      FileWrittenMore(start.now.blk, start.inodes, blk1, inodes1, fs.blk, fs.inodes, f.inum, start.off, addr[..i],
                      addr[i..i + n1]);
      assert addr[..i] + addr[i..i + n1] == addr[..i + n1];
    }
    UptoWhole(|ts|, f.off - start.off);
    LoggedMore(start, fs.Place(), fs.size <= BPB, inodes1, ops1, fs.inodes, f.inum, addr[..i],
               addr[..f.off - start.off], ts, t);
  }

  /** Begin_op, writei, end_op. The offset moves only when bytes were written. */
  method WritePiece(fs: FileSystem, f: OpenFile, bytes: seq<Byte>)
    returns (r: int, panicked: bool, ghost t: Transaction)
    requires fs.Valid() && f.inum in fs.inodes && f.off < 0x1_0000_0000 && 0 < |bytes| <= CHUNK
    modifies fs, f
    ensures panicked ==> fs.NoneFree()
    ensures panicked <==>
              && old(f.off <= fs.inodes[f.inum].size) && old(f.off) + |bytes| <= MAXFILE * BSIZE
              && Room(old(fs.own)) < Needed(old(fs.blk), old(fs.inodes)[f.inum], old(f.off), old(f.off) + |bytes|)
    ensures !panicked ==> fs.Valid() && fs.inodes.Keys == old(fs.inodes).Keys && f.off < 0x1_0000_0000
    ensures !panicked ==> (r == |bytes| || r == -1) && f.off == old(f.off) + (if r == -1 then 0 else |bytes|)
    ensures !panicked ==>
              (r == -1 <==> old(f.off > fs.inodes[f.inum].size) || old(f.off) + |bytes| > MAXFILE * BSIZE)
    ensures !panicked && r == -1 ==> fs.Now() == old(fs.Now()) && fs.inodes == old(fs.inodes)
    ensures !panicked && r != -1 ==> f.off <= fs.inodes[f.inum].size
    ensures !panicked && r != -1 ==> forall j :: j in fs.inodes ==>
              Content(fs.blk, fs.inodes[j]) ==
                if j == f.inum then Overwrite(old(Content(fs.blk, fs.inodes[f.inum])), old(f.off), bytes)
                else Content(old(fs.blk), old(fs.inodes)[j])
    ensures !panicked ==>
              Paid(old(fs.blk), old(fs.inodes)[f.inum], old(fs.own), fs.blk, fs.inodes[f.inum], fs.own,
                   old(f.off), f.off)
    ensures !panicked && old(fs.dinodes == fs.inodes) ==> fs.dinodes == fs.inodes
    ensures !panicked ==> fs.ops == old(fs.ops) + [t] && t.before == old(fs.Now()) && t.after == fs.Now()
    ensures !panicked ==> Covered(fs.Place(), t.before, t.after, t.logged) && (fs.size <= BPB ==> |t.logged| <= 7)
  {
    hide Content, Overwrite, Touched, Dying, Mapped, Complete, Recorded, Covered, Room, Needed, Paid;
    ghost var blk1, ino1, off := fs.blk, fs.inodes[f.inum], f.off;
    PaidNothing(blk1, ino1, fs.own, off);
    fs.BeginOp();
    r, panicked := fs.WriteI(f.inum, bytes, f.off);
    t := Transaction(fs.begun, fs.Now(), fs.logged);
    if panicked {
      return;
    }
    if r > 0 {
      f.off := f.off + r;
      OverwriteTwice(Content(blk1, ino1), off, bytes, []);
    }
    fs.EndOp();
    if fs.size <= BPB {
      PieceFits(fs, f.inum, off, off + |bytes|, r);
    }
  }

  ghost function LoggedBy(ts: seq<Transaction>): (plan: seq<set<int>>)
    ensures |plan| == |ts| && forall k :: 0 <= k < |ts| ==> plan[k] == ts[k].logged
  {
    seq(|ts|, k requires 0 <= k < |ts| => ts[k].logged)
  }

  /** The transactions of filewrite through the log: in every run, with any number of processes, interleaving and
    crashes, whose operations log only blocks of such transactions, there is no panic and every operation is atomic. */
  lemma FileWritesAreAtomic(c: LogSystem.Config, d: RedoLog.Disk, nprocs: nat, acts: seq<LogSystem.Action>,
                            ts: seq<Transaction>)
    requires c.limit <= RedoLog.MAXOPBLOCKS && RedoLog.LOGSIZE <= c.g.size && RedoLog.GoodDisk(c.g, d)
    requires LogSystem.Exec(c, LogSystem.Boot(d, nprocs), acts).Some?
    requires AllSmall(ts) && LogSystem.Planned(c, LogSystem.Boot(d, nprocs), acts, LoggedBy(ts))
    ensures var s := LogSystem.Exec(c, LogSystem.Boot(d, nprocs), acts).value;
      && s.panic == LogSystem.NoPanic
      && RedoLog.GoodDisk(c.g, s.disk)
      && RedoLog.HomeEq(c.g, RedoLog.Meaning(c.g, s.disk), LogSystem.Replay(RedoLog.Meaning(c.g, d), s.history))
      && (forall e, i :: 0 <= e < |s.history| && 0 <= i < |s.history[e].records| ==>
            LogSystem.From(s, s.history[e].records[i].op, e))
      && (forall k, e :: LogSystem.From(s, k, e) && 0 <= e < |s.history| && s.history[e].committed ==> k in s.ended)
  {
    hide LogSystem.Exec, LogSystem.Modest, LogSystem.Within, LogSystem.Planned, LoggedBy;
    LogSystem.PlannedModest(c, d, nprocs, acts, LoggedBy(ts), 7);
    SevenFit(c, d, nprocs, acts);
    LogSystem.OperationsAreAtomic(c, d, nprocs, acts);
  }

  lemma UptoNone(n: nat)
    ensures Upto(0, n) == 0 && Pieces(0) == 0
  {
  }

  lemma UptoWhole(k: nat, n: nat)
    requires k * CHUNK <= n
    ensures Upto(k, n) == k * CHUNK
  {
  }

  lemma NoPrefixes(start: Image, i: nat, off: nat, s: seq<Byte>)
    ensures Prefixes(start, [], i, off, s)
  {
  }

  function Piece(left: nat): (m: nat)
    ensures m <= left && m <= CHUNK && (0 < left ==> 0 < m)
  {
    if left > CHUNK then CHUNK else left
  }

  lemma WrittenNothing(blk: Store, inodes: Inodes, i: nat, off: nat)
    ensures FileWritten(blk, inodes, blk, inodes, i, off, [])
  {
  }

  lemma PieceFits(fs: FileSystem, i: nat, off: nat, end: nat, r: int)
    requires fs.size <= BPB && 0 < fs.size && off <= end <= off + CHUNK
    requires r == -1 ==> fs.logged == {}
    requires r != -1 ==> i in fs.inodes && forall b :: b in fs.logged ==>
               b == fs.InodeBlock(i) || fs.IsBitmap(b) || Touched(fs.blk, fs.inodes[i], off, end, b)
    ensures |fs.logged| <= 7
  {
    if r != -1 {
      SevenBlocks(fs.blk, fs.inodes[i], off, end, fs.logged, fs.bmapstart, fs.InodeBlock(i));
    }
  }
}
