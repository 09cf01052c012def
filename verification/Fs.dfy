/** The bytes of the disk: the bits of the free map and the words of an indirect block (fs.c). */
module Blocks {
  const BSIZE := 512
  const NINDIRECT := 128    // block numbers in an indirect block
  const BPB := 4096         // bits in a block of the free map

  type Byte = b: nat | b < 256
  type Block = s: seq<Byte> | |s| == 512 witness seq(512, i => 0)
  type Uint = w: nat | w < 0x1_0000_0000

  function ZeroBlock(): Block { seq(512, i => 0) }

  // ---- The free map ----

  predicate ByteBit(v: bv8, i: nat)
    requires i < 8
  {
    v & (1 << i) != 0
  }

  function SetByte(v: bv8, i: nat): bv8
    requires i < 8
  {
    v | (1 << i)
  }

  function ClearByte(v: bv8, i: nat): bv8
    requires i < 8
  {
    v & !(1 << i)
  }

  lemma SetByteBit(v: bv8, i: nat, j: nat)
    requires i < 8 && j < 8
    ensures ByteBit(SetByte(v, i), j) <==> i == j || ByteBit(v, j)
  {
  }

  lemma ClearByteBit(v: bv8, i: nat, j: nat)
    requires i < 8 && j < 8
    ensures ByteBit(ClearByte(v, i), j) <==> i != j && ByteBit(v, j)
  {
    if i == 0 {
    } else if i == 1 {
    } else if i == 2 {
    } else if i == 3 {
    } else if i == 4 {
    } else if i == 5 {
    } else if i == 6 {
    }
  }

  /** Whether the free map has block b in use. */
  predicate Bit(bits: seq<bv8>, b: nat) {
    b / 8 < |bits| && ByteBit(bits[b / 8], b % 8)
  }

  lemma SetBit(bits: seq<bv8>, b: nat, c: nat)
    requires b / 8 < |bits| && c / 8 < |bits|
    ensures Bit(bits[b / 8 := SetByte(bits[b / 8], b % 8)], c) <==> c == b || Bit(bits, c)
    ensures Bit(bits[b / 8 := ClearByte(bits[b / 8], b % 8)], c) <==> c != b && Bit(bits, c)
  {
    hide ByteBit, SetByte, ClearByte;
    SetByteBit(bits[b / 8], b % 8, c % 8);
    ClearByteBit(bits[b / 8], b % 8, c % 8);
  }

  lemma NoBits(bits: seq<bv8>)
    requires forall i :: 0 <= i < |bits| ==> bits[i] == 0
    ensures forall b: nat :: !Bit(bits, b)
  {
  }

  lemma MarkNext(bits: seq<bv8>, i: nat)
    requires i / 8 < |bits| && forall b: nat :: b / 8 < |bits| ==> (Bit(bits, b) <==> b < i)
    ensures forall b: nat :: b / 8 < |bits| ==> (Bit(bits[i / 8 := SetByte(bits[i / 8], i % 8)], b) <==> b < i + 1)
  {
    hide Bit, SetByte, ClearByte;
    forall b: nat | b / 8 < |bits|
      ensures Bit(bits[i / 8 := SetByte(bits[i / 8], i % 8)], b) <==> b < i + 1
    {
      SetBit(bits, i, b);
    }
  }

  /** The free map mkfs makes: the first `used` bits are set and no other. */
  method MarkUsed(n: nat, used: nat) returns (bits: seq<bv8>)
    requires used <= n * 8
    ensures |bits| == n && forall b: nat :: b / 8 < n ==> (Bit(bits, b) <==> b < used)
  {
    hide Bit, SetByte;
    bits := seq(n, i => 0);
    NoBits(bits);
    var i := 0;
    while i < used
      invariant i <= used && |bits| == n
      invariant forall b: nat :: b / 8 < n ==> (Bit(bits, b) <==> b < i)
    {
      MarkNext(bits, i);
      bits := bits[i / 8 := SetByte(bits[i / 8], i % 8)];
      i := i + 1;
    }
  }

  // ---- Indirect blocks ----

  /** The little-endian word j of a block. */
  function Word(s: Block, j: nat): Uint
    requires j < NINDIRECT
  {
    var b0: nat, b1: nat, b2: nat, b3: nat := s[4 * j], s[4 * j + 1], s[4 * j + 2], s[4 * j + 3];
    b0 + 0x100 * b1 + 0x1_0000 * b2 + 0x100_0000 * b3
  }

  lemma Digits(w: Uint)
    ensures w % 0x100 + 0x100 * (w / 0x100 % 0x100) + 0x1_0000 * (w / 0x1_0000 % 0x100)
            + 0x100_0000 * (w / 0x100_0000) == w
  {
    assert w / 0x100 / 0x100 == w / 0x1_0000 && w / 0x1_0000 / 0x100 == w / 0x100_0000;
  }

  function PutWord(s: Block, j: nat, w: Uint): Block
    requires j < NINDIRECT
  {
    s[4 * j := w % 0x100][4 * j + 1 := w / 0x100 % 0x100]
     [4 * j + 2 := w / 0x1_0000 % 0x100][4 * j + 3 := w / 0x100_0000]
  }

  lemma WordPut(s: Block, j: nat, w: Uint, k: nat)
    requires j < NINDIRECT && k < NINDIRECT
    ensures Word(PutWord(s, j, w), k) == if k == j then w else Word(s, k)
  {
    if k == j {
      Digits(w);
    } else {
      var r := PutWord(s, j, w);
      assert forall i :: 0 <= i < 512 && i / 4 != j ==> r[i] == s[i];
      hide PutWord;
    }
  }

  lemma ZeroWords(j: nat)
    requires j < NINDIRECT
    ensures Word(ZeroBlock(), j) == 0
  {
  }
}

/** Block allocation and file contents (fs.c). */
module Fs {
  import opened Blocks

  const NDIRECT := 12
  const MAXFILE := 140     // NDIRECT + NINDIRECT

  type Addrs = s: seq<Uint> | |s| == 13 witness seq(13, i => 0)
  datatype Inode = Inode(size: nat, addrs: Addrs)
  type Inodes = map<nat, Inode>
  type Store = map<nat, Block>

  /** What a block is used for. Every block has one owner, so every block is referred to once. */
  datatype Owner =
    | Free
    | Meta                          // boot block, superblock, log, inodes, free map
    | Held                          // allocated and not yet referred to
    | Ind(inum: nat)                // the indirect block of an inode
    | Data(inum: nat, bn: nat)      // block bn of a file

  type Owners = map<nat, Owner>

  /** The number of block bn of a file, 0 when it has none. */
  function Slot(blk: Store, ino: Inode, bn: nat): nat {
    if bn < NDIRECT then ino.addrs[bn]
    else if bn < MAXFILE && ino.addrs[NDIRECT] in blk then Word(blk[ino.addrs[NDIRECT]], bn - NDIRECT)
    else 0
  }

  ghost predicate Owns(own: Owners, b: nat, o: Owner) { b in own && own[b] == o }

  ghost predicate InodeOk(blk: Store, inodes: Inodes, own: Owners, i: nat, k: nat)
    requires i in inodes
  {
    && (inodes[i].addrs[NDIRECT] != 0 ==> Owns(own, inodes[i].addrs[NDIRECT], Ind(i)))
    && forall bn :: k <= bn < MAXFILE && Slot(blk, inodes[i], bn) != 0 ==>
         Owns(own, Slot(blk, inodes[i], bn), Data(i, bn))
  }

  ghost predicate BlockOk(blk: Store, inodes: Inodes, own: Owners, b: nat)
    requires b in own
  {
    match own[b]
    case Free => b in blk
    case Meta => b !in blk
    case Held => b in blk
    case Ind(i) => b in blk && i in inodes && inodes[i].addrs[NDIRECT] == b
    case Data(i, bn) => b in blk && i in inodes && bn < MAXFILE && Slot(blk, inodes[i], bn) == b
  }

  /** Every block is referred to by the slot its owner names, and only by it; of the inode `dying` only
    the slots from k on count. */
  ghost predicate Dying(blk: Store, inodes: Inodes, own: Owners, dying: nat, k: nat) {
    && 0 !in blk && (forall b :: b in blk ==> b in own)
    && (forall i :: i in inodes ==> InodeOk(blk, inodes, own, i, if i == dying then k else 0))
    && forall b :: b in own ==> BlockOk(blk, inodes, own, b)
  }

  ghost predicate Owned(blk: Store, inodes: Inodes, own: Owners) { Dying(blk, inodes, own, 0, 0) }

  /** The free map has exactly the blocks that are not free. */
  ghost predicate Mapped(bits: seq<bv8>, own: Owners) {
    forall b :: b in own ==> b / 8 < |bits| && (Bit(bits, b) <==> !own[b].Free?)
  }

  /** Byte k of a file; a block that is not there reads as zeros. */
  function FileByte(blk: Store, ino: Inode, k: nat): Byte {
    var s := Slot(blk, ino, k / BSIZE);
    if s in blk then blk[s][k % BSIZE] else 0
  }

  // ---- What each kind of update keeps ----

  /** Only slot bn of inode i may have changed. */
  ghost predicate SlotsBut(blk: Store, inodes: Inodes, blk': Store, inodes': Inodes, i: nat, bn: nat) {
    && inodes'.Keys == inodes.Keys
    && forall j, m: nat :: j in inodes && (j != i || m != bn) ==>
         Slot(blk', inodes'[j], m) == Slot(blk, inodes[j], m)
  }

  /** Writing a block that is not an indirect block changes no slot. */
  lemma WriteBlock(blk: Store, inodes: Inodes, own: Owners, b: nat, s: Block)
    requires Owned(blk, inodes, own) && b in blk && !own[b].Ind?
    ensures Owned(blk[b := s], inodes, own)
    ensures var blk' := blk[b := s];
            forall j, m: nat :: j in inodes ==> Slot(blk', inodes[j], m) == Slot(blk, inodes[j], m)
  {
    var blk' := blk[b := s];
    forall j, m: nat | j in inodes ensures Slot(blk', inodes[j], m) == Slot(blk, inodes[j], m) {
      assert InodeOk(blk, inodes, own, j, 0);
    }
    hide Slot;
    forall j | j in inodes ensures InodeOk(blk', inodes, own, j, 0) {
      assert InodeOk(blk, inodes, own, j, 0);
    }
    forall c | c in own ensures BlockOk(blk', inodes, own, c) {
      assert BlockOk(blk, inodes, own, c);
    }
  }

  // ---- Every block in use is referred to once ----

  /** The places that name a block: an indirect pointer, or one of the blocks of a file. */
  datatype Place = Pointer(inum: nat) | Nth(inum: nat, bn: nat)

  ghost predicate Refers(blk: Store, inodes: Inodes, p: Place, b: nat) {
    && p.inum in inodes
    && match p
       case Pointer(i) => inodes[i].addrs[NDIRECT] == b
       case Nth(i, bn) => bn < MAXFILE && Slot(blk, inodes[i], bn) == b
  }

  ghost predicate NoneHeld(own: Owners) { forall b :: b in own ==> !own[b].Held? }

  /** Between operations the free map has a data block in use exactly when some place names it, and no two do. */
  lemma ReferredOnce(bits: seq<bv8>, blk: Store, inodes: Inodes, own: Owners, b: nat)
    requires Owned(blk, inodes, own) && Mapped(bits, own) && NoneHeld(own) && b in blk
    ensures Bit(bits, b) <==> exists p :: Refers(blk, inodes, p, b)
    ensures forall p, q :: Refers(blk, inodes, p, b) && Refers(blk, inodes, q, b) ==> p == q
  {
    hide Slot, Bit;
    assert BlockOk(blk, inodes, own, b);
    forall p | Refers(blk, inodes, p, b)
      ensures own[b] == match p case Pointer(i) => Ind(i) case Nth(i, bn) => Data(i, bn)
    {
      assert InodeOk(blk, inodes, own, p.inum, 0);
    }
    if own[b].Ind? {
      assert Refers(blk, inodes, Pointer(own[b].inum), b);
    } else if own[b].Data? {
      assert Refers(blk, inodes, Nth(own[b].inum, own[b].bn), b);
    }
  }

  /** A block that no slot refers to may change between free and held. */
  lemma Reown(blk: Store, inodes: Inodes, own: Owners, b: nat, o: Owner)
    requires Owned(blk, inodes, own) && b in own && own[b] in {Free, Held} && o in {Free, Held}
    ensures Owned(blk, inodes, own[b := o])
  {
    hide Slot;
    var own' := own[b := o];
    assert forall c, q :: Owns(own, c, q) && q !in {Free, Held} ==> Owns(own', c, q);
    forall j | j in inodes ensures InodeOk(blk, inodes, own', j, 0) {
      assert InodeOk(blk, inodes, own, j, 0);
    }
    forall c | c in own' ensures BlockOk(blk, inodes, own', c) {
      assert BlockOk(blk, inodes, own, c) && BlockOk(blk, inodes, own, b);
    }
  }

  /** Slot bn of inode i, empty before, now refers to a held block. */
  lemma FillSlot(blk: Store, inodes: Inodes, own: Owners, blk': Store, inodes': Inodes, i: nat, bn: nat, b: nat)
    requires Owned(blk, inodes, own) && i in inodes && bn < MAXFILE && Slot(blk, inodes[i], bn) == 0
    requires Owns(own, b, Held) && blk'.Keys == blk.Keys && SlotsBut(blk, inodes, blk', inodes', i, bn)
    requires Slot(blk', inodes'[i], bn) == b
    requires forall j :: j in inodes ==> inodes'[j].addrs[NDIRECT] == inodes[j].addrs[NDIRECT]
    ensures Owned(blk', inodes', own[b := Data(i, bn)])
  {
    hide Slot;
    var own' := own[b := Data(i, bn)];
    assert forall c, q :: Owns(own, c, q) && q != Held ==> Owns(own', c, q);
    forall j | j in inodes' ensures InodeOk(blk', inodes', own', j, 0) {
      assert InodeOk(blk, inodes, own, j, 0);
    }
    forall c | c in own' ensures BlockOk(blk', inodes', own', c) {
      assert BlockOk(blk, inodes, own, c) && BlockOk(blk, inodes, own, b);
    }
  }

  lemma FillDirect(blk: Store, inodes: Inodes, own: Owners, i: nat, bn: nat, b: Uint)
    requires Owned(blk, inodes, own) && i in inodes && bn < NDIRECT && inodes[i].addrs[bn] == 0 && Owns(own, b, Held)
    ensures var inodes' := inodes[i := inodes[i].(addrs := inodes[i].addrs[bn := b])];
            && Owned(blk, inodes', own[b := Data(i, bn)]) && SlotsBut(blk, inodes, blk, inodes', i, bn)
            && Slot(blk, inodes'[i], bn) == b
  {
    var inodes' := inodes[i := inodes[i].(addrs := inodes[i].addrs[bn := b])];
    FillSlot(blk, inodes, own, blk, inodes', i, bn, b);
  }

  lemma FillEntry(blk: Store, inodes: Inodes, own: Owners, i: nat, k: nat, b: Uint)
    requires Owned(blk, inodes, own) && i in inodes && k < NINDIRECT && inodes[i].addrs[NDIRECT] in blk
    requires Word(blk[inodes[i].addrs[NDIRECT]], k) == 0 && Owns(own, b, Held)
    ensures var a := inodes[i].addrs[NDIRECT];
            var blk' := blk[a := PutWord(blk[a], k, b)];
            && Owned(blk', inodes, own[b := Data(i, NDIRECT + k)])
            && SlotsBut(blk, inodes, blk', inodes, i, NDIRECT + k)
            && Slot(blk', inodes[i], NDIRECT + k) == b
  {
    var a := inodes[i].addrs[NDIRECT];
    var blk' := blk[a := PutWord(blk[a], k, b)];
    WordPut(blk[a], k, b, k);
    forall j, m: nat | j in inodes && (j != i || m != NDIRECT + k)
      ensures Slot(blk', inodes[j], m) == Slot(blk, inodes[j], m)
    {
      assert InodeOk(blk, inodes, own, j, 0) && InodeOk(blk, inodes, own, i, 0);
      if NDIRECT <= m < MAXFILE && inodes[j].addrs[NDIRECT] == a {
        WordPut(blk[a], k, b, m - NDIRECT);
      }
    }
    hide PutWord, Word;
    FillSlot(blk, inodes, own, blk', inodes, i, NDIRECT + k, b);
  }

  lemma FillIndirect(blk: Store, inodes: Inodes, own: Owners, i: nat, b: Uint)
    requires Owned(blk, inodes, own) && i in inodes && inodes[i].addrs[NDIRECT] == 0
    requires Owns(own, b, Held) && b in blk && blk[b] == ZeroBlock()
    ensures var inodes' := inodes[i := inodes[i].(addrs := inodes[i].addrs[NDIRECT := b])];
            && Owned(blk, inodes', own[b := Ind(i)])
            && forall j, m: nat :: j in inodes ==> Slot(blk, inodes'[j], m) == Slot(blk, inodes[j], m)
  {
    var inodes', own' := inodes[i := inodes[i].(addrs := inodes[i].addrs[NDIRECT := b])], own[b := Ind(i)];
    forall j, m: nat | j in inodes ensures Slot(blk, inodes'[j], m) == Slot(blk, inodes[j], m) {
      if NDIRECT <= m < MAXFILE {
        ZeroWords(m - NDIRECT);
      }
    }
    hide Slot, ZeroBlock;
    assert forall c, q :: Owns(own, c, q) && q != Held ==> Owns(own', c, q);
    forall j | j in inodes' ensures InodeOk(blk, inodes', own', j, 0) {
      assert InodeOk(blk, inodes, own, j, 0);
    }
    forall c | c in own' ensures BlockOk(blk, inodes', own', c) {
      assert BlockOk(blk, inodes, own, c) && BlockOk(blk, inodes, own, b);
    }
  }

  /** A free block has been marked in use and zeroed. */
  lemma Allocated(blk: Store, inodes: Inodes, own: Owners, r: nat)
    requires Owned(blk, inodes, own) && Owns(own, r, Free)
    ensures r in blk && Owned(blk[r := ZeroBlock()], inodes, own[r := Held])
    ensures var blk' := blk[r := ZeroBlock()];
            forall j, m: nat :: j in inodes ==> Slot(blk', inodes[j], m) == Slot(blk, inodes[j], m)
  {
    hide Slot, ZeroBlock;
    assert BlockOk(blk, inodes, own, r);
    WriteBlock(blk, inodes, own, r, ZeroBlock());
    Reown(blk[r := ZeroBlock()], inodes, own, r, Held);
  }

  /** The blocks of files hold what they held. */
  ghost predicate DataKept(blk: Store, blk': Store, own: Owners) {
    && blk'.Keys == blk.Keys
    && forall b :: b in blk && b in own && own[b].Data? ==> blk'[b] == blk[b]
  }

  ghost predicate SameBytes(blk: Store, inodes: Inodes, blk': Store, inodes': Inodes) {
    && inodes'.Keys == inodes.Keys
    && forall j, k: nat :: j in inodes ==> FileByte(blk', inodes'[j], k) == FileByte(blk, inodes[j], k)
  }

  /** A new zeroed block does not change what a file holds. */
  lemma ZeroesAppear(blk: Store, inodes: Inodes, own: Owners, blk': Store, inodes': Inodes, i: nat, bn: nat)
    requires Owned(blk, inodes, own) && i in inodes && DataKept(blk, blk', own)
    requires SlotsBut(blk, inodes, blk', inodes', i, bn)
    requires Slot(blk, inodes[i], bn) == 0
    requires Slot(blk', inodes'[i], bn) in blk' && blk'[Slot(blk', inodes'[i], bn)] == ZeroBlock()
    ensures SameBytes(blk, inodes, blk', inodes')
  {
    hide Slot;
    forall j, k: nat | j in inodes ensures FileByte(blk', inodes'[j], k) == FileByte(blk, inodes[j], k) {
      assert InodeOk(blk, inodes, own, j, 0);
      assert Slot(blk, inodes[j], k / BSIZE) != 0 && k / BSIZE < MAXFILE ==>
               BlockOk(blk, inodes, own, Slot(blk, inodes[j], k / BSIZE));
      assert Slot(blk, inodes[j], k / BSIZE) != 0 ==> k / BSIZE < MAXFILE by { SlotBound(blk, inodes[j], k / BSIZE); }
    }
  }

  lemma SlotBound(blk: Store, ino: Inode, bn: nat)
    ensures Slot(blk, ino, bn) != 0 ==> bn < MAXFILE
  {
  }

  /** Inode i has taken free blocks, and no other block has changed hands. */
  ghost predicate Took(own: Owners, own': Owners, i: nat) {
    && own'.Keys == own.Keys
    && forall b :: b in own ==>
         own'[b] == own[b] || (own[b].Free? && (own'[b].Data? || own'[b].Ind?) && own'[b].inum == i)
  }

  /** bmap(i, bn) gave addr: a block that was there, with nothing changed, or a new one. */
  ghost predicate Bmapped(blk: Store, inodes: Inodes, own: Owners, blk': Store, inodes': Inodes, own': Owners,
                          i: nat, bn: nat, addr: nat) {
    && i in inodes && SlotsBut(blk, inodes, blk', inodes', i, bn) && DataKept(blk, blk', own)
    && SameBytes(blk, inodes, blk', inodes') && Took(own, own', i)
    && addr in blk' && Slot(blk', inodes'[i], bn) == addr && Owns(own', addr, Data(i, bn))
    && (forall j :: j in inodes && j != i ==> inodes'[j] == inodes[j])
    && inodes'[i].size == inodes[i].size
    && (inodes[i].addrs[NDIRECT] != 0 ==> inodes'[i].addrs[NDIRECT] == inodes[i].addrs[NDIRECT])
    && (Slot(blk, inodes[i], bn) != 0 ==> blk' == blk && inodes' == inodes && own' == own)
    && (Slot(blk, inodes[i], bn) == 0 ==> Owns(own, addr, Free))
  }

  lemma BmapThere(blk: Store, inodes: Inodes, own: Owners, i: nat, bn: nat)
    requires Owned(blk, inodes, own) && i in inodes && Slot(blk, inodes[i], bn) != 0
    ensures Bmapped(blk, inodes, own, blk, inodes, own, i, bn, Slot(blk, inodes[i], bn))
  {
    SlotBound(blk, inodes[i], bn);
    hide Slot, FileByte;
    assert InodeOk(blk, inodes, own, i, 0);
    assert BlockOk(blk, inodes, own, Slot(blk, inodes[i], bn));
  }

  /** A new direct block. */
  lemma BmapDirect(blk: Store, inodes: Inodes, own: Owners, i: nat, bn: nat, b: Uint)
    requires Owned(blk, inodes, own) && i in inodes && bn < NDIRECT && inodes[i].addrs[bn] == 0 && Owns(own, b, Free)
    ensures var inodes' := inodes[i := inodes[i].(addrs := inodes[i].addrs[bn := b])];
            && Owned(blk[b := ZeroBlock()], inodes', own[b := Data(i, bn)])
            && Bmapped(blk, inodes, own, blk[b := ZeroBlock()], inodes', own[b := Data(i, bn)], i, bn, b)
  {
    Allocated(blk, inodes, own, b);
    var blk1, own1 := blk[b := ZeroBlock()], own[b := Held];
    FillDirect(blk1, inodes, own1, i, bn, b);
    var inodes' := inodes[i := inodes[i].(addrs := inodes[i].addrs[bn := b])];
    assert own1[b := Data(i, bn)] == own[b := Data(i, bn)];
    assert Slot(blk, inodes[i], bn) == 0;
    hide Slot, ZeroBlock, FileByte, Dying, SameBytes;
    ZeroesAppear(blk, inodes, own, blk1, inodes', i, bn);
  }

  /** A new entry in the indirect block. */
  lemma BmapEntry(blk: Store, inodes: Inodes, own: Owners, i: nat, k: nat, b: Uint)
    requires Owned(blk, inodes, own) && i in inodes && k < NINDIRECT && inodes[i].addrs[NDIRECT] in blk
    requires Word(blk[inodes[i].addrs[NDIRECT]], k) == 0 && Owns(own, b, Free)
    ensures var a := inodes[i].addrs[NDIRECT];
            var blk' := blk[b := ZeroBlock()][a := PutWord(blk[a], k, b)];
            && a != b && Owned(blk', inodes, own[b := Data(i, NDIRECT + k)])
            && Bmapped(blk, inodes, own, blk', inodes, own[b := Data(i, NDIRECT + k)], i, NDIRECT + k, b)
  {
    var a := inodes[i].addrs[NDIRECT];
    assert InodeOk(blk, inodes, own, i, 0);
    Allocated(blk, inodes, own, b);
    var blk1, own1 := blk[b := ZeroBlock()], own[b := Held];
    FillEntry(blk1, inodes, own1, i, k, b);
    var blk' := blk1[a := PutWord(blk[a], k, b)];
    assert own1[b := Data(i, NDIRECT + k)] == own[b := Data(i, NDIRECT + k)];
    assert Slot(blk, inodes[i], NDIRECT + k) == 0;
    hide Slot, ZeroBlock, FileByte, Dying, SameBytes, PutWord, Word;
    ZeroesAppear(blk, inodes, own, blk', inodes, i, NDIRECT + k);
  }

  /** Inode i has got an empty indirect block, and nothing else has changed. */
  ghost predicate Indirected(blk: Store, inodes: Inodes, own: Owners, blk': Store, inodes': Inodes, own': Owners,
                             i: nat, b: nat) {
    && i in inodes && inodes'.Keys == inodes.Keys && DataKept(blk, blk', own) && Owns(own, b, Free)
    && (forall j, m: nat :: j in inodes ==> Slot(blk', inodes'[j], m) == Slot(blk, inodes[j], m))
    && (forall j :: j in inodes && j != i ==> inodes'[j] == inodes[j])
    && inodes'[i].size == inodes[i].size && inodes[i].addrs[NDIRECT] == 0 && inodes'[i].addrs[NDIRECT] == b
    && own' == own[b := Ind(i)]
  }

  lemma NewIndirect(blk: Store, inodes: Inodes, own: Owners, i: nat, b: Uint)
    requires Owned(blk, inodes, own) && i in inodes && inodes[i].addrs[NDIRECT] == 0 && Owns(own, b, Free)
    ensures var inodes' := inodes[i := inodes[i].(addrs := inodes[i].addrs[NDIRECT := b])];
            && Owned(blk[b := ZeroBlock()], inodes', own[b := Ind(i)])
            && Indirected(blk, inodes, own, blk[b := ZeroBlock()], inodes', own[b := Ind(i)], i, b)
  {
    Allocated(blk, inodes, own, b);
    FillIndirect(blk[b := ZeroBlock()], inodes, own[b := Held], i, b);
    assert own[b := Held][b := Ind(i)] == own[b := Ind(i)];
  }

  lemma BmapBoth(blk: Store, inodes: Inodes, own: Owners, blk1: Store, inodes1: Inodes, own1: Owners,
                 blk': Store, inodes': Inodes, own': Owners, i: nat, b: nat, bn: nat, addr: nat)
    requires Owned(blk, inodes, own) && Indirected(blk, inodes, own, blk1, inodes1, own1, i, b)
    requires Bmapped(blk1, inodes1, own1, blk', inodes', own', i, bn, addr) && Slot(blk1, inodes1[i], bn) == 0
    ensures Bmapped(blk, inodes, own, blk', inodes', own', i, bn, addr)
  {
    hide Slot, FileByte, Took, Dying;
    IndirectedBytes(blk, inodes, own, blk1, inodes1, own1, i, b);
    IndirectedTook(own, i, b);
    TookMore(own, own1, own', i);
  }

  lemma IndirectedBytes(blk: Store, inodes: Inodes, own: Owners, blk1: Store, inodes1: Inodes, own1: Owners, i: nat,
                        b: nat)
    requires Owned(blk, inodes, own) && Indirected(blk, inodes, own, blk1, inodes1, own1, i, b)
    ensures SameBytes(blk, inodes, blk1, inodes1)
  {
    hide Slot;
    forall j, k: nat | j in inodes ensures FileByte(blk1, inodes1[j], k) == FileByte(blk, inodes[j], k) {
      SlotBound(blk, inodes[j], k / BSIZE);
      assert InodeOk(blk, inodes, own, j, 0);
    }
  }

  lemma IndirectedTook(own: Owners, i: nat, b: nat)
    requires Owns(own, b, Free)
    ensures Took(own, own[b := Ind(i)], i)
  {
  }

  // ---- File contents ----

  /** Every block of a file below a limit is there. */
  ghost predicate PresentTo(blk: Store, ino: Inode, limit: nat) {
    forall bn: nat :: bn * BSIZE < limit ==> Slot(blk, ino, bn) != 0
  }

  ghost predicate Complete(blk: Store, inodes: Inodes) {
    forall i :: i in inodes ==> inodes[i].size <= MAXFILE * BSIZE && PresentTo(blk, inodes[i], inodes[i].size)
  }

  /** The contents of a file. */
  ghost function Content(blk: Store, ino: Inode): (c: seq<Byte>)
    ensures |c| == ino.size
  {
    seq(ino.size, k requires 0 <= k => FileByte(blk, ino, k))
  }

  /** Bytes of block s replaced from position p on. */
  function Patch(s: Block, p: nat, bytes: seq<Byte>): Block
    requires p + |bytes| <= BSIZE
  {
    s[..p] + bytes + s[p + |bytes|..]
  }

  /** Writing block bn of file i changes the bytes of that block of that file. */
  lemma PutBytes(blk: Store, inodes: Inodes, own: Owners, i: nat, bn: nat, s: Block, j: nat, k: nat)
    requires Owned(blk, inodes, own) && i in inodes && Slot(blk, inodes[i], bn) != 0 && j in inodes
    ensures Slot(blk, inodes[i], bn) in blk
    ensures FileByte(blk[Slot(blk, inodes[i], bn) := s], inodes[j], k) ==
              if j == i && k / BSIZE == bn then s[k % BSIZE] else FileByte(blk, inodes[j], k)
  {
    SlotBound(blk, inodes[i], bn);
    SlotBound(blk, inodes[j], k / BSIZE);
    assert InodeOk(blk, inodes, own, i, 0) && InodeOk(blk, inodes, own, j, 0);
    var b := Slot(blk, inodes[i], bn);
    assert BlockOk(blk, inodes, own, b);
    WriteBlock(blk, inodes, own, b, s);
    hide Slot;
  }

  /** The bytes of file i from off on are those of src as far as they have got; all others are as they were. */
  ghost predicate Writing(blk0: Store, inodes0: Inodes, blk: Store, inodes: Inodes,
                          i: nat, off: nat, src: seq<Byte>, tot: nat) {
    && inodes.Keys == inodes0.Keys && tot <= |src|
    && forall j, k: nat :: j in inodes0 ==>
         FileByte(blk, inodes[j], k) ==
           if j == i && off <= k < off + tot then src[k - off] else FileByte(blk0, inodes0[j], k)
  }

  lemma WriteStart(blk: Store, inodes: Inodes, i: nat, off: nat, src: seq<Byte>)
    ensures Writing(blk, inodes, blk, inodes, i, off, src, 0)
  {
  }

  /** The part of a block that one turn of the loops of readi and writei deals with. */
  function Part(off: nat, left: nat): (m: nat)
    ensures m <= left && off % BSIZE + m <= BSIZE && (0 < left ==> 0 < m)
    ensures forall k: nat :: off <= k < off + m ==> k / BSIZE == off / BSIZE && k % BSIZE == k - off + off % BSIZE
  {
    if left < BSIZE - off % BSIZE then left else BSIZE - off % BSIZE
  }

  lemma WriteStep(blk0: Store, inodes0: Inodes, blk1: Store, inodes1: Inodes, blk: Store, inodes: Inodes, own: Owners,
                  i: nat, off: nat, src: seq<Byte>, tot: nat)
    requires i in inodes && Writing(blk0, inodes0, blk1, inodes1, i, off, src, tot) && tot < |src|
    requires SameBytes(blk1, inodes1, blk, inodes) && Owned(blk, inodes, own)
    requires Slot(blk, inodes[i], (off + tot) / BSIZE) in blk
    ensures var o, m := off + tot, Part(off + tot, |src| - tot);
            var b := Slot(blk, inodes[i], o / BSIZE);
            Writing(blk0, inodes0, blk[b := Patch(blk[b], o % BSIZE, src[tot..tot + m])], inodes, i, off, src, tot + m)
  {
    hide Slot, FileByte, Dying, Part;
    var o, m := off + tot, Part(off + tot, |src| - tot);
    var b := Slot(blk, inodes[i], o / BSIZE);
    var s := Patch(blk[b], o % BSIZE, src[tot..tot + m]);
    var blk' := blk[b := s];
    forall j, k: nat | j in inodes0
      ensures FileByte(blk', inodes[j], k) ==
              if j == i && off <= k < off + tot + m then src[k - off] else FileByte(blk0, inodes0[j], k)
    {
      SlotIn(blk, inodes, own, i, o / BSIZE);
      PutBytes(blk, inodes, own, i, o / BSIZE, s, j, k);
      if j == i && k / BSIZE == o / BSIZE {
        ByteAt(blk, inodes[i], k, b);
        assert o <= k < o + m ==> s[k % BSIZE] == src[k - off];
        assert !(o <= k < o + m) ==> s[k % BSIZE] == blk[b][k % BSIZE];
      }
    }
  }

  lemma SlotIn(blk: Store, inodes: Inodes, own: Owners, i: nat, bn: nat)
    requires Owned(blk, inodes, own) && i in inodes
    ensures Slot(blk, inodes[i], bn) in blk <==> Slot(blk, inodes[i], bn) != 0
  {
    SlotBound(blk, inodes[i], bn);
    assert InodeOk(blk, inodes, own, i, 0);
    hide Slot;
    if Slot(blk, inodes[i], bn) != 0 {
      assert BlockOk(blk, inodes, own, Slot(blk, inodes[i], bn));
    }
  }

  lemma ByteAt(blk: Store, ino: Inode, k: nat, b: nat)
    requires b == Slot(blk, ino, k / BSIZE) && b in blk
    ensures FileByte(blk, ino, k) == blk[b][k % BSIZE]
  {
  }

  lemma PresentStep(blk0: Store, ino0: Inode, blk: Store, ino: Inode, size: nat, o: nat, m: nat)
    requires PresentTo(blk0, ino0, if size < o then o else size) && o % BSIZE + m <= BSIZE
    requires forall bn: nat :: Slot(blk0, ino0, bn) != 0 ==> Slot(blk, ino, bn) != 0
    requires Slot(blk, ino, o / BSIZE) != 0
    ensures PresentTo(blk, ino, if size < o + m then o + m else size)
  {
    hide Slot;
    forall bn: nat | bn * BSIZE < (if size < o + m then o + m else size) ensures Slot(blk, ino, bn) != 0 {
      if !(bn * BSIZE < (if size < o then o else size)) {
        assert bn == o / BSIZE;
      }
    }
  }

  lemma NotBlockZero(blk: Store, inodes: Inodes, own: Owners, b: nat)
    requires Owned(blk, inodes, own) && Owns(own, b, Free)
    ensures b != 0 && b in blk
  {
    assert BlockOk(blk, inodes, own, b);
  }

  lemma SetMapped(bits: seq<bv8>, own: Owners, b: nat)
    requires Mapped(bits, own) && b in own
    ensures b / 8 < |bits|
    ensures Mapped(bits[b / 8 := SetByte(bits[b / 8], b % 8)], own[b := Held])
    ensures Mapped(bits[b / 8 := ClearByte(bits[b / 8], b % 8)], own[b := Free])
  {
    hide SetByte, ClearByte, Bit;
    forall c | c in own
      ensures c / 8 < |bits|
      ensures Bit(bits[b / 8 := SetByte(bits[b / 8], b % 8)], c) <==> c == b || Bit(bits, c)
      ensures Bit(bits[b / 8 := ClearByte(bits[b / 8], b % 8)], c) <==> c != b && Bit(bits, c)
    {
      SetBit(bits, b, c);
    }
  }

  lemma TakeHeld(bits: seq<bv8>, own: Owners, own': Owners, b: nat, o: Owner)
    requires Mapped(bits, own') && b in own && own' == own[b := Held] && !o.Free?
    ensures Mapped(bits, own'[b := o]) && own'[b := o] == own[b := o]
  {
    hide Bit;
    var own'' := own'[b := o];
    assert own'' == own[b := o];
    forall c | c in own'' ensures c / 8 < |bits| && (Bit(bits, c) <==> !own''[c].Free?) {
      assert c in own';
    }
  }

  lemma SlotEntry(blk: Store, inodes: Inodes, own: Owners, i: nat, k: nat)
    requires Owned(blk, inodes, own) && i in inodes && k < NINDIRECT
    ensures inodes[i].addrs[NDIRECT] != 0 ==> inodes[i].addrs[NDIRECT] in blk
    ensures Slot(blk, inodes[i], NDIRECT + k) ==
              if inodes[i].addrs[NDIRECT] == 0 then 0 else Word(blk[inodes[i].addrs[NDIRECT]], k)
  {
    assert InodeOk(blk, inodes, own, i, 0);
    if inodes[i].addrs[NDIRECT] != 0 {
      assert BlockOk(blk, inodes, own, inodes[i].addrs[NDIRECT]);
    }
  }

  lemma IndirectedSlots(blk: Store, inodes: Inodes, own: Owners, blk': Store, inodes': Inodes, own': Owners, i: nat,
                        b: nat)
    requires Indirected(blk, inodes, own, blk', inodes', own', i, b)
    ensures i in inodes' && forall m: nat :: Slot(blk', inodes'[i], m) == Slot(blk, inodes[i], m)
  {
    hide Slot;
  }

  /** Slots that were filled stay as they are. */
  ghost predicate SlotsGrow(blk: Store, inodes: Inodes, blk': Store, inodes': Inodes) {
    && inodes'.Keys == inodes.Keys
    && forall j, m: nat :: j in inodes && Slot(blk, inodes[j], m) != 0 ==>
         Slot(blk', inodes'[j], m) == Slot(blk, inodes[j], m)
  }

  /** A block of file i that one write of the bytes off..end may log: see writei and bmap. */
  ghost predicate Touched(blk: Store, ino: Inode, off: nat, end: nat, b: nat) {
    b != 0 &&
    (b == ino.addrs[NDIRECT] || exists bn: nat :: off / BSIZE <= bn && bn * BSIZE < end && Slot(blk, ino, bn) == b)
  }

  lemma TouchedGrows(blk: Store, ino: Inode, blk': Store, ino': Inode, off: nat, end: nat, end': nat, b: nat)
    requires Touched(blk, ino, off, end, b) && end <= end'
    requires ino.addrs[NDIRECT] != 0 ==> ino'.addrs[NDIRECT] == ino.addrs[NDIRECT]
    requires forall m: nat :: Slot(blk, ino, m) != 0 ==> Slot(blk', ino', m) == Slot(blk, ino, m)
    ensures Touched(blk', ino', off, end', b)
  {
    hide Slot;
    if b != ino.addrs[NDIRECT] {
      var bn: nat :| off / BSIZE <= bn && bn * BSIZE < end && Slot(blk, ino, bn) == b;
      assert Slot(blk', ino', bn) == b;
    }
  }

  lemma CompleteGrows(blk: Store, inodes: Inodes, blk': Store, inodes': Inodes)
    requires Complete(blk, inodes) && SlotsGrow(blk, inodes, blk', inodes')
    requires forall j :: j in inodes ==> inodes'[j].size == inodes[j].size
    ensures Complete(blk', inodes')
  {
    hide Slot;
  }

  lemma BmappedThere(blk: Store, inodes: Inodes, own: Owners, blk': Store, inodes': Inodes, own': Owners,
                     i: nat, bn: nat, addr: nat)
    requires Bmapped(blk, inodes, own, blk', inodes', own', i, bn, addr) && Slot(blk, inodes[i], bn) != 0
    ensures blk' == blk && inodes' == inodes && own' == own && addr == Slot(blk, inodes[i], bn) && addr in blk
  {
  }

  /** Writing into block bn of inode i after bmap. */
  lemma PartWritten(blk: Store, inodes: Inodes, own: Owners, mid: Store, inodes': Inodes, own': Owners,
                    i: nat, bn: nat, addr: nat, s: Block)
    requires Bmapped(blk, inodes, own, mid, inodes', own', i, bn, addr) && Owned(mid, inodes', own')
    ensures Owned(mid[addr := s], inodes', own') && SlotsGrow(blk, inodes, mid[addr := s], inodes')
    ensures Slot(mid[addr := s], inodes'[i], bn) == addr != 0 && inodes'.Keys == inodes.Keys
    ensures forall m: nat :: m != bn ==> Slot(mid[addr := s], inodes'[i], m) == Slot(blk, inodes[i], m)
  {
    hide Slot, FileByte;
    WriteBlock(mid, inodes', own', addr, s);
    var blk' := mid[addr := s];
    assert forall j, m: nat :: j in inodes' ==> Slot(blk', inodes'[j], m) == Slot(mid, inodes'[j], m);
  }

  /** c with s written from off on. */
  ghost function Overwrite(c: seq<Byte>, off: nat, s: seq<Byte>): seq<Byte>
    requires off <= |c|
  {
    c[..off] + s + (if off + |s| < |c| then c[off + |s|..] else [])
  }

  lemma ContentWritten(blk0: Store, inodes0: Inodes, blk: Store, inodes: Inodes, i: nat, off: nat, src: seq<Byte>,
                       j: nat)
    requires Writing(blk0, inodes0, blk, inodes, i, off, src, |src|) && i in inodes0 && j in inodes0
    requires off <= inodes0[i].size
    requires inodes[j].size == if j == i && inodes0[i].size < off + |src| then off + |src| else inodes0[j].size
    ensures Content(blk, inodes[j]) ==
              if j == i then Overwrite(Content(blk0, inodes0[i]), off, src) else Content(blk0, inodes0[j])
  {
    hide FileByte;
    var c0, c := Content(blk0, inodes0[j]), Content(blk, inodes[j]);
    if j == i {
      var w := Overwrite(c0, off, src);
      assert |w| == |c|;
      forall k | 0 <= k < |c| ensures c[k] == w[k] {
        assert w[k] == if off <= k < off + |src| then src[k - off] else c0[k];
      }
      assert c == w;
    } else {
      assert c == c0;
    }
  }

  /** How far writei has got with the inodes. */
  ghost predicate Progress(blk0: Store, inodes0: Inodes, blk: Store, inodes: Inodes, i: nat, end: nat) {
    && i in inodes0 && SlotsGrow(blk0, inodes0, blk, inodes)
    && (forall j :: j in inodes0 ==> inodes[j].size == inodes0[j].size && (j != i ==> inodes[j] == inodes0[j]))
    && PresentTo(blk, inodes[i], if inodes0[i].size < end then end else inodes0[i].size)
    && (inodes[i] == inodes0[i] || inodes0[i].size < end)
  }

  lemma ProgressStep(blk0: Store, inodes0: Inodes, blk1: Store, inodes1: Inodes, blk: Store, inodes: Inodes,
                     i: nat, o: nat, m: nat)
    requires Progress(blk0, inodes0, blk1, inodes1, i, o) && SlotsGrow(blk1, inodes1, blk, inodes)
    requires forall j :: j in inodes1 ==> inodes[j].size == inodes1[j].size && (j != i ==> inodes[j] == inodes1[j])
    requires 0 < m && o % BSIZE + m <= BSIZE && Slot(blk, inodes[i], o / BSIZE) != 0
    requires Slot(blk1, inodes1[i], o / BSIZE) != 0 ==> inodes == inodes1
    ensures Progress(blk0, inodes0, blk, inodes, i, o + m)
  {
    hide Slot;
    PresentStep(blk1, inodes1[i], blk, inodes[i], inodes0[i].size, o, m);
    if inodes[i] != inodes0[i] && inodes[i] != inodes1[i] {
      assert o / BSIZE * BSIZE >= inodes0[i].size;
    }
  }

  /** The size of an inode plays no part in which blocks it has. */
  lemma Resize(blk: Store, inodes: Inodes, own: Owners, i: nat, size: nat)
    requires Owned(blk, inodes, own) && i in inodes
    ensures Owned(blk, inodes[i := inodes[i].(size := size)], own)
    ensures var inodes' := inodes[i := inodes[i].(size := size)];
            && (forall j, m: nat :: j in inodes ==> Slot(blk, inodes'[j], m) == Slot(blk, inodes[j], m))
            && (forall j, k: nat :: j in inodes ==> FileByte(blk, inodes'[j], k) == FileByte(blk, inodes[j], k))
  {
    var inodes' := inodes[i := inodes[i].(size := size)];
    assert forall j, m: nat :: j in inodes ==> Slot(blk, inodes'[j], m) == Slot(blk, inodes[j], m);
    hide Slot;
    forall j | j in inodes' ensures InodeOk(blk, inodes', own, j, 0) {
      assert InodeOk(blk, inodes, own, j, 0);
    }
    forall b | b in own ensures BlockOk(blk, inodes', own, b) {
      assert BlockOk(blk, inodes, own, b);
    }
  }

  lemma Resized(blk0: Store, inodes0: Inodes, blk: Store, inodes: Inodes, own: Owners,
                i: nat, off: nat, src: seq<Byte>, end: nat)
    requires Complete(blk0, inodes0) && Progress(blk0, inodes0, blk, inodes, i, end) && Owned(blk, inodes, own)
    requires Writing(blk0, inodes0, blk, inodes, i, off, src, |src|) && end == off + |src| <= MAXFILE * BSIZE
    requires inodes0[i].size < end
    ensures var inodes' := inodes[i := inodes[i].(size := end)];
            && Owned(blk, inodes', own) && Complete(blk, inodes')
            && Writing(blk0, inodes0, blk, inodes', i, off, src, |src|)
            && forall b :: Touched(blk, inodes[i], off, end, b) ==> Touched(blk, inodes'[i], off, end, b)
  {
    hide Slot, FileByte;
    Resize(blk, inodes, own, i, end);
    CompleteGrows(blk0, inodes0, blk, inodes);
    var inodes' := inodes[i := inodes[i].(size := end)];
    forall b | Touched(blk, inodes[i], off, end, b) ensures Touched(blk, inodes'[i], off, end, b) {
      TouchedGrows(blk, inodes[i], blk, inodes'[i], off, end, end, b);
    }
  }

  /** What writei knows of the inodes once it has written all bytes. */
  lemma ProgressEnd(blk0: Store, inodes0: Inodes, blk: Store, inodes: Inodes, i: nat, end: nat)
    requires Complete(blk0, inodes0) && Progress(blk0, inodes0, blk, inodes, i, end)
    ensures forall j :: j in inodes0 ==>
              j in inodes && inodes[j].size == inodes0[j].size && (j != i ==> inodes[j] == inodes0[j])
    ensures end <= inodes0[i].size ==> inodes == inodes0 && Complete(blk, inodes)
  {
    hide Slot;
    CompleteGrows(blk0, inodes0, blk, inodes);
  }

  lemma SizeBound(blk: Store, inodes: Inodes, i: nat)
    requires Complete(blk, inodes) && i in inodes
    ensures inodes[i].size <= MAXFILE * BSIZE
  {
  }

  lemma ProgressStart(blk: Store, inodes: Inodes, i: nat, off: nat)
    requires Complete(blk, inodes) && i in inodes && off <= inodes[i].size
    ensures Progress(blk, inodes, blk, inodes, i, off)
  {
    hide Slot;
  }

  lemma StillTouched(blk1: Store, inodes1: Inodes, blk: Store, inodes: Inodes, i: nat, off: nat, o: nat, end: nat,
                     b: nat)
    requires i in inodes1 && SlotsGrow(blk1, inodes1, blk, inodes) && off <= o < end
    requires inodes1[i].addrs[NDIRECT] != 0 ==> inodes[i].addrs[NDIRECT] == inodes1[i].addrs[NDIRECT]
    ensures Touched(blk1, inodes1[i], off, o, b) ==> Touched(blk, inodes[i], off, end, b)
    ensures b != 0 && b == Slot(blk, inodes[i], o / BSIZE) ==> Touched(blk, inodes[i], off, end, b)
    ensures b != 0 && b == inodes[i].addrs[NDIRECT] ==> Touched(blk, inodes[i], off, end, b)
  {
    hide Slot;
    if Touched(blk1, inodes1[i], off, o, b) {
      TouchedGrows(blk1, inodes1[i], blk, inodes[i], off, o, end, b);
    }
  }

  lemma ContentsWritten(blk0: Store, inodes0: Inodes, blk: Store, inodes: Inodes, i: nat, off: nat, src: seq<Byte>)
    requires inodes.Keys == inodes0.Keys && i in inodes0 && off <= inodes0[i].size
    requires Writing(blk0, inodes0, blk, inodes, i, off, src, |src|)
    requires forall j :: j in inodes0 && j != i ==> inodes[j].size == inodes0[j].size
    requires inodes[i].size == if inodes0[i].size < off + |src| then off + |src| else inodes0[i].size
    ensures forall j :: j in inodes ==>
              Content(blk, inodes[j]) == if j == i then Overwrite(Content(blk0, inodes0[i]), off, src)
                                         else Content(blk0, inodes0[j])
  {
    forall j | j in inodes
      ensures Content(blk, inodes[j]) == if j == i then Overwrite(Content(blk0, inodes0[i]), off, src)
                                         else Content(blk0, inodes0[j])
    {
      ContentWritten(blk0, inodes0, blk, inodes, i, off, src, j);
    }
  }

  lemma TookNothing(own: Owners, i: nat)
    ensures Took(own, own, i)
  {
  }

  lemma TookMore(own0: Owners, own1: Owners, own: Owners, i: nat)
    requires Took(own0, own1, i) && Took(own1, own, i)
    ensures Took(own0, own, i)
  {
  }

  lemma TookHeld(own: Owners, own': Owners, i: nat)
    requires Took(own, own', i) && NoneHeld(own)
    ensures NoneHeld(own')
  {
  }

  // ---- Truncation ----
  /** The owners once the first k blocks of file i have been freed. */
  ghost function FreeUpTo(own: Owners, i: nat, k: nat): Owners {
    map b | b in own :: if own[b].Data? && own[b].inum == i && own[b].bn < k then Free else own[b]
  }

  /** The owners once all blocks of inode i have been freed. */
  ghost function FreeAll(own: Owners, i: nat): Owners {
    map b | b in own :: if (own[b].Data? || own[b].Ind?) && own[b].inum == i then Free else own[b]
  }

  lemma FreeAllHeld(own: Owners, i: nat)
    requires NoneHeld(own)
    ensures NoneHeld(FreeAll(own, i))
  {
  }

  lemma FreeNone(own: Owners, i: nat)
    ensures FreeUpTo(own, i, 0) == own
  {
  }

  /** Slot k of inode i is empty: there is nothing to free. */
  lemma FreeSkip(blk: Store, inodes: Inodes, own0: Owners, own: Owners, i: nat, k: nat)
    requires Dying(blk, inodes, own, i, k) && own == FreeUpTo(own0, i, k) && i in inodes && Slot(blk, inodes[i], k) == 0
    ensures Dying(blk, inodes, own, i, k + 1) && own == FreeUpTo(own0, i, k + 1)
  {
    hide Slot;
    forall b | b in own0 ensures own0[b] != Data(i, k) {
      assert BlockOk(blk, inodes, own, b);
    }
    forall j | j in inodes ensures InodeOk(blk, inodes, own, j, if j == i then k + 1 else 0) {
      assert InodeOk(blk, inodes, own, j, if j == i then k else 0);
    }
  }

  /** The block in slot k of inode i is freed; the slot still names it. */
  lemma FreeStep(blk: Store, inodes: Inodes, own0: Owners, own: Owners, i: nat, k: nat)
    requires Dying(blk, inodes, own, i, k) && own == FreeUpTo(own0, i, k) && i in inodes
    requires k < MAXFILE && Slot(blk, inodes[i], k) != 0
    ensures var b := Slot(blk, inodes[i], k);
            && Owns(own, b, Data(i, k)) && Dying(blk, inodes, own[b := Free], i, k + 1)
            && own[b := Free] == FreeUpTo(own0, i, k + 1)
  {
    hide Slot;
    var b := Slot(blk, inodes[i], k);
    assert InodeOk(blk, inodes, own, i, k);
    var own' := own[b := Free];
    assert forall c, q :: Owns(own, c, q) && c != b ==> Owns(own', c, q);
    forall c | c in own0 && own0[c] == Data(i, k) ensures c == b {
      assert BlockOk(blk, inodes, own, c);
    }
    forall j | j in inodes ensures InodeOk(blk, inodes, own', j, if j == i then k + 1 else 0) {
      assert InodeOk(blk, inodes, own, j, if j == i then k else 0);
    }
    forall c | c in own' ensures BlockOk(blk, inodes, own', c) {
      assert BlockOk(blk, inodes, own, c);
    }
  }

  /** Clearing a direct slot whose block has been freed. */
  lemma ClearSlot(blk: Store, inodes: Inodes, own0: Owners, own: Owners, i: nat, k: nat)
    requires Dying(blk, inodes, own, i, k + 1) && own == FreeUpTo(own0, i, k + 1) && i in inodes && k < NDIRECT
    ensures Dying(blk, inodes[i := inodes[i].(addrs := inodes[i].addrs[k := 0])], own, i, k + 1)
  {
    var inodes' := inodes[i := inodes[i].(addrs := inodes[i].addrs[k := 0])];
    assert forall j, m: nat :: j in inodes && (j != i || m != k) ==>
             Slot(blk, inodes'[j], m) == Slot(blk, inodes[j], m);
    hide Slot;
    forall j | j in inodes' ensures InodeOk(blk, inodes', own, j, if j == i then k + 1 else 0) {
      assert InodeOk(blk, inodes, own, j, if j == i then k + 1 else 0);
    }
    forall b | b in own ensures BlockOk(blk, inodes', own, b) {
      assert BlockOk(blk, inodes, own, b);
    }
  }

  function EmptyInode(): Inode { Inode(0, seq(13, i => 0)) }

  lemma TruncatedOwners(blk: Store, inodes: Inodes, own0: Owners, own: Owners, i: nat)
    requires Dying(blk, inodes, own, i, MAXFILE) && own == FreeUpTo(own0, i, MAXFILE) && i in inodes
    ensures var ind := inodes[i].addrs[NDIRECT];
            && (ind != 0 ==> Owns(own, ind, Ind(i)) && own[ind := Free] == FreeAll(own0, i))
            && (ind == 0 ==> own == FreeAll(own0, i))
    ensures forall b :: b in own ==> !(own[b].Data? && own[b].inum == i)
  {
    hide Slot;
    var ind := inodes[i].addrs[NDIRECT];
    assert InodeOk(blk, inodes, own, i, MAXFILE);
    forall b | b in own0
      ensures own0[b].Data? && own0[b].inum == i ==> own0[b].bn < MAXFILE
      ensures own0[b] == Ind(i) ==> b == ind && ind != 0
    {
      assert BlockOk(blk, inodes, own, b);
    }
  }

  /** With its indirect block freed last, the inode is empty and owns nothing. */
  lemma Truncated(blk: Store, inodes: Inodes, own: Owners, i: nat)
    requires Dying(blk, inodes, own, i, MAXFILE) && i in inodes
    requires forall b :: b in own ==> !(own[b].Data? && own[b].inum == i)
    ensures var ind := inodes[i].addrs[NDIRECT];
            Owned(blk, inodes[i := EmptyInode()], if ind == 0 then own else own[ind := Free])
  {
    var ind := inodes[i].addrs[NDIRECT];
    var inodes', own' := inodes[i := EmptyInode()], if ind == 0 then own else own[ind := Free];
    assert forall m: nat :: Slot(blk, inodes'[i], m) == 0;
    hide Slot;
    assert InodeOk(blk, inodes, own, i, MAXFILE);
    assert forall c, q :: Owns(own, c, q) && c != ind ==> Owns(own', c, q);
    forall j | j in inodes' ensures InodeOk(blk, inodes', own', j, 0) {
      assert InodeOk(blk, inodes, own, j, if j == i then MAXFILE else 0);
    }
    forall b | b in own' ensures BlockOk(blk, inodes', own', b) {
      assert BlockOk(blk, inodes, own, b);
    }
  }

  /** With no indirect block there are no further blocks. */
  lemma NoIndirect(blk: Store, inodes: Inodes, own0: Owners, own: Owners, i: nat)
    requires Dying(blk, inodes, own, i, NDIRECT) && own == FreeUpTo(own0, i, NDIRECT)
    requires i in inodes && inodes[i].addrs[NDIRECT] == 0
    ensures Dying(blk, inodes, own, i, MAXFILE) && own == FreeUpTo(own0, i, MAXFILE)
  {
    assert forall m: nat :: NDIRECT <= m ==> Slot(blk, inodes[i], m) == 0;
    hide Slot;
    forall b | b in own0 ensures own0[b].Data? && own0[b].inum == i ==> own0[b].bn < NDIRECT {
      assert BlockOk(blk, inodes, own, b);
    }
    forall j | j in inodes ensures InodeOk(blk, inodes, own, j, if j == i then MAXFILE else 0) {
      assert InodeOk(blk, inodes, own, j, if j == i then NDIRECT else 0);
    }
  }

  lemma StartDying(blk: Store, inodes: Inodes, own: Owners, i: nat)
    requires Owned(blk, inodes, own)
    ensures Dying(blk, inodes, own, i, 0)
  {
    hide Slot;
    forall j | j in inodes ensures InodeOk(blk, inodes, own, j, if j == i then 0 else 0) {
      assert InodeOk(blk, inodes, own, j, 0);
    }
  }

  lemma DirectSlot(blk: Store, ino: Inode, k: nat)
    requires k < NDIRECT
    ensures Slot(blk, ino, k) == ino.addrs[k]
  {
  }

  lemma EntrySlots(blk: Store, inodes: Inodes, own: Owners, i: nat)
    requires Dying(blk, inodes, own, i, NDIRECT) && i in inodes && inodes[i].addrs[NDIRECT] != 0
    ensures inodes[i].addrs[NDIRECT] in blk
    ensures forall j: nat :: j < NINDIRECT ==>
              Slot(blk, inodes[i], NDIRECT + j) == Word(blk[inodes[i].addrs[NDIRECT]], j)
  {
    assert InodeOk(blk, inodes, own, i, NDIRECT);
    assert BlockOk(blk, inodes, own, inodes[i].addrs[NDIRECT]);
  }

  lemma CompleteEmpty(blk: Store, inodes: Inodes, i: nat)
    requires Complete(blk, inodes) && i in inodes
    ensures Complete(blk, inodes[i := EmptyInode()])
  {
    hide Slot;
  }

  predicate InDisk(b: nat, size: nat) { b < size }

  ghost function FirstOwners(size: nat, used: nat): (own: Owners)
    ensures forall b :: b in own <==> 0 <= b < size
    ensures forall b :: b in own ==> own[b] == if b < used then Meta else Free
  {
    map b: nat | b < size && InDisk(b, size) :: if b < used then Meta else Free
  }

  lemma Formatted(bits: seq<bv8>, blk: Store, inodes: Inodes, own: Owners, size: nat, used: nat)
    requires (forall i :: i in inodes ==> inodes[i] == EmptyInode()) && 0 < used && own == FirstOwners(size, used)
    requires |bits| == size / 8 + 1 && forall b: nat :: b / 8 < |bits| ==> (Bit(bits, b) <==> b < used)
    requires forall b :: b in blk <==> used <= b < size
    ensures Owned(blk, inodes, own) && Complete(blk, inodes) && Mapped(bits, own) && NoneHeld(own)
  {
    hide FirstOwners, Bit;
    assert forall j, m: nat :: j in inodes ==> Slot(blk, inodes[j], m) == 0;
    assert Mapped(bits, own) by {
      forall b | b in own ensures b / 8 < |bits| {
      }
    }
    hide Slot, Mapped;
    forall b | b in own ensures BlockOk(blk, inodes, own, b) {
      assert b in blk ==> Owns(own, b, Free);
    }
  }

  // ---- How many blocks a write takes ----

  /** The number of free blocks. */
  ghost function Room(own: Owners): nat { |FreeBlocks(own)| }

  ghost function FreeBlocks(own: Owners): set<nat> { set b | b in own && own[b].Free? }

  lemma RoomTaken(own: Owners, b: nat, o: Owner)
    requires b in own && !o.Free?
    ensures Room(own[b := o]) == Room(own) - if own[b].Free? then 1 else 0
  {
    assert FreeBlocks(own[b := o]) == FreeBlocks(own) - {b};
    assert b !in FreeBlocks(own) ==> FreeBlocks(own) - {b} == FreeBlocks(own);
  }

  lemma NoRoom(own: Owners)
    ensures Room(own) == 0 <==> forall b :: b in own ==> !own[b].Free?
  {
    assert Room(own) == 0 <==> FreeBlocks(own) == {};
    assert forall b :: b in own && own[b].Free? ==> b in FreeBlocks(own);
  }

  /** The blocks bmap takes to give file ino its block bn: the block, and the indirect block. */
  ghost function Cost(blk: Store, ino: Inode, bn: nat): nat {
    (if Slot(blk, ino, bn) == 0 then 1 else 0) + (if NDIRECT <= bn && ino.addrs[NDIRECT] == 0 then 1 else 0)
  }

  /** How many of the blocks lo..hi file ino has not got. */
  ghost function Absent(blk: Store, ino: Inode, lo: nat, hi: nat): nat {
    if hi <= lo then 0 else Absent(blk, ino, lo, hi - 1) + if Slot(blk, ino, hi - 1) == 0 then 1 else 0
  }

  /** The end of the blocks that the bytes before `end` are in. */
  function BlockEnd(end: nat): nat
    requires 0 < end
  {
    (end - 1) / BSIZE + 1
  }

  /** How many free blocks writing the bytes off..end of file ino takes. */
  ghost function Needed(blk: Store, ino: Inode, off: nat, end: nat): nat {
    if end <= off then 0
    else Absent(blk, ino, off / BSIZE, BlockEnd(end))
         + if ino.addrs[NDIRECT] == 0 && NDIRECT < BlockEnd(end) then 1 else 0
  }

  /** File ino has got the blocks of the bytes off..end and no others. */
  ghost predicate Filled(blk0: Store, ino0: Inode, blk: Store, ino: Inode, off: nat, end: nat) {
    if end <= off then
      ino.addrs[NDIRECT] == ino0.addrs[NDIRECT] && forall m: nat :: Slot(blk, ino, m) == Slot(blk0, ino0, m)
    else
      && (ino.addrs[NDIRECT] == 0 <==> ino0.addrs[NDIRECT] == 0 && BlockEnd(end) <= NDIRECT)
      && forall m: nat :: if off / BSIZE <= m < BlockEnd(end) then Slot(blk, ino, m) != 0
                          else Slot(blk, ino, m) == Slot(blk0, ino0, m)
  }

  lemma {:induction false} AbsentSplit(blk: Store, ino: Inode, lo: nat, mid: nat, hi: nat)
    requires lo <= mid <= hi
    ensures Absent(blk, ino, lo, hi) == Absent(blk, ino, lo, mid) + Absent(blk, ino, mid, hi)
    decreases hi
  {
    hide Slot;
    if mid < hi {
      AbsentSplit(blk, ino, lo, mid, hi - 1);
    }
  }

  lemma {:induction false} AbsentSame(blk: Store, ino: Inode, blk': Store, ino': Inode, lo: nat, hi: nat)
    requires forall m: nat :: lo <= m < hi ==> Slot(blk', ino', m) == Slot(blk, ino, m)
    ensures Absent(blk', ino', lo, hi) == Absent(blk, ino, lo, hi)
    decreases hi
  {
    hide Slot;
    if lo < hi {
      AbsentSame(blk, ino, blk', ino', lo, hi - 1);
    }
  }

  lemma {:induction false} AbsentNone(blk: Store, ino: Inode, lo: nat, hi: nat)
    requires forall m: nat :: lo <= m < hi ==> Slot(blk, ino, m) != 0
    ensures Absent(blk, ino, lo, hi) == 0
    decreases hi
  {
    hide Slot;
    if lo < hi {
      AbsentNone(blk, ino, lo, hi - 1);
    }
  }

  lemma PaidNothing(blk: Store, ino: Inode, own: Owners, off: nat)
    ensures Paid(blk, ino, own, blk, ino, own, off, off)
  {
  }

  lemma PaidResized(blk0: Store, ino0: Inode, own0: Owners, blk: Store, ino: Inode, own: Owners,
                    off: nat, end: nat, size: nat)
    requires Paid(blk0, ino0, own0, blk, ino, own, off, end)
    ensures Paid(blk0, ino0, own0, blk, ino.(size := size), own, off, end)
  {
    assert forall m: nat :: Slot(blk, ino.(size := size), m) == Slot(blk, ino, m);
    hide Slot;
  }

  lemma BlockEnds(off: nat, mid: nat, end: nat)
    requires off < mid < end
    ensures off / BSIZE <= mid / BSIZE <= BlockEnd(mid) <= BlockEnd(end) && off / BSIZE < BlockEnd(mid)
  {
  }

  /** Writing off..mid and then mid..end takes what writing off..end takes. */
  lemma FilledMore(blk0: Store, ino0: Inode, blk1: Store, ino1: Inode, blk: Store, ino: Inode,
                   off: nat, mid: nat, end: nat)
    requires off <= mid <= end
    requires Filled(blk0, ino0, blk1, ino1, off, mid) && Filled(blk1, ino1, blk, ino, mid, end)
    ensures Filled(blk0, ino0, blk, ino, off, end)
  {
    hide Slot, BlockEnd;
    if off < mid < end {
      BlockEnds(off, mid, end);
    }
  }

  lemma NeededMore(blk0: Store, ino0: Inode, blk1: Store, ino1: Inode, off: nat, mid: nat, end: nat)
    requires off <= mid <= end && Filled(blk0, ino0, blk1, ino1, off, mid)
    ensures Needed(blk0, ino0, off, end) == Needed(blk0, ino0, off, mid) + Needed(blk1, ino1, mid, end)
  {
    hide Slot, BlockEnd, Absent;
    if off < mid < end {
      BlockEnds(off, mid, end);
      var lo, m, h, hi := off / BSIZE, mid / BSIZE, BlockEnd(mid), BlockEnd(end);
      AbsentSplit(blk0, ino0, lo, h, hi);
      AbsentSplit(blk1, ino1, m, h, hi);
      AbsentNone(blk1, ino1, m, h);
      AbsentSame(blk0, ino0, blk1, ino1, h, hi);
    } else if off == mid && mid < end {
      AbsentSame(blk0, ino0, blk1, ino1, mid / BSIZE, BlockEnd(end));
    }
  }

  /** The free blocks have paid for the bytes off..end of file ino, and for no others. */
  ghost predicate Paid(blk0: Store, ino0: Inode, own0: Owners, blk: Store, ino: Inode, own: Owners, off: nat, end: nat)
  {
    Room(own) + Needed(blk0, ino0, off, end) == Room(own0) && Filled(blk0, ino0, blk, ino, off, end)
  }

  lemma PaidMore(blk0: Store, ino0: Inode, own0: Owners, blk1: Store, ino1: Inode, own1: Owners,
                 blk: Store, ino: Inode, own: Owners, off: nat, mid: nat, end: nat)
    requires off <= mid <= end
    requires Paid(blk0, ino0, own0, blk1, ino1, own1, off, mid) && Paid(blk1, ino1, own1, blk, ino, own, mid, end)
    ensures Paid(blk0, ino0, own0, blk, ino, own, off, end)
  {
    hide Room, Needed, Filled;
    FilledMore(blk0, ino0, blk1, ino1, blk, ino, off, mid, end);
    NeededMore(blk0, ino0, blk1, ino1, off, mid, end);
  }

  lemma PaidEnough(blk0: Store, ino0: Inode, own0: Owners, blk: Store, ino: Inode, own: Owners, off: nat, end: nat)
    requires Paid(blk0, ino0, own0, blk, ino, own, off, end)
    ensures Needed(blk0, ino0, off, end) <= Room(own0)
  {
  }

  /** When there are too few free blocks for one part, there were too few for the whole. */
  lemma PaidShort(blk0: Store, ino0: Inode, own0: Owners, blk: Store, ino: Inode, own: Owners,
                  off: nat, mid: nat, next: nat, end: nat)
    requires off <= mid <= next <= end && Paid(blk0, ino0, own0, blk, ino, own, off, mid)
    requires Room(own) < Needed(blk, ino, mid, next)
    ensures Room(own0) < Needed(blk0, ino0, off, end)
  {
    hide Room, Needed, Filled;
    NeededMore(blk0, ino0, blk, ino, off, mid, next);
    NeededGrows(blk0, ino0, off, next, end);
  }

  lemma NeededGrows(blk: Store, ino: Inode, off: nat, mid: nat, end: nat)
    requires mid <= end
    ensures Needed(blk, ino, off, mid) <= Needed(blk, ino, off, end)
  {
    hide Slot, BlockEnd, Absent;
    if off < mid < end {
      BlockEnds(off, mid, end);
      AbsentSplit(blk, ino, off / BSIZE, BlockEnd(mid), BlockEnd(end));
    }
  }

  /** Bytes of one block take what bmap takes for it. */
  lemma NeededOne(blk: Store, ino: Inode, o: nat, m: nat)
    requires 0 < m && o % BSIZE + m <= BSIZE
    ensures Needed(blk, ino, o, o + m) == Cost(blk, ino, o / BSIZE) && BlockEnd(o + m) == o / BSIZE + 1
  {
    hide Slot;
    assert (o + m - 1) / BSIZE == o / BSIZE;
    assert Absent(blk, ino, o / BSIZE, o / BSIZE) == 0;
  }

  // ---- What a transaction logs ----

  /** What is on the disk, as seen through the log. */
  datatype Image = Image(bits: seq<bv8>, blk: Store, iblk: Store, dinodes: Inodes)

  /** The state before and after the calls between begin_op and end_op, and the blocks they gave to log_write. */
  datatype Transaction = Transaction(before: Image, after: Image, logged: set<nat>)

  /** Where the inodes and the free map are. */
  datatype Layout = Layout(inodestart: nat, bmapstart: nat)

  /** Every block in which a and b differ is in logged: blocks, blocks of the free map, blocks of inodes. */
  ghost predicate Covered(l: Layout, a: Image, b: Image, logged: set<nat>) {
    && |a.bits| == |b.bits| && a.blk.Keys <= b.blk.Keys && a.iblk.Keys == b.iblk.Keys
    && (forall n :: n in b.blk && (n in a.blk ==> a.blk[n] != b.blk[n]) ==> n in logged)
    && (forall n: nat :: n < |a.bits| && a.bits[n] != b.bits[n] ==> l.bmapstart + n / BSIZE in logged)
    && (forall n :: n in a.iblk && a.iblk[n] != b.iblk[n] ==> n in logged)
  }

  lemma CoveredTrans(l: Layout, a: Image, b: Image, c: Image, logged: set<nat>, logged': set<nat>)
    requires Covered(l, a, b, logged) && Covered(l, b, c, logged') && logged <= logged'
    ensures Covered(l, a, c, logged')
  {
  }

  lemma CoveredNothing(l: Layout, a: Image, logged: set<nat>)
    ensures Covered(l, a, a, logged)
  {
  }

  lemma CoverBlock(l: Layout, a: Image, n: nat, v: Block, logged: set<nat>)
    ensures Covered(l, a, a.(blk := a.blk[n := v]), logged + {n})
  {
  }

  lemma CoverBit(l: Layout, a: Image, n: nat, v: bv8, logged: set<nat>)
    requires n / 8 < |a.bits|
    ensures Covered(l, a, a.(bits := a.bits[n / 8 := v]), logged + {l.bmapstart + n / BPB})
  {
  }

  lemma CoverNew(l: Layout, a: Image, n: nat, v: bv8, b: Block, logged: set<nat>)
    requires n / 8 < |a.bits|
    ensures Covered(l, a, a.(bits := a.bits[n / 8 := v], blk := a.blk[n := b]), logged + {l.bmapstart + n / BPB} + {n})
  {
    hide Covered;
    CoverBit(l, a, n, v, logged);
    CoverBlock(l, a.(bits := a.bits[n / 8 := v]), n, b, logged + {l.bmapstart + n / BPB});
    CoveredTrans(l, a, a.(bits := a.bits[n / 8 := v]), a.(bits := a.bits[n / 8 := v], blk := a.blk[n := b]),
                 logged + {l.bmapstart + n / BPB}, logged + {l.bmapstart + n / BPB} + {n});
  }

  lemma CoverInodes(l: Layout, a: Image, n: nat, v: Block, dinodes: Inodes, logged: set<nat>)
    requires n in a.iblk
    ensures Covered(l, a, a.(iblk := a.iblk[n := v], dinodes := dinodes), logged + {n})
  {
  }

  // ---- On-disk inodes ----

  function DecodeAddrs(s: Block, k: nat): (r: Addrs)
    requires k < 8
    ensures forall j :: 0 <= j < 13 ==> r[j] == Word(s, 16 * k + 3 + j)
  {
    [Word(s, 16 * k + 3), Word(s, 16 * k + 4), Word(s, 16 * k + 5), Word(s, 16 * k + 6), Word(s, 16 * k + 7),
     Word(s, 16 * k + 8), Word(s, 16 * k + 9), Word(s, 16 * k + 10), Word(s, 16 * k + 11), Word(s, 16 * k + 12),
     Word(s, 16 * k + 13), Word(s, 16 * k + 14), Word(s, 16 * k + 15)]
  }

  /** Inode k of the eight in a block: its size and addresses are words 2 to 15 of its 16. */
  function DecodeInode(s: Block, k: nat): Inode
    requires k < 8
  {
    Inode(Word(s, 16 * k + 2), DecodeAddrs(s, k))
  }

  /** The inode blocks hold the inodes. */
  ghost predicate Recorded(l: Layout, iblk: Store, dinodes: Inodes) {
    forall i: nat :: i in dinodes ==>
      i / 8 + l.inodestart in iblk && DecodeInode(iblk[i / 8 + l.inodestart], i % 8) == dinodes[i]
  }

  /** The inode blocks have the same bytes but for the size and the addresses of inode i. */
  ghost predicate OneInode(l: Layout, a: Store, b: Store, i: nat) {
    var n := i / 8 + l.inodestart;
    n in a && n in b && b == a[n := b[n]] && Outside(a[n], b[n], i % 8)
  }

  lemma RecordedPut(l: Layout, iblk: Store, dinodes: Inodes, i: nat, v: Block, ino: Inode)
    requires Recorded(l, iblk, dinodes) && i in dinodes
    requires forall m: nat :: m < 8 ==>
               DecodeInode(v, m) == if m == i % 8 then ino else DecodeInode(iblk[i / 8 + l.inodestart], m)
    ensures Recorded(l, iblk[i / 8 + l.inodestart := v], dinodes[i := ino])
  {
    hide DecodeInode;
  }

  lemma DecodePut(s: Block, k: nat, ino: Inode, v: Block, m: nat)
    requires k < 8 && m < 8 && forall w: nat :: w < NINDIRECT ==> Word(v, w) == PutAt(s, k, ino, w)
    ensures DecodeInode(v, m) == if m == k then ino else DecodeInode(s, m)
  {
    hide Word, DecodeAddrs;
    var d := DecodeInode(v, m);
    assert d.addrs == if m == k then ino.addrs else DecodeInode(s, m).addrs;
  }

  /** Word w of a block with inode k replaced. */
  function PutAt(s: Block, k: nat, ino: Inode, w: nat): nat
    requires k < 8 && w < NINDIRECT
  {
    if w == 16 * k + 2 then ino.size
    else if 16 * k + 3 <= w < 16 * k + 16 then ino.addrs[w - 16 * k - 3]
    else Word(s, w)
  }

  /** The blocks have the same bytes but for the size and the addresses of inode k. */
  predicate Outside(s: Block, v: Block, k: nat) {
    forall i :: 0 <= i < BSIZE && !(64 * k + 8 <= i < 64 * k + 64) ==> v[i] == s[i]
  }

  lemma OutsidePut(s: Block, v: Block, k: nat, w: nat, x: Uint)
    requires k < 8 && Outside(s, v, k) && 16 * k + 2 <= w < 16 * k + 16
    ensures Outside(s, PutWord(v, w, x), k)
  {
  }

  /** The assignments of iupdate to the inode in its block. */
  method StoreInode(s: Block, k: nat, ino: Inode) returns (v: Block)
    requires k < 8 && ino.size < 0x1_0000_0000
    ensures forall m: nat :: m < 8 ==> DecodeInode(v, m) == if m == k then ino else DecodeInode(s, m)
    ensures Outside(s, v, k)
  {
    hide Word, PutWord, DecodeInode;
    v := PutWord(s, 16 * k + 2, ino.size);
    OutsidePut(s, s, k, 16 * k + 2, ino.size);
    forall w: nat | w < NINDIRECT ensures Word(v, w) == if w == 16 * k + 2 then ino.size else Word(s, w) {
      WordPut(s, 16 * k + 2, ino.size, w);
    }
    for j := 0 to 13
      invariant forall w: nat :: w < NINDIRECT ==>
                  Word(v, w) == if 16 * k + 3 + j <= w < 16 * k + 16 then Word(s, w) else PutAt(s, k, ino, w)
      invariant Outside(s, v, k)
    {
      forall w: nat | w < NINDIRECT
        ensures Word(PutWord(v, 16 * k + 3 + j, ino.addrs[j]), w) ==
                if w == 16 * k + 3 + j then ino.addrs[j] else Word(v, w)
      {
        WordPut(v, 16 * k + 3 + j, ino.addrs[j], w);
      }
      OutsidePut(s, v, k, 16 * k + 3 + j, ino.addrs[j]);
      v := PutWord(v, 16 * k + 3 + j, ino.addrs[j]);
    }
    forall m: nat | m < 8 ensures DecodeInode(v, m) == if m == k then ino else DecodeInode(s, m) {
      DecodePut(s, k, ino, v, m);
    }
  }

  lemma DecodeZero(k: nat)
    requires k < 8
    ensures DecodeInode(ZeroBlock(), k) == EmptyInode()
  {
    forall j: nat | j < NINDIRECT ensures Word(ZeroBlock(), j) == 0 {
      ZeroWords(j);
    }
    hide Word, DecodeAddrs;
    assert DecodeInode(ZeroBlock(), k).addrs == EmptyInode().addrs;
  }

  /** The blocks of the inodes inums, zeroed. */
  function ZeroBlocks(inodestart: nat, inums: set<nat>): (iblk: Store)
    ensures forall i: nat :: i in inums ==> i / 8 + inodestart in iblk
    ensures forall b :: b in iblk ==> iblk[b] == ZeroBlock()
  {
    var blocks := set i | i in inums :: i / 8 + inodestart;
    map b | b in blocks :: ZeroBlock()
  }

  lemma NoneRecorded(l: Layout, iblk: Store, dinodes: Inodes, inums: set<nat>)
    requires iblk == ZeroBlocks(l.inodestart, inums) && dinodes.Keys == inums
    requires forall i :: i in dinodes ==> dinodes[i] == EmptyInode()
    ensures Recorded(l, iblk, dinodes)
  {
    hide ZeroBlocks, DecodeInode, EmptyInode, ZeroBlock;
    forall i: nat | i in dinodes
      ensures i / 8 + l.inodestart in iblk && DecodeInode(iblk[i / 8 + l.inodestart], i % 8) == dinodes[i]
    {
      DecodeZero(i % 8);
    }
  }

  class FileSystem {
    var bits: seq<bv8>      // the free map
    var blk: Store          // the blocks after the free map, as seen through the log
    var inodes: Inodes      // in memory
    var iblk: Store         // the blocks of inodes, as seen through the log
    ghost var dinodes: Inodes    // the inodes they hold
    const size: nat         // blocks in all
    const inodestart: nat
    const bmapstart: nat
    ghost var own: Owners
    ghost var logged: set<nat>    // the blocks given to log_write since begin_op
    ghost var begun: Image        // the state at begin_op
    ghost var ops: seq<Transaction>    // the transactions ended so far

    ghost predicate Base()
      reads this
    {
      0 < size <= 0x1_0000_0000 && (forall b :: b in own <==> 0 <= b < size) && Mapped(bits, own)
    }

    ghost predicate Valid()
      reads this
    {
      && Base() && Owned(blk, inodes, own) && NoneHeld(own) && Complete(blk, inodes)
      && dinodes.Keys == inodes.Keys && Recorded(Place(), iblk, dinodes)
    }

    /** Every block is in use, which is when balloc panics. */
    ghost predicate NoneFree()
      reads this
    {
      forall b :: b in own ==> !own[b].Free?
    }

    ghost function Place(): Layout { Layout(inodestart, bmapstart) }

    ghost function Now(): Image
      reads this
    {
      Image(bits, blk, iblk, dinodes)
    }

    ghost predicate IsBitmap(b: nat) { bmapstart <= b <= bmapstart + (size - 1) / BPB }

    function InodeBlock(i: nat): nat { i / 8 + inodestart }

    /** A new file system, as mkfs makes it: the blocks before the data are marked in use, and every inode is empty. */
    constructor (size: nat, inodestart: nat, bmapstart: nat, used: nat, blk: Store, inums: set<nat>)
      requires 0 < used <= size <= 0x1_0000_0000 && forall b :: b in blk <==> used <= b < size
      ensures Valid() && inodes.Keys == inums && dinodes == inodes
      ensures forall i :: i in inodes ==> inodes[i] == EmptyInode()
      ensures forall b :: b in own ==> own[b] == if b < used then Meta else Free
    {
      hide Bit, FirstOwners, EmptyInode, Owned, Complete, Mapped, NoneHeld, Recorded, ZeroBlocks, ZeroBlock;
      this.size, this.inodestart, this.bmapstart, this.blk := size, inodestart, bmapstart, blk;
      var marked := MarkUsed(size / 8 + 1, used);
      bits := marked;
      inodes := map i | i in inums :: EmptyInode();
      iblk := ZeroBlocks(inodestart, inums);
      dinodes := map i | i in inums :: EmptyInode();
      own := FirstOwners(size, used);
      logged, ops := {}, [];
      new;
      Formatted(bits, this.blk, inodes, own, size, used);
      NoneRecorded(Place(), iblk, dinodes, inums);
    }

    /** begin_op, as the file system sees it. */
    ghost method BeginOp()
      modifies `logged, `begun
      ensures logged == {} && begun == Now()
    {
      logged, begun := {}, Now();
    }

    /** end_op: the calls since begin_op have logged every block they changed. */
    ghost method EndOp()
      requires Covered(Place(), begun, Now(), logged)
      modifies `ops
      ensures ops == old(ops) + [Transaction(begun, Now(), logged)]
    {
      ops := ops + [Transaction(begun, Now(), logged)];
    }

    /** The first free block, zeroed, or 0 when there is none (the panic of balloc). */
    method BAlloc() returns (r: nat)
      requires Base() && Owned(blk, inodes, own)
      modifies `bits, `blk, `own, `logged
      ensures Base()
      ensures r == 0 ==> bits == old(bits) && blk == old(blk) && own == old(own) && logged == old(logged)
      ensures r == 0 ==> NoneFree()
      ensures r != 0 ==> Owns(old(own), r, Free) && own == old(own)[r := Held] && blk == old(blk)[r := ZeroBlock()]
      ensures r != 0 ==> forall b :: b in own && b < r ==> !old(own)[b].Free?
      ensures r != 0 ==> logged == old(logged) + {bmapstart + r / BPB, r}
      ensures Covered(Place(), old(Now()), Now(), logged)
      ensures Room(own) == Room(old(own)) - (if r == 0 then 0 else 1) && (r == 0 <==> Room(old(own)) == 0)
    {
      hide Recorded, Dying, ZeroBlock, Bit, SetByte, Covered, Room;
      CoveredNothing(Place(), Now(), logged);
      NoRoom(own);
      var b := 0;
      while b < size
        invariant b % BPB == 0 && bits == old(bits) && blk == old(blk) && own == old(own) && logged == old(logged)
        invariant forall c :: c in own && c < b ==> !own[c].Free?
      {
        var bi := 0;
        while bi < BPB && b + bi < size
          invariant bi <= BPB && bits == old(bits) && blk == old(blk) && own == old(own) && logged == old(logged)
          invariant forall c :: c in own && c < b + bi ==> !own[c].Free?
        {
          if !Bit(bits, b + bi) {
            r := b + bi;
            NotBlockZero(blk, inodes, own, r);
            RoomTaken(own, r, Held);
            SetMapped(bits, own, r);
            CoverNew(Place(), Now(), r, SetByte(bits[r / 8], r % 8), ZeroBlock(), logged);
            bits := bits[r / 8 := SetByte(bits[r / 8], r % 8)];
            own := own[r := Held];
            logged := logged + {bmapstart + r / BPB};
            blk := blk[r := ZeroBlock()];
            logged := logged + {r};
            return;
          }
          bi := bi + 1;
        }
        b := b + BPB;
      }
      r := 0;
    }

    /** Frees a block in use; the panic of bfree cannot happen. */
    method BFree(b: nat)
      requires Base() && b in own && own[b] !in {Free, Meta}
      modifies `bits, `own, `logged
      ensures Base() && own == old(own)[b := Free] && logged == old(logged) + {bmapstart + b / BPB}
      ensures Covered(Place(), old(Now()), Now(), logged)
    {
      CoverBit(Place(), Now(), b, ClearByte(bits[b / 8], b % 8), logged);
      hide Recorded, Covered;
      if !Bit(bits, b) {
        assert false;
      }
      SetMapped(bits, own, b);
      bits := bits[b / 8 := ClearByte(bits[b / 8], b % 8)];
      own := own[b := Free];
      logged := logged + {bmapstart + b / BPB};
    }

    /** The number of block bn of inode i, allocated if need be; 0 when balloc panics, or bmap itself because a
      file cannot have so many blocks. */
    method BMap(i: nat, bn: nat) returns (addr: nat)
      requires Base() && Owned(blk, inodes, own) && i in inodes
      modifies `bits, `blk, `own, `logged, `inodes
      ensures addr == 0 ==> NoneFree() || bn >= MAXFILE
      ensures bn >= MAXFILE ==>
                addr == 0 && bits == old(bits) && blk == old(blk) && own == old(own) && inodes == old(inodes)
      ensures addr != 0 ==> Base() && Owned(blk, inodes, own)
      ensures addr != 0 ==> Bmapped(old(blk), old(inodes), old(own), blk, inodes, own, i, bn, addr)
      ensures addr != 0 ==> forall b :: b in logged - old(logged) ==>
                b == addr || IsBitmap(b) || (b != 0 && b == inodes[i].addrs[NDIRECT])
      ensures bn < MAXFILE ==> (addr == 0 <==> Room(old(own)) < Cost(old(blk), old(inodes)[i], bn))
      ensures addr != 0 ==> Room(own) + Cost(old(blk), old(inodes)[i], bn) == Room(old(own))
      ensures addr != 0 ==>
                i in inodes && (inodes[i].addrs[NDIRECT] == 0 <==> old(inodes)[i].addrs[NDIRECT] == 0 && bn < NDIRECT)
      ensures Slot(old(blk), old(inodes)[i], bn) != 0 ==> addr != 0 && logged == old(logged) && bits == old(bits)
      ensures old(logged) <= logged && Covered(Place(), old(Now()), Now(), logged)
    {
      hide Room, Recorded, Dying, Mapped, Bmapped, Indirected, ZeroBlock, Word, PutWord, Covered;
      CoveredNothing(Place(), Now(), logged);
      if bn < NDIRECT {
        addr := inodes[i].addrs[bn];
        if addr != 0 {
          BmapThere(blk, inodes, own, i, bn);
          return;
        }
        addr := BAlloc();
        if addr == 0 {
          return;
        }
        BmapDirect(old(blk), inodes, old(own), i, bn, addr);
        inodes := inodes[i := inodes[i].(addrs := inodes[i].addrs[bn := addr])];
        TakeHeld(bits, old(own), own, addr, Data(i, bn));
        RoomTaken(own, addr, Data(i, bn));
        own := own[addr := Data(i, bn)];
        return;
      }
      SlotBound(blk, inodes[i], bn);
      if bn < MAXFILE {
        addr := BMapIndirect(i, bn - NDIRECT);
      } else {
        addr := 0;
      }
    }

    /** The part of bmap for blocks listed in the indirect block. */
    method BMapIndirect(i: nat, k: nat) returns (addr: nat)
      requires Base() && Owned(blk, inodes, own) && i in inodes && k < NINDIRECT
      modifies `bits, `blk, `own, `logged, `inodes
      ensures addr == 0 ==> NoneFree()
      ensures addr != 0 ==> Base() && Owned(blk, inodes, own)
      ensures addr != 0 ==> Bmapped(old(blk), old(inodes), old(own), blk, inodes, own, i, NDIRECT + k, addr)
      ensures addr != 0 ==> forall b :: b in logged - old(logged) ==>
                b == addr || IsBitmap(b) || (b != 0 && b == inodes[i].addrs[NDIRECT])
      ensures addr == 0 <==> Room(old(own)) < Cost(old(blk), old(inodes)[i], NDIRECT + k)
      ensures addr != 0 ==> Room(own) + Cost(old(blk), old(inodes)[i], NDIRECT + k) == Room(old(own))
      ensures addr != 0 ==> i in inodes && inodes[i].addrs[NDIRECT] != 0
      ensures Slot(old(blk), old(inodes)[i], NDIRECT + k) != 0 ==>
                addr != 0 && logged == old(logged) && bits == old(bits)
      ensures old(logged) <= logged && Covered(Place(), old(Now()), Now(), logged)
    {
      hide Room, Recorded, Dying, Mapped, Bmapped, Indirected, ZeroBlock, Word, PutWord, Slot, Covered;
      SlotEntry(blk, inodes, own, i, k);
      var ind := LoadIndirect(i);
      if ind == 0 {
        return 0;
      }
      SlotEntry(blk, inodes, own, i, k);
      if old(inodes)[i].addrs[NDIRECT] == 0 {
        IndirectedSlots(old(blk), old(inodes), old(own), blk, inodes, own, i, ind);
      }
      ghost var blk1, inodes1, own1, now1, logged1 := blk, inodes, own, Now(), logged;
      addr := Word(blk[ind], k);
      if addr != 0 {
        BmapThere(blk, inodes, own, i, NDIRECT + k);
      } else {
        addr := NewEntry(i, k, ind);
        CoveredTrans(Place(), old(Now()), now1, Now(), logged1, logged);
        if addr == 0 {
          return;
        }
        if old(inodes)[i].addrs[NDIRECT] == 0 {
          BmapBoth(old(blk), old(inodes), old(own), blk1, inodes1, own1, blk, inodes, own, i, ind, NDIRECT + k, addr);
        }
      }
    }

    /** A new block for entry k of the indirect block; 0 when balloc panics. */
    method NewEntry(i: nat, k: nat, ind: nat) returns (addr: nat)
      requires Base() && Owned(blk, inodes, own) && i in inodes && k < NINDIRECT
      requires ind != 0 && inodes[i].addrs[NDIRECT] == ind && ind in blk && Word(blk[ind], k) == 0
      modifies `bits, `blk, `own, `logged
      ensures addr == 0 ==> NoneFree() && logged == old(logged)
      ensures addr == 0 <==> Room(old(own)) == 0
      ensures addr != 0 ==> Room(own) + 1 == Room(old(own))
      ensures addr != 0 ==> Base() && Owned(blk, inodes, own)
      ensures addr != 0 ==> Bmapped(old(blk), inodes, old(own), blk, inodes, own, i, NDIRECT + k, addr)
      ensures addr != 0 ==> addr < size && logged == old(logged) + {bmapstart + addr / BPB, addr} + {ind}
      ensures Covered(Place(), old(Now()), Now(), logged)
    {
      hide Room, Recorded, Dying, Mapped, Bmapped, Indirected, ZeroBlock, Word, PutWord, Slot, Covered;
      addr := BAlloc();
      if addr == 0 {
        return;
      }
      BmapEntry(old(blk), inodes, old(own), i, k, addr);
      CoverBlock(Place(), Now(), ind, PutWord(blk[ind], k, addr), logged);
      CoveredTrans(Place(), old(Now()), Now(), Now().(blk := blk[ind := PutWord(blk[ind], k, addr)]),
                   logged, logged + {ind});
      blk := blk[ind := PutWord(blk[ind], k, addr)];
      TakeHeld(bits, old(own), own, addr, Data(i, NDIRECT + k));
      RoomTaken(own, addr, Data(i, NDIRECT + k));
      own := own[addr := Data(i, NDIRECT + k)];
      logged := logged + {ind};
    }

    /** The indirect block of an inode, allocated if need be; 0 when balloc panics. */
    method LoadIndirect(i: nat) returns (ind: nat)
      requires Base() && Owned(blk, inodes, own) && i in inodes
      modifies `bits, `blk, `own, `logged, `inodes
      ensures old(inodes)[i].addrs[NDIRECT] != 0 ==>
                && ind == old(inodes)[i].addrs[NDIRECT] && bits == old(bits)
                && blk == old(blk) && inodes == old(inodes) && own == old(own) && logged == old(logged)
      ensures ind == 0 ==> NoneFree()
      ensures ind == 0 <==> old(inodes)[i].addrs[NDIRECT] == 0 && Room(old(own)) == 0
      ensures ind != 0 ==> Room(own) == Room(old(own)) - if old(inodes)[i].addrs[NDIRECT] == 0 then 1 else 0
      ensures ind != 0 && old(inodes)[i].addrs[NDIRECT] == 0 ==>
                Indirected(old(blk), old(inodes), old(own), blk, inodes, own, i, ind)
      ensures ind != 0 ==> Base() && Owned(blk, inodes, own) && i in inodes && inodes[i].addrs[NDIRECT] == ind
      ensures ind != 0 ==> forall b :: b in logged - old(logged) ==> IsBitmap(b) || b == ind
      ensures old(logged) <= logged && Covered(Place(), old(Now()), Now(), logged)
    {
      hide Room, Recorded, Dying, Mapped, Bmapped, Indirected, ZeroBlock, Word, PutWord, Slot, Covered;
      CoveredNothing(Place(), Now(), logged);
      ind := inodes[i].addrs[NDIRECT];
      if ind == 0 {
        ind := BAlloc();
        if ind == 0 {
          return 0;
        }
        NewIndirect(old(blk), inodes, old(own), i, ind);
        inodes := inodes[i := inodes[i].(addrs := inodes[i].addrs[NDIRECT := ind])];
        TakeHeld(bits, old(own), own, ind, Ind(i));
        RoomTaken(own, ind, Ind(i));
        own := own[ind := Ind(i)];
      }
    }

    /** Writes inode i into its block; the other inodes of the block stay. */
    method IUpdate(i: nat)
      requires i in inodes && i in dinodes && inodes[i].size < 0x1_0000_0000 && Recorded(Place(), iblk, dinodes)
      modifies `iblk, `dinodes, `logged
      ensures Recorded(Place(), iblk, dinodes) && dinodes == old(dinodes)[i := inodes[i]]
      ensures OneInode(Place(), old(iblk), iblk, i)
      ensures logged == old(logged) + {InodeBlock(i)} && Covered(Place(), old(Now()), Now(), logged)
    {
      hide DecodeInode, Covered;
      var b := InodeBlock(i);
      var v := StoreInode(iblk[b], i % 8, inodes[i]);
      RecordedPut(Place(), iblk, dinodes, i, v, inodes[i]);
      CoverInodes(Place(), Now(), b, v, dinodes[i := inodes[i]], logged);
      iblk := iblk[b := v];
      dinodes := dinodes[i := inodes[i]];
      logged := logged + {b};
    }

    /** Reads n bytes from off, or up to the end of the file. Nothing changes: in particular no block is allocated. */
    method ReadI(i: nat, off: Uint, n: Uint) returns (r: int, dst: seq<Byte>)
      requires Valid() && i in inodes
      modifies `bits, `blk, `own, `logged, `inodes
      ensures bits == old(bits) && blk == old(blk) && own == old(own) && logged == old(logged) && inodes == old(inodes)
      ensures r == -1 <==> off > inodes[i].size || off + n >= 0x1_0000_0000
      ensures r != -1 ==>
                && r == |dst|
                && dst == Content(blk, inodes[i])[off..if off + n < inodes[i].size then off + n else inodes[i].size]
    {
      hide Recorded, Dying, Mapped, Bmapped, Slot, FileByte, Part;
      dst := [];
      if off > inodes[i].size || (off + n) % 0x1_0000_0000 < off {
        return -1, [];
      }
      var len: nat := if off + n > inodes[i].size then inodes[i].size - off else n;
      var tot, o: nat := 0, off;
      while tot < len
        invariant bits == old(bits) && blk == old(blk) && own == old(own) && logged == old(logged)
                  && inodes == old(inodes)
        invariant tot <= len && o == off + tot && |dst| == tot
        invariant forall k: nat :: k < tot ==> dst[k] == FileByte(blk, inodes[i], off + k)
      {
        assert o / BSIZE * BSIZE < inodes[i].size && Slot(blk, inodes[i], o / BSIZE) != 0;
        SlotBound(blk, inodes[i], o / BSIZE);
        var addr := BMap(i, o / BSIZE);
        BmappedThere(old(blk), old(inodes), old(own), blk, inodes, own, i, o / BSIZE, addr);
        var m := Part(o, len - tot);
        var more := blk[addr][o % BSIZE..o % BSIZE + m];
        forall k: nat | k < m ensures more[k] == FileByte(blk, inodes[i], o + k) {
          ByteAt(blk, inodes[i], o + k, addr);
        }
        dst := dst + more;
        tot, o := tot + m, o + m;
      }
      r := len;
    }

    /** One turn of the loop of writei: the bytes go into the block of position o. */
    method WritePart(i: nat, o: nat, bytes: seq<Byte>) returns (ok: bool, ghost mid: Store)
      requires Base() && Owned(blk, inodes, own) && i in inodes && o / BSIZE < MAXFILE
      requires 0 < |bytes| && o % BSIZE + |bytes| <= BSIZE
      modifies `bits, `blk, `own, `logged, `inodes
      ensures !ok ==> NoneFree()
      ensures ok ==> Base() && Owned(blk, inodes, own) && SlotsGrow(old(blk), old(inodes), blk, inodes)
      ensures ok ==> inodes.Keys == old(inodes).Keys && Took(old(own), own, i)
      ensures ok ==>
                && SameBytes(old(blk), old(inodes), mid, inodes) && Owned(mid, inodes, own)
                && Slot(mid, inodes[i], o / BSIZE) in mid
                && blk == mid[Slot(mid, inodes[i], o / BSIZE) :=
                                Patch(mid[Slot(mid, inodes[i], o / BSIZE)], o % BSIZE, bytes)]
                && Slot(blk, inodes[i], o / BSIZE) != 0
      ensures ok ==> forall j :: j in inodes ==>
                       inodes[j].size == old(inodes)[j].size && (j != i ==> inodes[j] == old(inodes)[j])
      ensures ok <==> Needed(old(blk), old(inodes)[i], o, o + |bytes|) <= Room(old(own))
      ensures ok ==> Paid(old(blk), old(inodes)[i], old(own), blk, inodes[i], own, o, o + |bytes|)
      ensures ok && old(inodes)[i].addrs[NDIRECT] != 0 ==> inodes[i].addrs[NDIRECT] == old(inodes)[i].addrs[NDIRECT]
      ensures ok && Slot(old(blk), old(inodes)[i], o / BSIZE) != 0 ==> inodes == old(inodes)
      ensures ok ==> forall b :: b in logged - old(logged) ==>
                b == Slot(blk, inodes[i], o / BSIZE) || IsBitmap(b) || (b != 0 && b == inodes[i].addrs[NDIRECT])
      ensures old(logged) <= logged && Covered(Place(), old(Now()), Now(), logged)
    {
      hide Room, Needed, Recorded, Dying, Mapped, Slot, FileByte, Patch, SlotsGrow, SlotsBut, SameBytes, Covered;
      NeededOne(blk, inodes[i], o, |bytes|);
      var addr := BMap(i, o / BSIZE);
      if addr == 0 {
        return false, blk;
      }
      mid := blk;
      PartWritten(old(blk), old(inodes), old(own), blk, inodes, own, i, o / BSIZE, addr,
                  Patch(blk[addr], o % BSIZE, bytes));
      CoverBlock(Place(), Now(), addr, Patch(blk[addr], o % BSIZE, bytes), logged);
      CoveredTrans(Place(), old(Now()), Now(), Now().(blk := blk[addr := Patch(blk[addr], o % BSIZE, bytes)]),
                   logged, logged + {addr});
      blk := blk[addr := Patch(blk[addr], o % BSIZE, bytes)];
      logged := logged + {addr};
      ok := true;
    }

    /** Writes src into file i from off on. panicked stands for the panic of balloc. */
    method WriteI(i: nat, src: seq<Byte>, off: Uint) returns (r: int, panicked: bool)
      requires Valid() && i in inodes && |src| < 0x1_0000_0000
      modifies `bits, `blk, `own, `logged, `inodes, `dinodes, `iblk
      ensures panicked ==> NoneFree()
      ensures panicked <==> (&& off <= old(inodes)[i].size && off + |src| <= MAXFILE * BSIZE
                             && Room(old(own)) < Needed(old(blk), old(inodes)[i], off, off + |src|))
      ensures !panicked ==> Valid() && inodes.Keys == old(inodes).Keys
      ensures !panicked && r != -1 ==> Paid(old(blk), old(inodes)[i], old(own), blk, inodes[i], own, off, off + |src|)
      ensures !panicked && old(dinodes == inodes) ==> dinodes == inodes
      ensures !panicked ==> (r == -1 <==> off > old(inodes)[i].size || off + |src| > MAXFILE * BSIZE)
      ensures r == -1 ==>
                bits == old(bits) && blk == old(blk) && own == old(own) && logged == old(logged)
                && inodes == old(inodes) && dinodes == old(dinodes) && iblk == old(iblk)
      ensures !panicked && r != -1 ==> r == |src| && Took(old(own), own, i)
      ensures !panicked ==> iblk == old(iblk) || OneInode(Place(), old(iblk), iblk, i)
      ensures !panicked && r != -1 ==> forall j :: j in inodes ==>
                Content(blk, inodes[j]) == if j == i then Overwrite(old(Content(blk, inodes[i])), off, src)
                                           else Content(old(blk), old(inodes)[j])
      ensures !panicked && r != -1 ==> forall b :: b in logged - old(logged) ==>
                b == InodeBlock(i) || IsBitmap(b) || Touched(blk, inodes[i], off, off + |src|, b)
      ensures old(logged) <= logged && Covered(Place(), old(Now()), Now(), logged)
    {
      hide OneInode, Dying, Mapped, Slot, FileByte, Progress, Writing, Content, Overwrite, Complete, Touched, Took,
           NoneHeld, Covered, Recorded, Room, Needed, Paid;
      CoveredNothing(Place(), Now(), logged);
      panicked := false;
      var n := |src|;
      SizeBound(blk, inodes, i);
      if off > inodes[i].size || (off + n) % 0x1_0000_0000 < off {
        return -1, false;
      }
      if off + n > MAXFILE * BSIZE {
        return -1, false;
      }
      ProgressStart(blk, inodes, i, off);
      var ok := WriteLoop(i, src, off);
      if !ok {
        return 0, true;
      }
      ProgressEnd(old(blk), old(inodes), blk, inodes, i, off + n);
      TookHeld(old(own), own, i);
      if n > 0 && off + n > inodes[i].size {
        Resized(old(blk), old(inodes), blk, inodes, own, i, off, src, off + n);
        PaidResized(old(blk), old(inodes)[i], old(own), blk, inodes[i], own, off, off + n, off + n);
        Resize(i, off + n, old(Now()));
      }
      ContentsWritten(old(blk), old(inodes), blk, inodes, i, off, src);
      r := n;
    }

    /** The end of writei for a file that has grown. */
    method Resize(i: nat, end: nat, ghost now0: Image)
      requires i in inodes && i in dinodes && end < 0x1_0000_0000 && Recorded(Place(), iblk, dinodes)
      requires Covered(Place(), now0, Now(), logged)
      modifies `inodes, `dinodes, `iblk, `logged
      ensures inodes == old(inodes)[i := old(inodes)[i].(size := end)] && dinodes == old(dinodes)[i := inodes[i]]
      ensures Recorded(Place(), iblk, dinodes) && logged == old(logged) + {InodeBlock(i)}
      ensures Covered(Place(), now0, Now(), logged) && OneInode(Place(), old(iblk), iblk, i)
    {
      hide Recorded, Covered, OneInode;
      inodes := inodes[i := inodes[i].(size := end)];
      IUpdate(i);
      CoveredTrans(Place(), now0, old(Now()), Now(), old(logged), logged);
    }

    /** The loop of writei. */
    method WriteLoop(i: nat, src: seq<Byte>, off: nat) returns (ok: bool)
      requires Base() && Owned(blk, inodes, own) && i in inodes && off + |src| <= MAXFILE * BSIZE
      requires Progress(blk, inodes, blk, inodes, i, off)
      modifies `bits, `blk, `own, `logged, `inodes
      ensures !ok ==> NoneFree()
      ensures ok ==> Base() && Owned(blk, inodes, own) && inodes.Keys == old(inodes).Keys && Took(old(own), own, i)
      ensures ok ==> Writing(old(blk), old(inodes), blk, inodes, i, off, src, |src|)
      ensures ok ==> Progress(old(blk), old(inodes), blk, inodes, i, off + |src|)
      ensures ok <==> Needed(old(blk), old(inodes)[i], off, off + |src|) <= Room(old(own))
      ensures ok ==> i in inodes && Paid(old(blk), old(inodes)[i], old(own), blk, inodes[i], own, off, off + |src|)
      ensures ok ==> forall b :: b in logged - old(logged) ==>
                       IsBitmap(b) || Touched(blk, inodes[i], off, off + |src|, b)
      ensures old(logged) <= logged && Covered(Place(), old(Now()), Now(), logged)
    {
      hide Recorded, Dying, Mapped, Slot, FileByte, Part, Patch, SlotsGrow, Progress, Writing, SameBytes, Touched,
           Took, Covered, Room, Needed, Paid;
      PaidNothing(blk, inodes[i], own, off);
      CoveredNothing(Place(), Now(), logged);
      TookNothing(own, i);
      var tot: nat, o: nat, n := 0, off, |src|;
      WriteStart(blk, inodes, i, off, src);
      while tot < n
        invariant tot <= n && o == off + tot
        invariant Base() && Owned(blk, inodes, own) && inodes.Keys == old(inodes).Keys && Took(old(own), own, i)
        invariant Writing(old(blk), old(inodes), blk, inodes, i, off, src, tot)
        invariant Progress(old(blk), old(inodes), blk, inodes, i, o)
        invariant Paid(old(blk), old(inodes)[i], old(own), blk, inodes[i], own, off, o)
        invariant forall b :: b in logged - old(logged) ==> IsBitmap(b) || Touched(blk, inodes[i], off, o, b)
        invariant old(logged) <= logged && Covered(Place(), old(Now()), Now(), logged)
      {
        ghost var blk1, inodes1, own1, now1, logged1 := blk, inodes, own, Now(), logged;
        var m := Part(o, n - tot);
        var done, mid := WritePart(i, o, src[tot..tot + m]);
        CoveredTrans(Place(), old(Now()), now1, Now(), logged1, logged);
        if !done {
          PaidShort(old(blk), old(inodes)[i], old(own), blk1, inodes1[i], own1, off, o, o + m, off + n);
          return false;
        }
        TookMore(old(own), own1, own, i);
        PaidMore(old(blk), old(inodes)[i], old(own), blk1, inodes1[i], own1, blk, inodes[i], own, off, o, o + m);
        WriteStep(old(blk), old(inodes), blk1, inodes1, mid, inodes, own, i, off, src, tot);
        ProgressStep(old(blk), old(inodes), blk1, inodes1, blk, inodes, i, o, m);
        forall b | b in logged - old(logged) ensures IsBitmap(b) || Touched(blk, inodes[i], off, o + m, b) {
          StillTouched(blk1, inodes1, blk, inodes, i, off, o, o + m, b);
        }
        tot, o := tot + m, o + m;
      }
      PaidEnough(old(blk), old(inodes)[i], old(own), blk, inodes[i], own, off, off + n);
      ok := true;
    }

    /** Frees all blocks of inode i. */
    method ITrunc(i: nat)
      requires Valid() && i in inodes
      modifies `bits, `own, `logged, `inodes, `dinodes, `iblk
      ensures Valid() && own == FreeAll(old(own), i) && blk == old(blk)
      ensures inodes == old(inodes)[i := EmptyInode()] && dinodes == old(dinodes)[i := EmptyInode()]
      ensures forall b :: b in logged - old(logged) ==> b == InodeBlock(i) || IsBitmap(b)
      ensures old(logged) <= logged && Covered(Place(), old(Now()), Now(), logged)
      ensures OneInode(Place(), old(iblk), iblk, i)
    {
      hide OneInode, Recorded, Dying, Mapped, Slot, Complete, FreeAll, FreeUpTo, Word, Covered;
      TruncDirect(i);
      ghost var now1, logged1 := Now(), logged;
      assert inodes[i := EmptyInode()] == old(inodes)[i := EmptyInode()];
      if inodes[i].addrs[NDIRECT] != 0 {
        TruncIndirect(i, old(own));
        CoveredTrans(Place(), old(Now()), now1, Now(), logged1, logged);
      } else {
        NoIndirect(blk, inodes, old(own), own, i);
      }
      now1, logged1 := Now(), logged;
      TruncEnd(i, old(inodes), old(own));
      CoveredTrans(Place(), old(Now()), now1, Now(), logged1, logged);
    }

    /** The rest of itrunc: the indirect block goes and the inode is written back. */
    method TruncEnd(i: nat, ghost inodes0: Inodes, ghost own0: Owners)
      requires Base() && i in inodes && i in inodes0 && inodes[i := EmptyInode()] == inodes0[i := EmptyInode()]
      requires Dying(blk, inodes, own, i, MAXFILE) && own == FreeUpTo(own0, i, MAXFILE) && Complete(blk, inodes0)
      requires (forall k :: 0 <= k < NDIRECT ==> inodes[i].addrs[k] == 0) && dinodes.Keys == inodes0.Keys
      requires Recorded(Place(), iblk, dinodes)
               && NoneHeld(own0)
      modifies `bits, `own, `logged, `inodes, `dinodes, `iblk
      ensures Valid() && own == FreeAll(own0, i) && blk == old(blk)
      ensures inodes == inodes0[i := EmptyInode()] && dinodes == old(dinodes)[i := EmptyInode()]
      ensures forall b :: b in logged - old(logged) ==> b == InodeBlock(i) || IsBitmap(b)
      ensures old(logged) <= logged && Covered(Place(), old(Now()), Now(), logged)
      ensures OneInode(Place(), old(iblk), iblk, i)
    {
      hide OneInode, Recorded, Dying, Mapped, Slot, Complete, FreeAll, FreeUpTo, Word, Covered;
      CoveredNothing(Place(), Now(), logged);
      TruncatedOwners(blk, inodes, own0, own, i);
      Truncated(blk, inodes, own, i);
      CompleteEmpty(blk, inodes0, i);
      FreeAllHeld(own0, i);
      if inodes[i].addrs[NDIRECT] != 0 {
        BFree(inodes[i].addrs[NDIRECT]);
        inodes := inodes[i := inodes[i].(addrs := inodes[i].addrs[NDIRECT := 0])];
      }
      inodes := inodes[i := inodes[i].(size := 0)];
      assert inodes[i].addrs == EmptyInode().addrs;
      assert inodes == inodes0[i := EmptyInode()];
      ghost var now1, logged1 := Now(), logged;
      IUpdate(i);
      CoveredTrans(Place(), old(Now()), now1, Now(), logged1, logged);
    }

    /** The first loop of itrunc. */
    method TruncDirect(i: nat)
      requires Base() && Owned(blk, inodes, own) && i in inodes
      modifies `bits, `own, `logged, `inodes
      ensures Base() && Dying(blk, inodes, own, i, NDIRECT) && own == FreeUpTo(old(own), i, NDIRECT)
      ensures i in inodes && inodes == old(inodes)[i := inodes[i]]
      ensures forall k :: 0 <= k < NDIRECT ==> inodes[i].addrs[k] == 0
      ensures forall b :: b in logged - old(logged) ==> IsBitmap(b)
      ensures old(logged) <= logged && Covered(Place(), old(Now()), Now(), logged)
    {
      hide Recorded, Mapped, Slot, FreeUpTo, Dying, Covered;
      CoveredNothing(Place(), Now(), logged);
      FreeNone(own, i);
      StartDying(blk, inodes, own, i);
      for k := 0 to NDIRECT
        invariant Base() && Dying(blk, inodes, own, i, k) && own == FreeUpTo(old(own), i, k)
        invariant i in inodes && inodes == old(inodes)[i := inodes[i]]
        invariant forall m :: 0 <= m < k ==> inodes[i].addrs[m] == 0
        invariant forall b :: b in logged - old(logged) ==> IsBitmap(b)
        invariant old(logged) <= logged && Covered(Place(), old(Now()), Now(), logged)
      {
        DirectSlot(blk, inodes[i], k);
        if inodes[i].addrs[k] != 0 {
          FreeStep(blk, inodes, old(own), own, i, k);
          ghost var now1, logged1 := Now(), logged;
          BFree(inodes[i].addrs[k]);
          CoveredTrans(Place(), old(Now()), now1, Now(), logged1, logged);
          ClearSlot(blk, inodes, old(own), own, i, k);
          inodes := inodes[i := inodes[i].(addrs := inodes[i].addrs[k := 0])];
        } else {
          FreeSkip(blk, inodes, old(own), own, i, k);
        }
      }
    }

    /** The second loop of itrunc. */
    method TruncIndirect(i: nat, ghost own0: Owners)
      requires Base() && i in inodes && inodes[i].addrs[NDIRECT] != 0
      requires Dying(blk, inodes, own, i, NDIRECT) && own == FreeUpTo(own0, i, NDIRECT)
      modifies `bits, `own, `logged
      ensures Base() && Dying(blk, inodes, own, i, MAXFILE) && own == FreeUpTo(own0, i, MAXFILE)
      ensures forall b :: b in logged - old(logged) ==> IsBitmap(b)
      ensures old(logged) <= logged && Covered(Place(), old(Now()), Now(), logged)
    {
      hide Recorded, Mapped, Slot, FreeUpTo, Dying, Word, Covered;
      CoveredNothing(Place(), Now(), logged);
      EntrySlots(blk, inodes, own, i);
      var a := blk[inodes[i].addrs[NDIRECT]];
      for j := 0 to NINDIRECT
        invariant Base() && Dying(blk, inodes, own, i, NDIRECT + j) && own == FreeUpTo(own0, i, NDIRECT + j)
        invariant forall b :: b in logged - old(logged) ==> IsBitmap(b)
        invariant old(logged) <= logged && Covered(Place(), old(Now()), Now(), logged)
      {
        assert Slot(blk, inodes[i], NDIRECT + j) == Word(a, j);
        if Word(a, j) != 0 {
          FreeStep(blk, inodes, own0, own, i, NDIRECT + j);
          ghost var now1, logged1 := Now(), logged;
          BFree(Word(a, j));
          CoveredTrans(Place(), old(Now()), now1, Now(), logged1, logged);
        } else {
          FreeSkip(blk, inodes, own0, own, i, NDIRECT + j);
        }
      }
    }
  }
}
