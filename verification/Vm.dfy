/** Virtual memory: two-level page tables (vm.c) over the free list of physical frames (kalloc.c).

  A frame is named by its physical address divided by PGSIZE, and a virtual page by its virtual
  address divided by PGSIZE; the kernel pointer to a frame is its physical address plus KERNBASE,
  so a frame number stands for it (0 is the null pointer). A frame holds 1024 words. */
module Vm {
  const PGSIZE := 4096
  const NENTRIES := 1024
  const PTE_P := 1
  const PTE_W := 2
  const PTE_U := 4
  const KERNBASE := 0x80000000
  const KERNEL := 0x80000      // first kernel page, KERNBASE / PGSIZE
  const EXTMEM := 0x100        // the frame of EXTMEM
  const PHYSTOP := 0xE000      // the frame of PHYSTOP
  const DEVSPACE := 0xFE000    // the page of DEVSPACE
  const PAGES := 0x100000      // virtual pages in all

  type Page = s: seq<nat> | |s| == 1024 witness seq(1024, i => 0)
  type Frames = map<nat, Page>

  /** What a frame is used for. Every frame has one owner, so no frame is shared. */
  datatype Owner =
    | Free
    | Held                           // out of the allocator, not mapped by a page table below KERNBASE
    | Dir                            // a page directory
    | Table(dir: nat, index: nat)    // the page table of one entry of a directory
    | User(dir: nat, page: nat)      // the page mapped at one user address

  function Word(mem: Frames, f: nat, j: nat): nat {
    if f in mem && j < NENTRIES then mem[f][j] else 0
  }

  predicate Present(w: nat) { w % 2 == 1 }

  function FrameOf(w: nat): nat { w / PGSIZE }

  /** pa | perm | PTE_P */
  function Entry(frame: nat, perm: nat): (w: nat)
    requires perm < PGSIZE
    ensures Present(w) && FrameOf(w) == frame
    ensures w % PGSIZE == (if Present(perm) then perm else perm + PTE_P)
  {
    var flags := if Present(perm) then perm else perm + PTE_P;
    EntryParts(frame, flags);
    frame * PGSIZE + flags
  }

  lemma EntryParts(frame: nat, flags: nat)
    requires flags < 4096
    ensures (frame * 4096 + flags) / 4096 == frame && (frame * 4096 + flags) % 4096 == flags
    ensures (frame * 4096 + flags) % 2 == flags % 2
  {
    assert frame * 4096 + flags == 2 * (frame * 2048) + flags;
  }

  /** The page table entry the hardware finds for a virtual page; 0 when there is no table. */
  function Pte(mem: Frames, d: nat, v: nat): nat {
    var e := Word(mem, d, v / NENTRIES);
    if Present(e) then Word(mem, FrameOf(e), v % NENTRIES) else 0
  }

  // ---- The invariant ----

  ghost predicate Owns(own: map<nat, Owner>, f: nat, o: Owner) { f in own && own[f] == o }

  ghost predicate DirOk(mem: Frames, own: map<nat, Owner>, d: nat, k: nat) {
    forall i :: k <= i < NENTRIES && Present(Word(mem, d, i)) ==>
      Word(mem, d, i) % PGSIZE == 7 && Owns(own, FrameOf(Word(mem, d, i)), Table(d, i))
  }

  ghost predicate TableOk(mem: Frames, own: map<nat, Owner>, f: nat, d: nat, i: nat) {
    && i < NENTRIES && Owns(own, d, Dir) && Word(mem, d, i) == Entry(f, 7)
    && (i < 512 ==> forall j: nat :: j < NENTRIES && Present(Word(mem, f, j)) ==>
          Owns(own, FrameOf(Word(mem, f, j)), User(d, i * NENTRIES + j)))
  }

  ghost predicate UserOk(mem: Frames, own: map<nat, Owner>, f: nat, d: nat, v: nat) {
    v < KERNEL && Owns(own, d, Dir) && Present(Pte(mem, d, v)) && FrameOf(Pte(mem, d, v)) == f
  }

  /** A frame is what its owner says; of the directory `dying` only the entries from k on count. */
  ghost predicate FrameOk(mem: Frames, own: map<nat, Owner>, f: nat, dying: nat, k: nat)
    requires f in own
  {
    match own[f]
    case Free => true
    case Held => true
    case Dir => DirOk(mem, own, f, if f == dying then k else 0)
    case Table(d, i) => TableOk(mem, own, f, d, i)
    case User(d, v) => UserOk(mem, own, f, d, v)
  }

  ghost predicate Dying(mem: Frames, own: map<nat, Owner>, d: nat, k: nat) {
    mem.Keys == own.Keys && forall f :: f in own ==> FrameOk(mem, own, f, d, k)
  }

  /** Every page table in memory is well formed and every frame has the one owner it is used by. */
  ghost predicate Spaces(mem: Frames, own: map<nat, Owner>) {
    Dying(mem, own, 0, 0)
  }

  /** The free list runs through the first words of exactly the free frames, from the last of
    the chain to the first. */
  ghost predicate FreeList(mem: Frames, own: map<nat, Owner>, head: nat, chain: seq<nat>) {
    && mem.Keys == own.Keys && 0 !in own
    && (forall f :: f in own ==> (own[f].Free? <==> f in chain))
    && (forall i :: 0 <= i < |chain| ==> chain[i] in own)
    && (forall i, j :: 0 <= i < j < |chain| ==> chain[i] != chain[j])
    && head == Under(chain, |chain|)
    && forall i :: 0 <= i < |chain| ==> Linked(mem, chain, i)
  }

  function Under(chain: seq<nat>, i: nat): nat
    requires i <= |chain|
  {
    if i == 0 then 0 else chain[i - 1]
  }

  predicate Linked(mem: Frames, chain: seq<nat>, i: nat)
    requires i < |chain|
  {
    Word(mem, chain[i], 0) == Under(chain, i) * PGSIZE
  }

  lemma PopFree(mem: Frames, own: map<nat, Owner>, head: nat, chain: seq<nat>)
    requires FreeList(mem, own, head, chain) && chain != []
    ensures head in own && own[head].Free? && head != 0
    ensures FreeList(mem, own[head := Held], FrameOf(Word(mem, head, 0)), chain[..|chain| - 1])
  {
    hide Linked, Word;
    PopLinks(mem, chain);
    var rest := chain[..|chain| - 1];
    assert chain == rest + [head];
  }

  lemma PopLinks(mem: Frames, chain: seq<nat>)
    requires chain != [] && forall i :: 0 <= i < |chain| ==> Linked(mem, chain, i)
    ensures var rest := chain[..|chain| - 1];
            && FrameOf(Word(mem, chain[|rest|], 0)) == Under(rest, |rest|)
            && forall i :: 0 <= i < |rest| ==> Linked(mem, rest, i)
  {
    var rest := chain[..|chain| - 1];
    assert Linked(mem, chain, |rest|);
    forall i | 0 <= i < |rest| ensures Linked(mem, rest, i) {
      assert Linked(mem, chain, i);
    }
  }

  lemma PushFree(mem: Frames, own: map<nat, Owner>, head: nat, chain: seq<nat>, f: nat, page: Page)
    requires FreeList(mem, own, head, chain) && f in own && !own[f].Free? && page[0] == head * PGSIZE
    ensures FreeList(mem[f := page], own[f := Free], f, chain + [f])
  {
    var mem', chain' := mem[f := page], chain + [f];
    forall i | 0 <= i < |chain'| ensures Linked(mem', chain', i) {
      if i < |chain| {
        assert chain[i] in chain && Linked(mem, chain, i);
      }
    }
  }

  /** Frames that are not free may be written and change hands. */
  lemma UseFrame(mem: Frames, own: map<nat, Owner>, head: nat, chain: seq<nat>, f: nat, page: Page, o: Owner)
    requires FreeList(mem, own, head, chain) && f in own && !own[f].Free? && !o.Free?
    ensures FreeList(mem[f := page], own[f := o], head, chain)
  {
    var mem' := mem[f := page];
    forall i | 0 <= i < |chain| ensures Linked(mem', chain, i) {
      assert chain[i] in chain && Linked(mem, chain, i);
    }
  }

  // ---- What each kind of update keeps ----

  /** A frame that no page table refers to may change and get or lose its other uses. */
  lemma Unreferenced(mem: Frames, own: map<nat, Owner>, f: nat, page: Page, o: Owner)
    requires Spaces(mem, own) && f in own && own[f] in {Free, Held} && o in {Free, Held}
    ensures Spaces(mem[f := page], own[f := o])
    ensures forall d, v :: Owns(own, d, Dir) ==> Pte(mem[f := page], d, v) == Pte(mem, d, v)
  {
    var mem', own' := mem[f := page], own[f := o];
    assert forall g, j :: g != f ==> Word(mem', g, j) == Word(mem, g, j);
    assert forall g, q :: Owns(own, g, q) && q !in {Free, Held} ==> Owns(own', g, q);
    forall d, v | Owns(own, d, Dir) ensures Pte(mem', d, v) == Pte(mem, d, v) {
      assert FrameOk(mem, own, d, 0, 0);
    }
    forall g | g in own' ensures FrameOk(mem', own', g, 0, 0) {
      assert FrameOk(mem, own, g, 0, 0);
      match own'[g]
      case Free =>
      case Held =>
      case Dir => assert DirOk(mem', own', g, 0);
      case Table(d, i) => assert TableOk(mem', own', g, d, i);
      case User(d, v) => assert UserOk(mem', own', g, d, v);
    }
  }

  function ZeroPage(): Page { seq(1024, i => 0) }

  lemma NewTablePte(mem: Frames, own: map<nat, Owner>, d: nat, i: nat, t: nat, c: nat, v: nat)
    requires Spaces(mem, own) && Owns(own, d, Dir) && i < NENTRIES && !Present(Word(mem, d, i))
    requires Owns(own, t, Held) && Owns(own, c, Dir)
    ensures Pte(mem[t := ZeroPage()][d := mem[d][i := Entry(t, 7)]], c, v) == Pte(mem, c, v)
  {
    assert FrameOk(mem, own, c, 0, 0);
  }

  /** A zeroed frame becomes the page table of an empty directory entry. */
  lemma NewTable(mem: Frames, own: map<nat, Owner>, d: nat, i: nat, t: nat)
    requires Spaces(mem, own) && Owns(own, d, Dir) && i < NENTRIES && !Present(Word(mem, d, i))
    requires Owns(own, t, Held)
    ensures var mem' := mem[t := ZeroPage()][d := mem[d][i := Entry(t, 7)]];
            && Spaces(mem', own[t := Table(d, i)])
            && forall c, v :: Owns(own, c, Dir) ==> Pte(mem', c, v) == Pte(mem, c, v)
  {
    hide Pte;
    var mem', own' := mem[t := ZeroPage()][d := mem[d][i := Entry(t, 7)]], own[t := Table(d, i)];
    forall c, v | Owns(own, c, Dir) ensures Pte(mem', c, v) == Pte(mem, c, v) {
      NewTablePte(mem, own, d, i, t, c, v);
    }
    assert forall g, j :: g != t && (g != d || j != i) ==> Word(mem', g, j) == Word(mem, g, j);
    assert forall j :: Word(mem', t, j) == 0;
    assert Word(mem', d, i) == Entry(t, 7);
    assert forall g, q :: Owns(own, g, q) && q != Held ==> Owns(own', g, q);
    forall g | g in own' ensures FrameOk(mem', own', g, 0, 0) {
      assert FrameOk(mem, own, g, 0, 0);
    }
  }

  lemma Walk(mem: Frames, own: map<nat, Owner>, d: nat, v: nat)
    requires Spaces(mem, own) && Owns(own, d, Dir) && v < PAGES && Present(Word(mem, d, v / NENTRIES))
    ensures var t := FrameOf(Word(mem, d, v / NENTRIES));
            Owns(own, t, Table(d, v / NENTRIES)) && Pte(mem, d, v) == Word(mem, t, v % NENTRIES)
  {
    assert FrameOk(mem, own, d, 0, 0);
  }

  lemma NoTable(mem: Frames, d: nat, v: nat)
    requires !Present(Word(mem, d, v / NENTRIES))
    ensures Pte(mem, d, v) == 0
  {
  }

  /** Where in memory the entry of page i * 1024 + j of directory d is. */
  lemma Slot(mem: Frames, own: map<nat, Owner>, d: nat, i: nat, t: nat, c: nat, v: nat)
    requires Spaces(mem, own) && Owns(own, t, Table(d, i)) && Owns(own, c, Dir)
    ensures Present(Word(mem, c, v / NENTRIES)) ==>
              (FrameOf(Word(mem, c, v / NENTRIES)) == t <==> c == d && v / NENTRIES == i)
  {
    assert FrameOk(mem, own, t, 0, 0) && FrameOk(mem, own, c, 0, 0);
  }

  /** Writing one entry of a page table changes what one page of one directory maps to. */
  lemma SetEntry(mem: Frames, own: map<nat, Owner>, d: nat, i: nat, t: nat, j: nat, w: nat, c: nat, v: nat)
    requires Spaces(mem, own) && Owns(own, t, Table(d, i)) && Owns(own, c, Dir) && j < NENTRIES
    ensures Pte(mem[t := mem[t][j := w]], c, v) ==
              if c == d && v == i * NENTRIES + j then w else Pte(mem, c, v)
  {
    Slot(mem, own, d, i, t, c, v);
    assert FrameOk(mem, own, t, 0, 0);
    var mem' := mem[t := mem[t][j := w]];
    assert Word(mem', c, v / NENTRIES) == Word(mem, c, v / NENTRIES);
  }

  lemma SetKernelEntry(mem: Frames, own: map<nat, Owner>, d: nat, i: nat, t: nat, j: nat, w: nat)
    requires Spaces(mem, own) && Owns(own, t, Table(d, i)) && 512 <= i && j < NENTRIES
    ensures Spaces(mem[t := mem[t][j := w]], own)
  {
    var mem' := mem[t := mem[t][j := w]];
    assert forall g, k :: g != t || k != j ==> Word(mem', g, k) == Word(mem, g, k);
    forall g | g in own ensures FrameOk(mem', own, g, 0, 0) {
      assert FrameOk(mem, own, g, 0, 0);
      if own[g].User? {
        SetEntry(mem, own, d, i, t, j, w, own[g].dir, own[g].page);
      }
    }
  }

  lemma SetUserEntry(mem: Frames, own: map<nat, Owner>, d: nat, i: nat, t: nat, j: nat, w: nat)
    requires Spaces(mem, own) && Owns(own, t, Table(d, i)) && i < 512 && j < NENTRIES
    requires Present(w) && Owns(own, FrameOf(w), Held) && !Present(Word(mem, t, j))
    ensures Spaces(mem[t := mem[t][j := w]], own[FrameOf(w) := User(d, i * NENTRIES + j)])
  {
    var mem', own' := mem[t := mem[t][j := w]], own[FrameOf(w) := User(d, i * NENTRIES + j)];
    assert forall g, k :: g != t || k != j ==> Word(mem', g, k) == Word(mem, g, k);
    assert forall g, q :: Owns(own, g, q) && q != Held ==> Owns(own', g, q);
    assert FrameOk(mem, own, t, 0, 0);
    forall g | g in own' ensures FrameOk(mem', own', g, 0, 0) {
      assert FrameOk(mem, own, g, 0, 0);
      if own'[g].User? {
        SetEntry(mem, own, d, i, t, j, w, own'[g].dir, own'[g].page);
        Slot(mem, own, d, i, t, own'[g].dir, own'[g].page);
      }
    }
  }

  /** Freeing the page of an entry and clearing the entry. */
  lemma ClearUserEntry(mem: Frames, own: map<nat, Owner>, d: nat, i: nat, t: nat, j: nat, page: Page)
    requires Spaces(mem, own) && Owns(own, t, Table(d, i)) && i < 512 && j < NENTRIES && Present(Word(mem, t, j))
    ensures var f := FrameOf(Word(mem, t, j));
            && Owns(own, f, User(d, i * NENTRIES + j))
            && Spaces(mem[f := page][t := mem[t][j := 0]], own[f := Free])
  {
    var f := FrameOf(Word(mem, t, j));
    assert FrameOk(mem, own, t, 0, 0);
    var mem', own' := mem[f := page][t := mem[t][j := 0]], own[f := Free];
    assert forall g, k :: g != f && (g != t || k != j) ==> Word(mem', g, k) == Word(mem, g, k);
    assert forall g, q :: Owns(own, g, q) && g != f ==> Owns(own', g, q);
    forall g | g in own' ensures FrameOk(mem', own', g, 0, 0) {
      assert FrameOk(mem, own, g, 0, 0);
      if own'[g].User? {
        ClearOtherUser(mem, own, d, i, t, j, page, g);
      } else {
        hide UserOk, Pte;
      }
    }
  }

  lemma ClearOtherUser(mem: Frames, own: map<nat, Owner>, d: nat, i: nat, t: nat, j: nat, page: Page, g: nat)
    requires Spaces(mem, own) && Owns(own, t, Table(d, i)) && j < NENTRIES
    requires Owns(own, FrameOf(Word(mem, t, j)), User(d, i * NENTRIES + j))
    requires g in own && own[g].User? && g != FrameOf(Word(mem, t, j))
    ensures var f := FrameOf(Word(mem, t, j));
            UserOk(mem[f := page][t := mem[t][j := 0]], own[f := Free], g, own[g].dir, own[g].page)
  {
    var c, v := own[g].dir, own[g].page;
    assert FrameOk(mem, own, g, 0, 0);
    Slot(mem, own, d, i, t, c, v);
    Walk(mem, own, c, v);
    hide Dying;
  }

  // ---- Unmapping a range of pages ----

  ghost predicate Maps(o: Owner, d: nat, lo: nat, hi: nat) {
    o.User? && o.dir == d && lo <= o.page < hi
  }

  /** The owners once the pages lo..hi of a directory have been freed. */
  ghost function Drop(own: map<nat, Owner>, d: nat, lo: nat, hi: nat): map<nat, Owner> {
    map f | f in own :: if Maps(own[f], d, lo, hi) then Free else own[f]
  }

  /** The words once the entries of the pages lo..hi of a directory have been cleared. */
  ghost function Cleared(mem: Frames, own: map<nat, Owner>, d: nat, lo: nat, hi: nat, f: nat, j: nat): nat
    requires f in own
  {
    if && own[f].Table? && own[f].dir == d && lo <= own[f].index * NENTRIES + j < hi
       && Present(Word(mem, f, j)) then 0 else Word(mem, f, j)
  }

  ghost predicate Unmapped(mem: Frames, mem': Frames, own: map<nat, Owner>, d: nat, lo: nat, hi: nat) {
    forall f, j: nat :: f in own && !own[f].Free? && !Maps(own[f], d, lo, hi) && j < NENTRIES ==>
      Word(mem', f, j) == Cleared(mem, own, d, lo, hi, f, j)
  }

  ghost predicate NoneMapped(own: map<nat, Owner>, d: nat, lo: nat, hi: nat) {
    forall f :: f in own ==> !Maps(own[f], d, lo, hi)
  }

  /** How far the unmapping of lo..hi has got. */
  ghost predicate Unmapping(mem0: Frames, own0: map<nat, Owner>, mem: Frames, own: map<nat, Owner>,
                            d: nat, lo: nat, a: nat) {
    own == Drop(own0, d, lo, a) && Unmapped(mem0, mem, own0, d, lo, a)
  }

  lemma StartUnmap(mem: Frames, own: map<nat, Owner>, d: nat, lo: nat, hi: nat)
    requires hi <= lo
    ensures Unmapping(mem, own, mem, own, d, lo, hi)
  {
    assert own == Drop(own, d, lo, hi);
  }

  lemma EndUnmap(mem0: Frames, own0: map<nat, Owner>, mem: Frames, own: map<nat, Owner>, d: nat, lo: nat, a: nat)
    requires Unmapping(mem0, own0, mem, own, d, lo, a)
    ensures own == Drop(own0, d, lo, a) && Unmapped(mem0, mem, own0, d, lo, a)
  {
  }

  /** Pages that are not mapped need nothing done. */
  lemma UnmapNone(mem0: Frames, own0: map<nat, Owner>, mem: Frames, own: map<nat, Owner>,
                  d: nat, lo: nat, a: nat, b: nat)
    requires Spaces(mem, own) && Unmapping(mem0, own0, mem, own, d, lo, a)
    requires lo <= a <= b <= KERNEL && NoneMapped(own, d, a, b)
    ensures Unmapping(mem0, own0, mem, own, d, lo, b)
  {
    assert forall f :: f in own0 ==> f in own && (!Maps(own0[f], d, lo, a) ==> own[f] == own0[f]);
    assert own == Drop(own0, d, lo, b);
    forall f, j: nat | f in own0 && !own0[f].Free? && !Maps(own0[f], d, lo, b) && j < NENTRIES
      ensures Word(mem, f, j) == Cleared(mem0, own0, d, lo, b, f, j)
    {
      assert own[f] == own0[f] && FrameOk(mem, own, f, 0, 0);
      assert Word(mem, f, j) == Cleared(mem0, own0, d, lo, a, f, j);
    }
  }

  /** Freeing the one page at a and clearing its entry. */
  lemma UnmapOne(mem0: Frames, own0: map<nat, Owner>, mem: Frames, own: map<nat, Owner>,
                 d: nat, lo: nat, a: nat, t: nat, page: Page)
    requires Spaces(mem, own) && Unmapping(mem0, own0, mem, own, d, lo, a)
    requires lo <= a < KERNEL && Owns(own, t, Table(d, a / NENTRIES)) && Present(Word(mem, t, a % NENTRIES))
    ensures var f := FrameOf(Word(mem, t, a % NENTRIES));
            && Owns(own, f, User(d, a))
            && Spaces(mem[f := page][t := mem[t][a % NENTRIES := 0]], own[f := Free])
            && Unmapping(mem0, own0, mem[f := page][t := mem[t][a % NENTRIES := 0]], own[f := Free], d, lo, a + 1)
  {
    hide Dying, Pte, Unmapped, Word;
    var i, j := a / NENTRIES, a % NENTRIES;
    TableIn(mem, own, t, d, i);
    ClearUserEntry(mem, own, d, i, t, j, page);
    var f := FrameOf(Word(mem, t, j));
    var mem', own' := mem[f := page][t := mem[t][j := 0]], own[f := Free];
    forall g | g in own0 && Maps(own0[g], d, a, a + 1) ensures g == f {
      SamePage(mem, own, d, a, f, g);
    }
    assert own' == Drop(own0, d, lo, a + 1);
    UnmapOneWords(mem0, own0, mem, own, d, lo, a, t, f, page);
  }

  lemma SamePage(mem: Frames, own: map<nat, Owner>, d: nat, v: nat, f: nat, g: nat)
    requires Spaces(mem, own) && Owns(own, f, User(d, v)) && Owns(own, g, User(d, v))
    ensures f == g
  {
    assert FrameOk(mem, own, f, 0, 0) && FrameOk(mem, own, g, 0, 0);
  }

  lemma SameTable(mem: Frames, own: map<nat, Owner>, d: nat, i: nat, t: nat, g: nat)
    requires Spaces(mem, own) && Owns(own, t, Table(d, i)) && Owns(own, g, Table(d, i))
    ensures t == g
  {
    assert FrameOk(mem, own, t, 0, 0) && FrameOk(mem, own, g, 0, 0);
  }

  lemma UnmapOneWords(mem0: Frames, own0: map<nat, Owner>, mem: Frames, own: map<nat, Owner>,
                      d: nat, lo: nat, a: nat, t: nat, f: nat, page: Page)
    requires Spaces(mem, own) && Unmapping(mem0, own0, mem, own, d, lo, a)
    requires lo <= a < KERNEL && Owns(own, t, Table(d, a / NENTRIES)) && Present(Word(mem, t, a % NENTRIES))
    requires Owns(own, f, User(d, a))
    ensures Unmapped(mem0, mem[f := page][t := mem[t][a % NENTRIES := 0]], own0, d, lo, a + 1)
  {
    hide FrameOk, Pte;
    TableIn(mem, own, t, d, a / NENTRIES);
    var j := a % NENTRIES;
    var mem' := mem[f := page][t := mem[t][j := 0]];
    assert forall g, k :: g != f && (g != t || k != j) ==> Word(mem', g, k) == Word(mem, g, k);
    forall g, k: nat | g in own0 && !own0[g].Free? && !Maps(own0[g], d, lo, a + 1) && k < NENTRIES
      ensures Word(mem', g, k) == Cleared(mem0, own0, d, lo, a + 1, g, k)
    {
      assert own[g] == own0[g] && Word(mem, g, k) == Cleared(mem0, own0, d, lo, a, g, k);
      if own[g] == Table(d, a / NENTRIES) {
        SameTable(mem, own, d, a / NENTRIES, t, g);
      }
    }
  }

  /** A page with no entry, or no table, is not mapped. */
  lemma Absent(mem: Frames, own: map<nat, Owner>, d: nat, a: nat, b: nat)
    requires Spaces(mem, own) && a <= b
    requires forall v :: a <= v < b ==> !Present(Pte(mem, d, v))
    ensures NoneMapped(own, d, a, b)
  {
    forall f | f in own ensures !Maps(own[f], d, a, b) {
      assert FrameOk(mem, own, f, 0, 0);
    }
  }

  lemma AbsentTable(mem: Frames, own: map<nat, Owner>, d: nat, a: nat, b: nat)
    requires Spaces(mem, own) && a <= b <= (a / NENTRIES + 1) * NENTRIES && !Present(Word(mem, d, a / NENTRIES))
    ensures NoneMapped(own, d, a, b)
  {
    forall v | a <= v < b ensures !Present(Pte(mem, d, v)) {
      assert v / NENTRIES == a / NENTRIES;
    }
    Absent(mem, own, d, a, b);
  }

  // ---- Tearing a directory down ----

  /** The owners once the first k page tables of a directory have been freed. */
  ghost function Release(own: map<nat, Owner>, d: nat, k: nat): map<nat, Owner> {
    map f | f in own :: if own[f].Table? && own[f].dir == d && own[f].index < k then Free else own[f]
  }

  /** Whether a frame is part of the address space of directory d. */
  ghost predicate Belongs(o: Owner, f: nat, d: nat) {
    match o
    case Free => false
    case Held => false
    case Dir => f == d
    case Table(c, i) => c == d
    case User(c, v) => c == d
  }

  /** The owners once a whole address space has been freed. */
  ghost function Freed(own: map<nat, Owner>, d: nat): map<nat, Owner> {
    map f | f in own :: if Belongs(own[f], f, d) then Free else own[f]
  }

  /** Every frame in use holds what it held. */
  ghost predicate Same(mem: Frames, mem': Frames, own: map<nat, Owner>) {
    forall f :: f in own && !own[f].Free? ==> f in mem && f in mem' && mem'[f] == mem[f]
  }

  lemma FreeTable(mem: Frames, own: map<nat, Owner>, d: nat, k: nat, page: Page)
    requires Dying(mem, own, d, k) && k < NENTRIES && Owns(own, d, Dir) && NoneMapped(own, d, 0, KERNEL)
    requires Present(Word(mem, d, k))
    ensures var t := FrameOf(Word(mem, d, k));
            && Owns(own, t, Table(d, k))
            && Dying(mem[t := page], own[t := Free], d, k + 1)
            && Release(own, d, k + 1) == Release(own, d, k)[t := Free]
  {
    var t := FrameOf(Word(mem, d, k));
    assert FrameOk(mem, own, d, d, k);
    var mem', own' := mem[t := page], own[t := Free];
    assert forall g, j :: g != t ==> Word(mem', g, j) == Word(mem, g, j);
    assert forall g, q :: Owns(own, g, q) && g != t ==> Owns(own', g, q);
    forall g | g in own' ensures FrameOk(mem', own', g, d, k + 1) {
      assert FrameOk(mem, own, g, d, k);
      if own'[g].User? {
        assert FrameOk(mem, own, own[g].dir, d, k);
        assert !Maps(own[g], d, 0, KERNEL);
      }
    }
    forall g | g in own && own[g] == Table(d, k) ensures g == t {
      assert FrameOk(mem, own, g, d, k);
    }
  }

  lemma SkipTable(mem: Frames, own: map<nat, Owner>, d: nat, k: nat)
    requires Dying(mem, own, d, k) && k < NENTRIES && !Present(Word(mem, d, k))
    ensures Dying(mem, own, d, k + 1) && Release(own, d, k + 1) == Release(own, d, k)
  {
    forall g | g in own
      ensures FrameOk(mem, own, g, d, k + 1) && own[g] != Table(d, k)
    {
      assert FrameOk(mem, own, g, d, k);
    }
  }

  lemma FreeDir(mem: Frames, own: map<nat, Owner>, d: nat, page: Page)
    requires Dying(mem, own, d, NENTRIES) && Owns(own, d, Dir)
    requires forall f :: f in own && f != d ==> !Belongs(own[f], f, d)
    ensures Spaces(mem[d := page], own[d := Free])
  {
    var mem', own' := mem[d := page], own[d := Free];
    assert forall g, j :: g != d ==> Word(mem', g, j) == Word(mem, g, j);
    assert forall g, q :: Owns(own, g, q) && g != d ==> Owns(own', g, q);
    forall g | g in own' ensures FrameOk(mem', own', g, 0, 0) {
      assert FrameOk(mem, own, g, d, NENTRIES);
      if own'[g].User? {
        assert FrameOk(mem, own, own[g].dir, d, NENTRIES);
      }
    }
  }

  /** Freeing the user pages leaves every frame outside the address space as it was. */
  lemma UnmappedAll(mem: Frames, mem': Frames, own: map<nat, Owner>, d: nat)
    requires Spaces(mem, own) && mem'.Keys == own.Keys && Unmapped(mem, mem', own, d, 0, KERNEL)
    ensures forall f :: f in own && !own[f].Free? && !Belongs(own[f], f, d) ==> mem'[f] == mem[f]
  {
    forall f | f in own && !own[f].Free? && !Belongs(own[f], f, d) ensures mem'[f] == mem[f] {
      forall j | 0 <= j < NENTRIES ensures mem'[f][j] == mem[f][j] {
        assert Word(mem', f, j) == Cleared(mem, own, d, 0, KERNEL, f, j);
      }
    }
  }

  /** Freeing the user pages, then every table, then the directory frees the address space. */
  lemma FreedInSteps(mem: Frames, own0: map<nat, Owner>, own: map<nat, Owner>, d: nat)
    requires Spaces(mem, own0) && Owns(own0, d, Dir) && own == Release(Drop(own0, d, 0, KERNEL), d, NENTRIES)
    ensures own[d := Free] == Freed(own0, d) && Owns(own, d, Dir)
    ensures forall f :: f in own && f != d ==> !Belongs(own[f], f, d)
  {
    forall f | f in own0 ensures own0[f].Table? ==> own0[f].index < NENTRIES
                         ensures own0[f].User? ==> own0[f].page < KERNEL {
      assert FrameOk(mem, own0, f, 0, 0);
    }
  }

  lemma StartDying(own0: map<nat, Owner>, mem: Frames, own: map<nat, Owner>, d: nat)
    requires Owns(own0, d, Dir) && own == Drop(own0, d, 0, KERNEL) && Spaces(mem, own)
    ensures Dying(mem, own, d, 0) && NoneMapped(own, d, 0, KERNEL) && Owns(own, d, Dir)
  {
    forall f | f in own ensures FrameOk(mem, own, f, d, 0) {
      assert FrameOk(mem, own, f, 0, 0);
    }
  }

  lemma ReleaseKeeps(own: map<nat, Owner>, d: nat, k: nat)
    requires NoneMapped(own, d, 0, KERNEL)
    ensures NoneMapped(Release(own, d, k), d, 0, KERNEL)
  {
  }

  lemma FreedFree(own: map<nat, Owner>, d: nat)
    ensures Freed(own, d).Keys == own.Keys
    ensures forall f :: f in own ==> (Freed(own, d)[f].Free? <==> own[f].Free? || Belongs(own[f], f, d))
  {
  }

  lemma ReleaseStep(own: map<nat, Owner>, d: nat, k: nat)
    ensures Release(Release(own, d, k), d, k) == Release(own, d, k)
    ensures Release(Release(own, d, k), d, k + 1) == Release(own, d, k + 1)
    ensures Release(own, d, 0) == own
  {
  }

  // ---- Mapping pages ----

  datatype Mapped = Done | NoMemory | Remap

  /** Free frames have become page tables of directory d, and nothing else has changed hands. */
  ghost predicate Grown(own: map<nat, Owner>, own': map<nat, Owner>, d: nat) {
    && own'.Keys == own.Keys
    && forall f :: f in own ==> own'[f] == own[f] || (own[f].Free? && own'[f].Table? && own'[f].dir == d)
  }

  /** Every frame in use other than the directory d and its page tables holds what it held. */
  ghost predicate Kept(mem: Frames, mem': Frames, own: map<nat, Owner>, d: nat) {
    && mem.Keys == mem'.Keys == own.Keys
    && forall f :: f in own && !own[f].Free? && f != d && !(own[f].Table? && own[f].dir == d) ==> mem'[f] == mem[f]
  }

  /** Directory d has page tables for the entries i..k besides those it had. */
  ghost predicate Tabled(mem: Frames, mem': Frames, d: nat, i: nat, k: nat) {
    forall j: nat :: j < NENTRIES ==>
      (Present(Word(mem', d, j)) <==> Present(Word(mem, d, j)) || i <= j < k)
  }

  /** Directory d maps the pages first..a to consecutive frames, and every other page as before. */
  ghost predicate Mapping(mem: Frames, mem': Frames, own: map<nat, Owner>, d: nat,
                          first: nat, a: nat, frame: nat, perm: nat) {
    perm < PGSIZE && forall c, v: nat :: Owns(own, c, Dir) ==>
      Pte(mem', c, v) == if c == d && first <= v < a then Entry(frame + v - first, perm) else Pte(mem, c, v)
  }

  /** How many of the entries i..k of directory d have no page table. */
  ghost function Missing(mem: Frames, d: nat, i: nat, k: nat): nat {
    if k <= i then 0 else Missing(mem, d, i, k - 1) + (if Present(Word(mem, d, k - 1)) then 0 else 1)
  }

  lemma GrownTrans(own0: map<nat, Owner>, own1: map<nat, Owner>, own2: map<nat, Owner>,
                   mem0: Frames, mem1: Frames, mem2: Frames, d: nat)
    requires Grown(own0, own1, d) && Grown(own1, own2, d)
    requires Kept(mem0, mem1, own0, d) && Kept(mem1, mem2, own1, d)
    ensures Grown(own0, own2, d) && Kept(mem0, mem2, own0, d)
  {
  }

  lemma NothingGrown(mem: Frames, own: map<nat, Owner>, d: nat, i: nat)
    ensures Grown(own, own, d) && (mem.Keys == own.Keys ==> Kept(mem, mem, own, d))
    ensures Present(Word(mem, d, i)) ==> Tabled(mem, mem, d, i, i + 1)
  {
  }

  lemma TakeFrame(mem: Frames, own: map<nat, Owner>, f: nat)
    requires Spaces(mem, own) && Owns(own, f, Free)
    ensures Spaces(mem, own[f := Held])
  {
    assert mem == mem[f := mem[f]];
    Unreferenced(mem, own, f, mem[f], Held);
  }

  /** What walkpgdir does when it has to make a page table. */
  lemma NewTableStep(mem: Frames, own: map<nat, Owner>, d: nat, i: nat, t: nat)
    requires Spaces(mem, own) && Owns(own, d, Dir) && i < NENTRIES && !Present(Word(mem, d, i))
    requires Owns(own, t, Free)
    ensures var mem', own' := mem[t := ZeroPage()][d := mem[d][i := Entry(t, 7)]], own[t := Table(d, i)];
            && Spaces(mem', own') && Grown(own, own', d) && Kept(mem, mem', own, d) && Tabled(mem, mem', d, i, i + 1)
            && Word(mem', d, i) == Entry(t, 7)
            && forall c, v: nat :: Owns(own, c, Dir) ==> Pte(mem', c, v) == Pte(mem, c, v)
  {
    TakeFrame(mem, own, t);
    var own1 := own[t := Held];
    NewTable(mem, own1, d, i, t);
    assert forall c :: Owns(own, c, Dir) ==> Owns(own1, c, Dir);
    assert own1[t := Table(d, i)] == own[t := Table(d, i)];
    hide Dying, Pte;
  }

  lemma TableIn(mem: Frames, own: map<nat, Owner>, t: nat, d: nat, i: nat)
    requires Spaces(mem, own) && Owns(own, t, Table(d, i))
    ensures mem.Keys == own.Keys && Owns(own, d, Dir) && i < NENTRIES
  {
    assert FrameOk(mem, own, t, 0, 0);
  }

  /** Writing the entry of a page that was not mapped. */
  lemma EntryStep(mem: Frames, own: map<nat, Owner>, d: nat, v: nat, t: nat, frame: nat, perm: nat)
    requires Spaces(mem, own) && Owns(own, t, Table(d, v / NENTRIES)) && !Present(Word(mem, t, v % NENTRIES))
    requires v < PAGES && perm < PGSIZE && (v < KERNEL ==> Owns(own, frame, Held))
    ensures var mem' := mem[t := mem[t][v % NENTRIES := Entry(frame, perm)]];
            && Spaces(mem', if v < KERNEL then own[frame := User(d, v)] else own)
            && Kept(mem, mem', own, d) && Mapping(mem, mem', own, d, v, v + 1, frame, perm)
            && forall j :: Word(mem', d, j) == Word(mem, d, j)
  {
    hide Dying, Pte;
    var i, j, w := v / NENTRIES, v % NENTRIES, Entry(frame, perm);
    TableIn(mem, own, t, d, i);
    if v < KERNEL {
      SetUserEntry(mem, own, d, i, t, j, w);
    } else {
      SetKernelEntry(mem, own, d, i, t, j, w);
    }
    var mem' := mem[t := mem[t][j := w]];
    forall c, u: nat | Owns(own, c, Dir)
      ensures Pte(mem', c, u) == if c == d && u == v then w else Pte(mem, c, u)
    {
      SetEntry(mem, own, d, i, t, j, w, c, u);
    }
  }

  /** Finding the page table, then writing the entry. */
  lemma MapStep(mem0: Frames, own0: map<nat, Owner>, mem1: Frames, own1: map<nat, Owner>, mem: Frames,
                d: nat, v: nat, frame: nat, perm: nat)
    requires Owns(own0, d, Dir) && Grown(own0, own1, d) && Kept(mem0, mem1, own0, d)
    requires Tabled(mem0, mem1, d, v / NENTRIES, v / NENTRIES + 1)
    requires forall c, u: nat :: Owns(own0, c, Dir) ==> Pte(mem1, c, u) == Pte(mem0, c, u)
    requires Kept(mem1, mem, own1, d) && Mapping(mem1, mem, own1, d, v, v + 1, frame, perm)
    requires forall j :: Word(mem, d, j) == Word(mem1, d, j)
    requires v < KERNEL ==> Owns(own0, frame, Held)
    ensures v < KERNEL ==> Grown(own0[frame := User(d, v)], own1[frame := User(d, v)], d)
    ensures Kept(mem0, mem, own0, d) && Mapping(mem0, mem, own0, d, v, v + 1, frame, perm)
    ensures Tabled(mem0, mem, d, v / NENTRIES, v / NENTRIES + 1)
  {
    assert forall c :: Owns(own0, c, Dir) ==> Owns(own1, c, Dir);
    hide Pte, Word;
  }

  ghost function TablesTo(first: nat, a: nat): nat
    requires first <= a
  {
    if a == first then first / NENTRIES else (a - 1) / NENTRIES + 1
  }

  lemma GrownKeeps(own: map<nat, Owner>, own': map<nat, Owner>, d: nat, f: nat)
    requires Grown(own, own', d) && f in own && !own[f].Free?
    ensures f in own' && own'[f] == own[f]
  {
  }

  ghost predicate AnyMapped(mem: Frames, d: nat, first: nat, a: nat) {
    exists v: nat :: first <= v < a && Present(Pte(mem, d, v))
  }

  lemma MissingMonotone(mem: Frames, d: nat, i: nat, k: nat, k': nat)
    requires k <= k'
    ensures Missing(mem, d, i, k) <= Missing(mem, d, i, k')
  {
  }

  lemma MissingOne(mem: Frames, d: nat, i: nat)
    ensures Missing(mem, d, i, i + 1) == if Present(Word(mem, d, i)) then 0 else 1
  {
    assert Missing(mem, d, i, i) == 0;
  }

  /** The loop of mappages found no frame for the page table of page a. */
  lemma MapFails(mem0: Frames, mem: Frames, d: nat, first: nat, a: nat, last: nat)
    requires first <= a <= last < PAGES && Tabled(mem0, mem, d, first / NENTRIES, TablesTo(first, a))
    requires !Present(Word(mem, d, a / NENTRIES))
    ensures Missing(mem0, d, first / NENTRIES, TablesTo(first, a)) <
            Missing(mem0, d, first / NENTRIES, TablesTo(first, a + 1)) <=
            Missing(mem0, d, first / NENTRIES, last / NENTRIES + 1)
  {
    MissingMonotone(mem0, d, first / NENTRIES, a / NENTRIES + 1, last / NENTRIES + 1);
  }

  /** What the loop of mappages knows of page a before it maps it. */
  lemma NotYetMapped(mem0: Frames, mem: Frames, own0: map<nat, Owner>, d: nat, first: nat, a: nat, last: nat,
                     frame: nat, perm: nat)
    requires first <= a <= last && Owns(own0, d, Dir) && Mapping(mem0, mem, own0, d, first, a, frame, perm)
    ensures Pte(mem, d, a) == Pte(mem0, d, a) && (Present(Pte(mem, d, a)) ==> AnyMapped(mem0, d, first, last + 1))
    ensures !Present(Pte(mem, d, a)) && !AnyMapped(mem0, d, first, a) ==> !AnyMapped(mem0, d, first, a + 1)
  {
    assert Pte(mem, d, a) == Pte(mem0, d, a);
  }

  lemma MapNothing(mem: Frames, own: map<nat, Owner>, d: nat, first: nat, frame: nat, perm: nat)
    requires mem.Keys == own.Keys && perm < PGSIZE
    ensures Grown(own, own, d) && Kept(mem, mem, own, d) && Mapping(mem, mem, own, d, first, first, frame, perm)
    ensures Tabled(mem, mem, d, first / NENTRIES, TablesTo(first, first)) && !AnyMapped(mem, d, first, first)
    ensures Missing(mem, d, first / NENTRIES, TablesTo(first, first)) == 0
  {
  }

  lemma TablesMore(mem0: Frames, mem1: Frames, mem: Frames, d: nat, first: nat, a: nat)
    requires first <= a < PAGES && Tabled(mem0, mem1, d, first / NENTRIES, TablesTo(first, a))
    requires Tabled(mem1, mem, d, a / NENTRIES, a / NENTRIES + 1)
    ensures Tabled(mem0, mem, d, first / NENTRIES, TablesTo(first, a + 1))
    ensures Missing(mem0, d, first / NENTRIES, TablesTo(first, a + 1)) ==
            Missing(mem0, d, first / NENTRIES, TablesTo(first, a))
            + (if Present(Word(mem1, d, a / NENTRIES)) then 0 else 1)
  {
    hide Word;
  }

  /** The owners once the user pages first..a map the frames from `frame` on. */
  ghost function Given(own: map<nat, Owner>, d: nat, first: nat, a: nat, frame: nat): map<nat, Owner> {
    map f | f in own :: if frame <= f && first + f - frame < a && first + f - frame < KERNEL
                        then User(d, first + f - frame) else own[f]
  }

  /** The frames for the user pages among first..end are out of the allocator. */
  ghost predicate HeldFor(own: map<nat, Owner>, first: nat, end: nat, frame: nat) {
    forall f: nat :: frame <= f && first + f - frame < end && first + f - frame < KERNEL ==> Owns(own, f, Held)
  }

  lemma GivenFew(own: map<nat, Owner>, d: nat, first: nat, frame: nat)
    ensures Given(own, d, first, first, frame) == own
    ensures frame in own && first < KERNEL ==> Given(own, d, first, first + 1, frame) == own[frame := User(d, first)]
    ensures KERNEL <= first ==> forall a :: Given(own, d, first, a, frame) == own && HeldFor(own, first, a, frame)
    ensures Owns(own, frame, Held) ==> HeldFor(own, first, first + 1, frame)
  {
  }

  /** The frame of page a goes to the user. */
  lemma GivenStep(own0: map<nat, Owner>, own1: map<nat, Owner>, own: map<nat, Owner>,
                  d: nat, first: nat, a: nat, end: nat, frame: nat)
    requires first <= a < end && HeldFor(own0, first, end, frame) && Grown(Given(own0, d, first, a, frame), own1, d)
    requires Grown(if a < KERNEL then own1[frame + a - first := User(d, a)] else own1, own, d)
    ensures Grown(Given(own0, d, first, a + 1, frame), own, d)
  {
    var f := frame + a - first;
    if a < KERNEL {
      assert Owns(own0, f, Held);
      assert Given(own0, d, first, a + 1, frame) == Given(own0, d, first, a, frame)[f := User(d, a)];
    } else {
      assert Given(own0, d, first, a + 1, frame) == Given(own0, d, first, a, frame);
    }
    hide Given;
  }

  lemma GivenHeld(own0: map<nat, Owner>, own1: map<nat, Owner>, d: nat, first: nat, a: nat, end: nat, frame: nat)
    requires first <= a < end && HeldFor(own0, first, end, frame) && Grown(Given(own0, d, first, a, frame), own1, d)
    ensures a < KERNEL ==> Owns(own1, frame + a - first, Held)
    ensures forall c :: Owns(own0, c, Dir) ==> Owns(own1, c, Dir)
  {
    if a < KERNEL {
      assert Owns(own0, frame + a - first, Held);
    }
    forall c | Owns(own0, c, Dir) ensures Owns(own1, c, Dir) {
      NotGiven(own0, d, first, a, end, frame, c);
    }
  }

  /** A frame that is not held is not given away. */
  lemma NotGiven(own: map<nat, Owner>, d: nat, first: nat, a: nat, end: nat, frame: nat, f: nat)
    requires a <= end && HeldFor(own, first, end, frame) && f in own && own[f] != Held
    ensures Given(own, d, first, a, frame)[f] == own[f]
  {
    assert !Owns(own, f, Held);
  }

  lemma KeptGiven(mem0: Frames, own0: map<nat, Owner>, mem1: Frames, own1: map<nat, Owner>, mem: Frames,
                  d: nat, first: nat, a: nat, end: nat, frame: nat)
    requires first <= a <= end && HeldFor(own0, first, end, frame) && Grown(Given(own0, d, first, a, frame), own1, d)
    requires Kept(mem0, mem1, own0, d) && Kept(mem1, mem, own1, d)
    ensures Kept(mem0, mem, own0, d)
  {
  }

  /** One more page mapped by the loop of mappages. */
  lemma MapMore(mem0: Frames, own0: map<nat, Owner>, mem1: Frames, own1: map<nat, Owner>, mem: Frames,
                own: map<nat, Owner>, d: nat, first: nat, a: nat, end: nat, frame: nat, perm: nat)
    requires first <= a < end <= PAGES && Owns(own0, d, Dir) && HeldFor(own0, first, end, frame)
    requires Grown(Given(own0, d, first, a, frame), own1, d) && Kept(mem0, mem1, own0, d)
    requires Mapping(mem0, mem1, own0, d, first, a, frame, perm)
    requires Tabled(mem0, mem1, d, first / NENTRIES, TablesTo(first, a))
    requires Grown(if a < KERNEL then own1[frame + a - first := User(d, a)] else own1, own, d)
    requires Kept(mem1, mem, own1, d) && Mapping(mem1, mem, own1, d, a, a + 1, frame + a - first, perm)
    requires Tabled(mem1, mem, d, a / NENTRIES, a / NENTRIES + 1)
    ensures Grown(Given(own0, d, first, a + 1, frame), own, d) && Kept(mem0, mem, own0, d)
    ensures Mapping(mem0, mem, own0, d, first, a + 1, frame, perm)
    ensures Tabled(mem0, mem, d, first / NENTRIES, TablesTo(first, a + 1))
    ensures Missing(mem0, d, first / NENTRIES, TablesTo(first, a + 1)) ==
            Missing(mem0, d, first / NENTRIES, TablesTo(first, a))
            + (if Present(Word(mem1, d, a / NENTRIES)) then 0 else 1)
  {
    hide Grown, Kept, Given, HeldFor, Tabled, Missing;
    GivenStep(own0, own1, own, d, first, a, end, frame);
    KeptGiven(mem0, own0, mem1, own1, mem, d, first, a, end, frame);
    assert Mapping(mem0, mem, own0, d, first, a + 1, frame, perm) by {
      GivenHeld(own0, own1, d, first, a, end, frame);
      hide Pte, Word;
    }
    TablesMore(mem0, mem1, mem, d, first, a);
  }

  function RoundUp(sz: nat): nat { (sz + PGSIZE - 1) / PGSIZE }

  lemma PageBelow(a: nat, sz: nat)
    ensures a < RoundUp(sz) <==> a * PGSIZE < sz
  {
  }

  lemma RoundUpMonotone(a: nat, b: nat)
    requires a <= b
    ensures RoundUp(a) <= RoundUp(b)
  {
  }

  lemma UserEnd(sz: nat)
    requires sz <= KERNBASE
    ensures RoundUp(sz) <= KERNEL
  {
  }

  function JunkPage(next: nat): Page { seq(1024, i => if i == 0 then next * PGSIZE else 0x01010101) }

  // ---- Building an address space ----

  /** The frames of the address space of d were free, and every frame in use before holds what it held. */
  ghost predicate Building(mem0: Frames, own0: map<nat, Owner>, mem: Frames, own: map<nat, Owner>, d: nat) {
    && Owns(own0, d, Free) && Owns(own, d, Dir) && own.Keys == own0.Keys == mem.Keys && Same(mem0, mem, own0)
    && forall f :: f in own0 ==>
         !Belongs(own0[f], f, d) && (own[f] == own0[f] || (own0[f].Free? && Belongs(own[f], f, d)))
  }

  lemma SameRefl(mem: Frames, own: map<nat, Owner>)
    requires mem.Keys == own.Keys
    ensures Same(mem, mem, own)
  {
  }

  lemma NewDir(mem: Frames, own: map<nat, Owner>, d: nat)
    requires Spaces(mem, own) && Owns(own, d, Free)
    ensures Spaces(mem[d := ZeroPage()], own[d := Dir]) && Building(mem, own, mem[d := ZeroPage()], own[d := Dir], d)
    ensures var mem' := mem[d := ZeroPage()]; forall j :: Word(mem', d, j) == 0
  {
    var mem', own' := mem[d := ZeroPage()], own[d := Dir];
    assert forall g, j :: g != d ==> Word(mem', g, j) == Word(mem, g, j);
    assert forall g, q :: Owns(own, g, q) && q != Free ==> Owns(own', g, q);
    forall g | g in own' ensures FrameOk(mem', own', g, 0, 0) && !Belongs(own[g], g, d) {
      assert FrameOk(mem, own, g, 0, 0);
      if own[g].User? {
        assert FrameOk(mem, own, own[g].dir, 0, 0);
      }
    }
  }

  lemma BuildTables(mem0: Frames, own0: map<nat, Owner>, mem: Frames, own: map<nat, Owner>,
                    mem': Frames, own': map<nat, Owner>, d: nat)
    requires Building(mem0, own0, mem, own, d) && Grown(own, own', d) && Kept(mem, mem', own, d)
    ensures Building(mem0, own0, mem', own', d)
  {
  }

  /** A free frame r has been filled and mapped at page v. */
  lemma BuildPage(mem0: Frames, own0: map<nat, Owner>, mem: Frames, own: map<nat, Owner>, r: nat, page: Page,
                  mem': Frames, own': map<nat, Owner>, d: nat, v: nat)
    requires Building(mem0, own0, mem, own, d) && Owns(own, r, Free)
    requires Grown(own[r := User(d, v)], own', d) && Kept(mem[r := page], mem', own[r := Held], d)
    ensures Building(mem0, own0, mem', own', d)
  {
  }

  /** Freeing an address space gives back exactly the frames it was built from. */
  lemma Unbuild(mem0: Frames, own0: map<nat, Owner>, mem: Frames, own: map<nat, Owner>, mem': Frames, d: nat)
    requires Building(mem0, own0, mem, own, d) && Same(mem, mem', Freed(own, d))
    ensures Freed(own, d) == own0 && Same(mem0, mem', own0)
  {
  }

  // ---- The kernel part of a page table ----

  datatype Segment = Segment(page: nat, start: nat, end: nat, perm: nat)

  /** The table kmap; its last segment runs to the end of the address space, where the address wraps to 0. */
  function KMap(data: nat): (m: seq<Segment>)
    ensures |m| == 4
  {
    [ Segment(KERNEL, 0, EXTMEM, PTE_W),
      Segment(KERNEL + EXTMEM, EXTMEM, data, 0),
      Segment(KERNEL + data, data, PHYSTOP, PTE_W),
      Segment(DEVSPACE, DEVSPACE, 0, PTE_W) ]
  }

  function Pages(k: Segment): nat { (k.end - k.start) % PAGES }

  /** The entry of page v once the first n segments are mapped: I/O space, kernel text, kernel data
    with the rest of physical memory, and devices. */
  ghost function KernelEntry(data: nat, n: nat, v: nat): nat {
    if 0 < n && KERNEL <= v < KERNEL + EXTMEM then Entry(v - KERNEL, PTE_W)
    else if 1 < n && KERNEL + EXTMEM <= v < KERNEL + data then Entry(v - KERNEL, 0)
    else if 2 < n && KERNEL + data <= v < KERNEL + PHYSTOP then Entry(v - KERNEL, PTE_W)
    else if 3 < n && DEVSPACE <= v < PAGES then Entry(v, PTE_W)
    else 0
  }

  /** The end of the page tables below the devices once the first n segments are mapped. */
  ghost function TableEnd(data: nat, n: nat): nat {
    if n == 0 then 512 else if n == 1 then 513 else if n == 2 then (KERNEL + data - 1) / NENTRIES + 1 else 568
  }

  ghost predicate KernelTable(data: nat, n: nat, j: nat) {
    512 <= j < TableEnd(data, n) || (n == 4 && 1016 <= j < 1024)
  }

  ghost function KernelTables(data: nat, n: nat): int {
    TableEnd(data, n) - 512 + (if n == 4 then 8 else 0)
  }

  ghost predicate KernelBuilt(mem: Frames, d: nat, data: nat, n: nat) {
    && n <= 4
    && (forall v: nat :: Pte(mem, d, v) == KernelEntry(data, n, v))
    && forall j: nat :: j < NENTRIES ==> (Present(Word(mem, d, j)) <==> KernelTable(data, n, j))
  }

  lemma MissingAbove(mem: Frames, d: nat, i: nat, t: nat, k: nat)
    requires i <= t <= k <= NENTRIES
    requires forall j: nat :: i <= j < k ==> (Present(Word(mem, d, j)) <==> j < t)
    ensures Missing(mem, d, i, k) == k - t
    decreases k
  {
    if i < k {
      if t < k {
        MissingAbove(mem, d, i, t, k - 1);
      } else {
        MissingAbove(mem, d, i, t - 1, k - 1);
      }
    }
  }

  lemma SegmentBounds(data: nat, n: nat)
    requires n < 4 && EXTMEM < data < PHYSTOP
    ensures var k := KMap(data)[n];
            && KERNEL <= k.page && 0 < Pages(k) && k.page + Pages(k) <= PAGES && k.perm < PGSIZE
            && k.page / NENTRIES <= (if n == 3 then 1016 else TableEnd(data, n))
            && 512 <= k.page / NENTRIES
            && (k.page + Pages(k) - 1) / NENTRIES + 1 == (if n == 3 then 1024 else TableEnd(data, n + 1))
            && (if n == 3 then k.page / NENTRIES == 1016 else TableEnd(data, n) <= TableEnd(data, n + 1))
            && (forall v :: k.page <= v < k.page + Pages(k) ==> KernelEntry(data, n, v) == 0)
  {
  }

  lemma KernelStart(mem: Frames, d: nat, data: nat)
    requires forall j :: Word(mem, d, j) == 0
    ensures KernelBuilt(mem, d, data, 0) && KernelTables(data, 0) == 0
  {
  }

  lemma KernelCount(data: nat, n: nat)
    requires n < 4 && EXTMEM < data < PHYSTOP
    ensures KernelTables(data, n) <= KernelTables(data, n + 1) <= 64 && KernelTables(data, 4) == 64
  {
  }

  lemma BuildOwns(mem0: Frames, own0: map<nat, Owner>, mem: Frames, own: map<nat, Owner>, d: nat)
    requires Building(mem0, own0, mem, own, d)
    ensures Owns(own, d, Dir) && Owns(own0, d, Free)
  {
  }

  lemma KernelStep(mem: Frames, mem': Frames, own: map<nat, Owner>, d: nat, data: nat, n: nat)
    requires n < 4 && EXTMEM < data < PHYSTOP && KernelBuilt(mem, d, data, n) && Owns(own, d, Dir)
    requires var k := KMap(data)[n];
             && Mapping(mem, mem', own, d, k.page, k.page + Pages(k), k.start, k.perm)
             && Tabled(mem, mem', d, k.page / NENTRIES, (k.page + Pages(k) - 1) / NENTRIES + 1)
    ensures KernelBuilt(mem', d, data, n + 1)
  {
    SegmentBounds(data, n);
    assert forall v: nat :: Pte(mem', d, v) == KernelEntry(data, n + 1, v) by {
      hide Pte, Word, TableEnd, Tabled, Entry;
    }
    hide Pte, Word, Mapping, KernelEntry;
  }

  lemma KernelNeeds(mem: Frames, d: nat, data: nat, n: nat)
    requires n < 4 && EXTMEM < data < PHYSTOP && KernelBuilt(mem, d, data, n)
    ensures var k := KMap(data)[n];
            && !AnyMapped(mem, d, k.page, k.page + Pages(k))
            && Missing(mem, d, k.page / NENTRIES, (k.page + Pages(k) - 1) / NENTRIES + 1)
               == KernelTables(data, n + 1) - KernelTables(data, n)
  {
    SegmentBounds(data, n);
    var k := KMap(data)[n];
    MissingAbove(mem, d, k.page / NENTRIES, if n == 3 then 1016 else TableEnd(data, n),
                 (k.page + Pages(k) - 1) / NENTRIES + 1);
  }

  /** The page numbers of a segment, from its addresses. */
  lemma SegmentPages(k: Segment)
    requires 0 < Pages(k)
    ensures var va, size := k.page * PGSIZE, Pages(k) * PGSIZE;
            0 < size && va / PGSIZE == k.page && (va + size - 1) / PGSIZE == k.page + Pages(k) - 1
  {
  }

  // ---- Copying an address space ----

  /** No frame is mapped by two user pages, of one address space or of two. */
  lemma NoSharing(mem: Frames, own: map<nat, Owner>, c: nat, u: nat, d: nat, v: nat)
    requires Spaces(mem, own) && Owns(own, c, Dir) && Owns(own, d, Dir) && u < KERNEL && v < KERNEL
    requires Present(Pte(mem, c, u)) && Present(Pte(mem, d, v)) && (c != d || u != v)
    ensures FrameOf(Pte(mem, c, u)) != FrameOf(Pte(mem, d, v))
  {
    UserFrame(mem, own, c, u);
    UserFrame(mem, own, d, v);
  }

  lemma UserFrame(mem: Frames, own: map<nat, Owner>, d: nat, v: nat)
    requires Spaces(mem, own) && Owns(own, d, Dir) && v < KERNEL && Present(Pte(mem, d, v))
    ensures Owns(own, FrameOf(Pte(mem, d, v)), User(d, v))
  {
    Walk(mem, own, d, v);
    assert FrameOk(mem, own, FrameOf(Word(mem, d, v / NENTRIES)), 0, 0);
  }

  /** While one address space is built the others stay as they are. */
  lemma OthersSame(mem0: Frames, own0: map<nat, Owner>, mem: Frames, own: map<nat, Owner>, d: nat, c: nat, v: nat)
    requires Spaces(mem0, own0) && Building(mem0, own0, mem, own, d) && Owns(own0, c, Dir) && v < KERNEL
    ensures Owns(own, c, Dir) && Pte(mem, c, v) == Pte(mem0, c, v)
    ensures Present(Pte(mem0, c, v)) ==>
              var f := FrameOf(Pte(mem0, c, v)); Owns(own0, f, User(c, v)) && f in mem0 && f in mem && mem[f] == mem0[f]
  {
    if Present(Word(mem0, c, v / NENTRIES)) {
      Walk(mem0, own0, c, v);
    }
    if Present(Pte(mem0, c, v)) {
      UserFrame(mem0, own0, c, v);
    }
  }

  /** Page v of the new directory d has the flags and the bytes of page v of c, in a frame of its own. */
  ghost predicate CopiedPage(mem0: Frames, mem: Frames, own: map<nat, Owner>, c: nat, d: nat, v: nat) {
    var f0, f := FrameOf(Pte(mem0, c, v)), FrameOf(Pte(mem, d, v));
    && Present(Pte(mem, d, v)) && Pte(mem, d, v) % PGSIZE == Pte(mem0, c, v) % PGSIZE
    && Owns(own, f, User(d, v)) && f in mem && f0 in mem0 && mem[f] == mem0[f0]
  }

  /** Directory d has copies of the pages of c below n, and otherwise only the kernel part. */
  ghost predicate Copied(mem0: Frames, mem: Frames, own: map<nat, Owner>, c: nat, d: nat, data: nat, n: nat) {
    && (forall v: nat :: v < n ==> CopiedPage(mem0, mem, own, c, d, v))
    && (forall v: nat :: n <= v ==> Pte(mem, d, v) == KernelEntry(data, 4, v))
  }

  ghost predicate UserTables(mem: Frames, d: nat, n: nat) {
    forall j: nat :: j < 512 ==> (Present(Word(mem, d, j)) <==> j < Tables(n))
  }

  function Tables(n: nat): nat { (n + NENTRIES - 1) / NENTRIES }

  ghost predicate AllMapped(mem: Frames, d: nat, n: nat) {
    forall v: nat :: v < n ==> Present(Pte(mem, d, v))
  }

  lemma CopyStart(mem0: Frames, mem: Frames, own: map<nat, Owner>, c: nat, d: nat, data: nat)
    requires KernelBuilt(mem, d, data, 4)
    ensures Copied(mem0, mem, own, c, d, data, 0) && UserTables(mem, d, 0)
    ensures AllMapped(mem0, c, 0) && Tables(0) == 0
  {
  }

  /** One more page copied: mem1 and own1 before, frame r taken and filled, then mapped. */
  lemma CopyStep(mem0: Frames, mem1: Frames, own1: map<nat, Owner>, mem: Frames, own: map<nat, Owner>,
                 c: nat, d: nat, data: nat, i: nat, r: nat, page: Page)
    requires Owns(own1, d, Dir) && Owns(own1, r, Free) && i < KERNEL
    requires Copied(mem0, mem1, own1, c, d, data, i) && UserTables(mem1, d, i)
    requires Present(Pte(mem0, c, i)) && FrameOf(Pte(mem0, c, i)) in mem0 && page == mem0[FrameOf(Pte(mem0, c, i))]
    requires var mem2 := mem1[r := page];
             && (forall v: nat :: Pte(mem2, d, v) == Pte(mem1, d, v))
             && Kept(mem2, mem, own1[r := Held], d)
             && Mapping(mem2, mem, own1[r := Held], d, i, i + 1, r, Pte(mem0, c, i) % PGSIZE)
             && Tabled(mem2, mem, d, i / NENTRIES, i / NENTRIES + 1)
    requires Grown(own1[r := User(d, i)], own, d)
    ensures Copied(mem0, mem, own, c, d, data, i + 1) && UserTables(mem, d, i + 1)
  {
    hide Pte, Word, KernelEntry, UserTables, Tabled, Entry, FrameOf, Present, CopiedPage;
    var mem2, own2 := mem1[r := page], own1[r := Held];
    assert Owns(own2, d, Dir);
    CopyNew(mem0, mem, own, c, d, i, r, page);
    CopyTables(mem1, mem, d, i, r, page);
    forall v: nat | v < i ensures CopiedPage(mem0, mem, own, c, d, v) {
      CopyKept(mem0, mem1, own1, mem, own, c, d, v, i, r, page);
    }
  }

  /** The page just mapped is a copy. */
  lemma CopyNew(mem0: Frames, mem: Frames, own: map<nat, Owner>, c: nat, d: nat, i: nat, r: nat, page: Page)
    requires Present(Pte(mem0, c, i)) && FrameOf(Pte(mem0, c, i)) in mem0 && page == mem0[FrameOf(Pte(mem0, c, i))]
    requires Pte(mem, d, i) == Entry(r, Pte(mem0, c, i) % PGSIZE)
    requires Owns(own, r, User(d, i)) && r in mem && mem[r] == page
    ensures CopiedPage(mem0, mem, own, c, d, i)
  {
    hide Pte, Entry;
    FlagsOf(Pte(mem0, c, i));
  }

  lemma FlagsOf(w: nat)
    ensures Present(w % PGSIZE) <==> Present(w)
  {
    assert w == 2 * (w / PGSIZE * 2048) + w % PGSIZE;
  }

  lemma CopyTables(mem1: Frames, mem: Frames, d: nat, i: nat, r: nat, page: Page)
    requires UserTables(mem1, d, i) && i < KERNEL && r != d
    requires Tabled(mem1[r := page], mem, d, i / NENTRIES, i / NENTRIES + 1)
    ensures UserTables(mem, d, i + 1)
  {
    var mem2 := mem1[r := page];
    assert forall j :: Word(mem2, d, j) == Word(mem1, d, j);
  }

  /** The next page is not mapped yet, and needs a page table when it is the first of one. */
  lemma NextTable(mem0: Frames, mem: Frames, own: map<nat, Owner>, c: nat, d: nat, data: nat, i: nat, r: nat,
                  page: Page)
    requires Owns(own, d, Dir) && Owns(own, r, Free) && i < KERNEL
    requires Copied(mem0, mem, own, c, d, data, i) && UserTables(mem, d, i)
    requires Pte(mem[r := page], d, i) == Pte(mem, d, i)
    ensures var mem' := mem[r := page];
            && !AnyMapped(mem', d, i, i + 1)
            && Missing(mem', d, i / NENTRIES, i / NENTRIES + 1) == Tables(i + 1) - Tables(i)
  {
    MissingOne(mem[r := page], d, i / NENTRIES);
    hide Pte;
  }

  lemma BuildJunk(mem0: Frames, own0: map<nat, Owner>, mem: Frames, own: map<nat, Owner>, d: nat, r: nat, page: Page)
    requires Building(mem0, own0, mem, own, d) && Owns(own, r, Free)
    ensures Building(mem0, own0, mem[r := page], own, d)
  {
  }

  lemma TablesGrow(n: nat)
    ensures Tables(n) <= Tables(n + 1)
  {
  }

  lemma TablesMonotone(n: nat, m: nat)
    requires n <= m
    ensures Tables(n) <= Tables(m)
  {
  }

  lemma NotAll(mem: Frames, d: nat, i: nat, n: nat)
    requires i < n && AllMapped(mem, d, i)
    ensures Present(Pte(mem, d, i)) ==> AllMapped(mem, d, i + 1)
    ensures !Present(Pte(mem, d, i)) ==> !AllMapped(mem, d, n)
  {
  }

  lemma PageNumbers(i: nat)
    ensures i * PGSIZE / PGSIZE == i && (i * PGSIZE + PGSIZE - 1) / PGSIZE == i
    ensures TablesTo(i, i + 1) == i / NENTRIES + 1
  {
  }

  /** A page copied before stays copied. */
  lemma CopyKept(mem0: Frames, mem1: Frames, own1: map<nat, Owner>, mem: Frames, own: map<nat, Owner>,
                 c: nat, d: nat, v: nat, i: nat, r: nat, page: Page)
    requires CopiedPage(mem0, mem1, own1, c, d, v) && Pte(mem, d, v) == Pte(mem1, d, v)
    requires Owns(own1, d, Dir) && Owns(own1, r, Free)
    requires Kept(mem1[r := page], mem, own1[r := Held], d) && Grown(own1[r := User(d, i)], own, d)
    ensures CopiedPage(mem0, mem, own, c, d, v)
  {
    hide Pte;
  }

  // ---- Growing an address space ----

  /** Page v of directory d is mapped to a zeroed frame of its own, for the user to write. */
  ghost predicate ZeroedPage(mem: Frames, own: map<nat, Owner>, d: nat, v: nat) {
    var f := FrameOf(Pte(mem, d, v));
    Pte(mem, d, v) % PGSIZE == PTE_P + PTE_W + PTE_U && Owns(own, f, User(d, v)) && f in mem && mem[f] == ZeroPage()
  }

  /** Free frames have become the pages lo..a of directory d and page tables for them, and nothing else has changed. */
  ghost predicate Allotted(own0: map<nat, Owner>, own: map<nat, Owner>, d: nat, lo: nat, a: nat) {
    && own.Keys == own0.Keys
    && forall f :: f in own0 ==>
         || own[f] == own0[f]
         || (own0[f].Free? && ((own[f].Table? && own[f].dir == d) || Maps(own[f], d, lo, a)))
  }

  ghost predicate Extended(mem0: Frames, own0: map<nat, Owner>, mem: Frames, own: map<nat, Owner>,
                           d: nat, lo: nat, a: nat) {
    && Allotted(own0, own, d, lo, a) && Kept(mem0, mem, own0, d)
    && (forall v: nat :: lo <= v < a ==> ZeroedPage(mem, own, d, v))
    && forall c, v: nat :: Owns(own0, c, Dir) && !(c == d && lo <= v < a) ==> Pte(mem, c, v) == Pte(mem0, c, v)
  }

  lemma ExtendStart(mem: Frames, own: map<nat, Owner>, d: nat, lo: nat)
    requires mem.Keys == own.Keys
    ensures Extended(mem, own, mem, own, d, lo, lo)
  {
  }

  lemma ExtendStep(mem0: Frames, own0: map<nat, Owner>, mem1: Frames, own1: map<nat, Owner>,
                   mem: Frames, own: map<nat, Owner>, d: nat, lo: nat, a: nat, r: nat, mem2: Frames)
    requires Extended(mem0, own0, mem1, own1, d, lo, a) && Owns(own0, d, Dir) && Owns(own1, r, Free) && lo <= a < KERNEL
    requires mem2 == mem1[r := ZeroPage()] && Kept(mem2, mem, own1[r := Held], d)
    requires forall c, v: nat :: Owns(own1, c, Dir) ==> Pte(mem2, c, v) == Pte(mem1, c, v)
    requires Mapping(mem2, mem, own1[r := Held], d, a, a + 1, r, PTE_W + PTE_U)
    requires Grown(own1[r := User(d, a)], own, d)
    ensures Extended(mem0, own0, mem, own, d, lo, a + 1)
  {
    var own2 := own1[r := Held];
    assert forall c :: Owns(own0, c, Dir) ==> Owns(own1, c, Dir) && Owns(own2, c, Dir);
    assert Pte(mem, d, a) == Entry(r, PTE_W + PTE_U) && mem[r] == ZeroPage();
    hide Pte, ZeroPage, Mapping;
    forall v: nat | lo <= v < a ensures ZeroedPage(mem, own, d, v) {
      assert Pte(mem, d, v) == Pte(mem1, d, v);
      ZeroedKept(mem1, own1, mem, own, d, v, a, r);
    }
    hide ZeroedPage;
    ExtendOwners(mem0, own0, mem1, own1, mem, own, d, lo, a, r, mem2);
  }

  lemma ExtendOwners(mem0: Frames, own0: map<nat, Owner>, mem1: Frames, own1: map<nat, Owner>,
                     mem: Frames, own: map<nat, Owner>, d: nat, lo: nat, a: nat, r: nat, mem2: Frames)
    requires Allotted(own0, own1, d, lo, a) && Kept(mem0, mem1, own0, d) && Owns(own1, r, Free) && lo <= a
    requires r in mem2 && mem2 == mem1[r := mem2[r]] && Kept(mem2, mem, own1[r := Held], d)
    requires Grown(own1[r := User(d, a)], own, d)
    ensures Allotted(own0, own, d, lo, a + 1) && Kept(mem0, mem, own0, d)
  {
  }

  lemma ZeroedKept(mem1: Frames, own1: map<nat, Owner>, mem: Frames, own: map<nat, Owner>, d: nat, v: nat, a: nat,
                   r: nat)
    requires ZeroedPage(mem1, own1, d, v) && Pte(mem, d, v) == Pte(mem1, d, v)
    requires Owns(own1, d, Dir) && Owns(own1, r, Free)
    requires Kept(mem1[r := ZeroPage()], mem, own1[r := Held], d) && Grown(own1[r := User(d, a)], own, d)
    ensures ZeroedPage(mem, own, d, v)
  {
    hide Pte, ZeroPage;
  }

  lemma ExtendNext(mem0: Frames, own0: map<nat, Owner>, mem1: Frames, own1: map<nat, Owner>, mem2: Frames,
                   d: nat, lo: nat, a: nat)
    requires Extended(mem0, own0, mem1, own1, d, lo, a) && Owns(own0, d, Dir) && lo <= a
    requires Pte(mem2, d, a) == Pte(mem1, d, a)
    ensures Pte(mem1, d, a) == Pte(mem0, d, a)
    ensures AnyMapped(mem2, d, a, a + 1) <==> Present(Pte(mem0, d, a))
  {
  }

  lemma MappedTable(mem: Frames, d: nat, v: nat)
    ensures Present(Pte(mem, d, v)) ==> Present(Word(mem, d, v / NENTRIES))
  {
  }

  /** A frame that was taken and not mapped plays no part in unmapping a range, and may be freed after it. */
  lemma DropHeld(mem: Frames, own: map<nat, Owner>, mem1: Frames, own1: map<nat, Owner>, mem2: Frames,
                 d: nat, lo: nat, hi: nat, r: nat, page: Page)
    requires Owns(own, r, Free) && own1 == own[r := Held] && r in mem1 && mem1 == mem[r := mem1[r]]
    requires Unmapped(mem1, mem2, own1, d, lo, hi)
    ensures Owns(Drop(own1, d, lo, hi), r, Held) && Drop(own1, d, lo, hi)[r := Free] == Drop(own, d, lo, hi)
    ensures Unmapped(mem, mem2[r := page], own, d, lo, hi)
  {
    var mem' := mem2[r := page];
    forall f, j: nat | f in own && !own[f].Free? && !Maps(own[f], d, lo, hi) && j < NENTRIES
      ensures Word(mem', f, j) == Cleared(mem, own, d, lo, hi, f, j)
    {
      assert Word(mem2, f, j) == Cleared(mem1, own1, d, lo, hi, f, j);
    }
  }

  lemma NoneUpTo(mem: Frames, d: nat, lo: nat, a: nat)
    requires lo <= a
    ensures !AnyMapped(mem, d, lo, lo)
    ensures AnyMapped(mem, d, lo, a + 1) <==> AnyMapped(mem, d, lo, a) || Present(Pte(mem, d, a))
  {
    if AnyMapped(mem, d, lo, a + 1) && !Present(Pte(mem, d, a)) {
      var v: nat :| lo <= v < a + 1 && Present(Pte(mem, d, v));
      assert lo <= v < a;
    }
  }

  lemma WordsKept(mem: Frames, mem': Frames, d: nat, r: nat)
    requires r in mem' && mem' == mem[r := mem'[r]] && d != r
    ensures forall j :: Word(mem', d, j) == Word(mem, d, j)
  {
  }

  lemma TabledFrom(mem: Frames, mem': Frames, mem'': Frames, d: nat, i: nat)
    requires (forall j :: Word(mem', d, j) == Word(mem, d, j)) && Tabled(mem', mem'', d, i, i + 1)
    ensures Tabled(mem, mem'', d, i, i + 1)
  {
  }

  /** How many frames growing directory d by the pages lo..hi takes. */
  ghost function Needed(mem: Frames, d: nat, lo: nat, hi: nat): nat
    requires lo <= hi
  {
    hi - lo + Missing(mem, d, lo / NENTRIES, TablesTo(lo, hi))
  }

  lemma NeededMore(mem: Frames, d: nat, lo: nat, a: nat, hi: nat)
    requires lo <= a <= hi
    ensures Needed(mem, d, lo, a) <= Needed(mem, d, lo, hi)
  {
    MissingMonotone(mem, d, lo / NENTRIES, TablesTo(lo, a), TablesTo(lo, hi));
  }

  lemma NeededNone(mem: Frames, d: nat, lo: nat)
    ensures Needed(mem, d, lo, lo) == 0 && Tabled(mem, mem, d, lo / NENTRIES, TablesTo(lo, lo))
  {
  }

  lemma NeededStep(mem0: Frames, mem1: Frames, d: nat, lo: nat, a: nat)
    requires lo <= a < PAGES && Tabled(mem0, mem1, d, lo / NENTRIES, TablesTo(lo, a))
    ensures Needed(mem0, d, lo, a + 1) ==
            Needed(mem0, d, lo, a) + 1 + (if Present(Word(mem1, d, a / NENTRIES)) then 0 else 1)
  {
    hide Word;
  }

  /** The mapped pages of every directory are what they were. */
  ghost predicate SameMapped(mem0: Frames, mem: Frames, own: map<nat, Owner>) {
    forall c, v: nat :: Owns(own, c, Dir) && v < KERNEL ==>
      Pte(mem, c, v) == Pte(mem0, c, v) || (!Present(Pte(mem, c, v)) && !Present(Pte(mem0, c, v)))
  }

  /** Unmapping a range clears the entries of its mapped pages and no others. */
  lemma UnmappedPte(mem: Frames, own: map<nat, Owner>, mem': Frames, d: nat, lo: nat, hi: nat, c: nat, v: nat)
    requires Spaces(mem, own) && Unmapped(mem, mem', own, d, lo, hi) && Owns(own, c, Dir) && v < PAGES
    ensures Pte(mem', c, v) == if c == d && lo <= v < hi && Present(Pte(mem, c, v)) then 0 else Pte(mem, c, v)
  {
    var i, j := v / NENTRIES, v % NENTRIES;
    assert Word(mem', c, i) == Cleared(mem, own, d, lo, hi, c, i);
    if Present(Word(mem, c, i)) {
      Walk(mem, own, c, v);
      var t := FrameOf(Word(mem, c, i));
      assert Word(mem', t, j) == Cleared(mem, own, d, lo, hi, t, j);
    }
  }

  /** The pages lo..hi of directory d are not mapped, and every other page is mapped as before. */
  ghost predicate Trimmed(mem0: Frames, mem: Frames, own: map<nat, Owner>, d: nat, lo: nat, hi: nat) {
    forall c, v: nat :: Owns(own, c, Dir) && v < KERNEL ==>
      if c == d && lo <= v < hi then !Present(Pte(mem, c, v)) else Pte(mem, c, v) == Pte(mem0, c, v)
  }

  lemma UndoOwners(own0: map<nat, Owner>, own1: map<nat, Owner>, d: nat, lo: nat, a: nat, hi: nat)
    requires Allotted(own0, own1, d, lo, a) && lo <= a <= hi
    ensures Grown(Drop(own0, d, lo, hi), Drop(own1, d, lo, hi), d)
  {
  }

  lemma UndoKept(mem0: Frames, own0: map<nat, Owner>, mem1: Frames, own1: map<nat, Owner>, mem: Frames,
                 d: nat, lo: nat, a: nat, hi: nat)
    requires Kept(mem0, mem1, own0, d) && Allotted(own0, own1, d, lo, a)
    requires Unmapped(mem1, mem, own1, d, lo, hi) && mem.Keys == mem1.Keys
    ensures Kept(mem0, mem, Drop(own0, d, lo, hi), d)
  {
    var own := Drop(own0, d, lo, hi);
    forall f | f in own && !own[f].Free? && f != d && !(own[f].Table? && own[f].dir == d)
      ensures mem[f] == mem0[f]
    {
      forall j: nat | j < NENTRIES ensures mem[f][j] == mem1[f][j] {
        assert Word(mem, f, j) == Cleared(mem1, own1, d, lo, hi, f, j);
      }
    }
  }

  /** Unmapping what was added gives the pages of the range back, those mapped before among them, and leaves only
    page tables behind. */
  lemma ExtendUndo(mem0: Frames, own0: map<nat, Owner>, mem1: Frames, own1: map<nat, Owner>, mem: Frames,
                   d: nat, lo: nat, a: nat, hi: nat)
    requires Spaces(mem1, own1) && Owns(own0, d, Dir) && mem.Keys == mem1.Keys
    requires Extended(mem0, own0, mem1, own1, d, lo, a) && lo <= a <= hi <= KERNEL
    requires Unmapped(mem1, mem, own1, d, lo, hi)
    ensures Grown(Drop(own0, d, lo, hi), Drop(own1, d, lo, hi), d) && Kept(mem0, mem, Drop(own0, d, lo, hi), d)
    ensures Trimmed(mem0, mem, own0, d, lo, hi)
  {
    hide Pte, Dying, Unmapped, Drop, Kept, Allotted, Grown, ZeroedPage;
    UndoOwners(own0, own1, d, lo, a, hi);
    UndoKept(mem0, own0, mem1, own1, mem, d, lo, a, hi);
    hide Extended;
    forall c, v: nat | Owns(own0, c, Dir) && v < KERNEL
      ensures if c == d && lo <= v < hi then !Present(Pte(mem, c, v)) else Pte(mem, c, v) == Pte(mem0, c, v)
    {
      ExtendedPte(mem0, own0, mem1, own1, d, lo, a, c, v);
      UnmappedPte(mem1, own1, mem, d, lo, hi, c, v);
    }
  }

  lemma ExtendedPte(mem0: Frames, own0: map<nat, Owner>, mem1: Frames, own1: map<nat, Owner>,
                    d: nat, lo: nat, a: nat, c: nat, v: nat)
    requires Extended(mem0, own0, mem1, own1, d, lo, a) && Owns(own0, c, Dir)
    ensures Owns(own1, c, Dir) && (!(c == d && lo <= v < a) ==> Pte(mem1, c, v) == Pte(mem0, c, v))
  {
    hide Pte;
  }

  /** Unmapping does not touch directories, so the page tables made on the way stay. */
  lemma UndoTables(mem0: Frames, mem1: Frames, own1: map<nat, Owner>, mem: Frames, d: nat, lo: nat, hi: nat, i: nat,
                   k: nat)
    requires Unmapped(mem1, mem, own1, d, lo, hi) && Owns(own1, d, Dir) && Tabled(mem0, mem1, d, i, k)
    ensures Tabled(mem0, mem, d, i, k)
  {
    forall j: nat | j < NENTRIES ensures Word(mem, d, j) == Word(mem1, d, j) {
      assert Word(mem, d, j) == Cleared(mem1, own1, d, lo, hi, d, j);
    }
  }

  /** Page v is one of the pages that `frames` frames are enough for, counted from lo. */
  ghost predicate Reached(mem: Frames, d: nat, lo: nat, hi: nat, frames: nat, v: nat) {
    lo <= v < hi && Needed(mem, d, lo, v + 1) <= frames
  }

  ghost predicate ReachedTable(mem: Frames, d: nat, lo: nat, hi: nat, frames: nat, i: nat) {
    exists v: nat :: Reached(mem, d, lo, hi, frames, v) && v / NENTRIES == i
  }

  /** The pages reached are those before the page a at which the frames ran out. */
  lemma ReachedBefore(mem: Frames, d: nat, lo: nat, a: nat, hi: nat, frames: nat)
    requires lo <= a < hi && Needed(mem, d, lo, a) <= frames < Needed(mem, d, lo, a + 1)
    ensures forall v: nat :: Reached(mem, d, lo, hi, frames, v) <==> lo <= v < a
    ensures forall i: nat :: ReachedTable(mem, d, lo, hi, frames, i) <==> lo / NENTRIES <= i < TablesTo(lo, a)
  {
    hide Needed;
    forall v: nat ensures Reached(mem, d, lo, hi, frames, v) <==> lo <= v < a {
      if lo <= v < a {
        NeededMore(mem, d, lo, v + 1, a);
      } else if a <= v {
        NeededMore(mem, d, lo, a + 1, v + 1);
      }
    }
    forall i: nat ensures ReachedTable(mem, d, lo, hi, frames, i) <==> lo / NENTRIES <= i < TablesTo(lo, a) {
      if lo / NENTRIES <= i < TablesTo(lo, a) {
        var v := if lo < i * NENTRIES then i * NENTRIES else lo;
        assert Reached(mem, d, lo, hi, frames, v) && v / NENTRIES == i;
      }
    }
  }

  /** allocuvm ran out of frames, of which it had `frames`: the pages of the range are gone, those mapped before among
    them, and of the frames taken those stay that are page tables of pages reached. */
  ghost predicate RolledBack(mem0: Frames, own0: map<nat, Owner>, mem: Frames, own: map<nat, Owner>,
                             d: nat, lo: nat, hi: nat, frames: nat) {
    && Grown(Drop(own0, d, lo, hi), own, d) && Kept(mem0, mem, Drop(own0, d, lo, hi), d)
    && Trimmed(mem0, mem, own0, d, lo, hi)
    && forall i: nat :: i < NENTRIES ==>
         (Present(Word(mem, d, i)) <==> Present(Word(mem0, d, i)) || ReachedTable(mem0, d, lo, hi, frames, i))
  }

  /** Some page table was made for a page reached. */
  ghost predicate TableMade(mem: Frames, d: nat, lo: nat, hi: nat, frames: nat) {
    exists v: nat :: Reached(mem, d, lo, hi, frames, v) && !Present(Word(mem, d, v / NENTRIES))
  }

  /** A frame is left with the directory exactly when a page was reached for which there was no page table. */
  lemma TablesLeft(mem0: Frames, own0: map<nat, Owner>, mem: Frames, own: map<nat, Owner>,
                   d: nat, lo: nat, hi: nat, frames: nat)
    requires Spaces(mem0, own0) && Spaces(mem, own) && Owns(own0, d, Dir) && lo <= hi <= KERNEL
    requires RolledBack(mem0, own0, mem, own, d, lo, hi, frames)
    ensures own != Drop(own0, d, lo, hi) <==> TableMade(mem0, d, lo, hi, frames)
  {
    hide Pte, Kept, Trimmed, Reached;
    var own1 := Drop(own0, d, lo, hi);
    if own != own1 {
      var f :| f in own1 && own[f] != own1[f];
      var i := own[f].index;
      assert FrameOk(mem, own, f, 0, 0);
      NewIndex(mem0, own0, mem, own, d, lo, hi, f);
      var v: nat :| Reached(mem0, d, lo, hi, frames, v) && v / NENTRIES == i;
    }
    if v: nat :| Reached(mem0, d, lo, hi, frames, v) && !Present(Word(mem0, d, v / NENTRIES)) {
      ReachedIndex(mem0, d, lo, hi, frames, v);
      TableHere(mem0, own0, mem, own, d, lo, hi, v / NENTRIES);
    }
  }

  lemma NewIndex(mem0: Frames, own0: map<nat, Owner>, mem: Frames, own: map<nat, Owner>, d: nat, lo: nat, hi: nat,
                 f: nat)
    requires Spaces(mem0, own0) && Spaces(mem, own) && Owns(own0, d, Dir) && Grown(Drop(own0, d, lo, hi), own, d)
    requires f in own && own[f] != Drop(own0, d, lo, hi)[f]
    ensures own[f].Table? && !Present(Word(mem0, d, own[f].index))
  {
    var g := FrameOf(Word(mem0, d, own[f].index));
    assert FrameOk(mem, own, f, 0, 0) && FrameOk(mem0, own0, d, 0, 0);
    if g in own {
      assert FrameOk(mem, own, g, 0, 0);
    }
  }

  lemma ReachedIndex(mem: Frames, d: nat, lo: nat, hi: nat, frames: nat, v: nat)
    requires Reached(mem, d, lo, hi, frames, v) && hi <= KERNEL
    ensures v / NENTRIES < NENTRIES && ReachedTable(mem, d, lo, hi, frames, v / NENTRIES)
  {
  }

  /** A directory entry that was empty has got a page table. */
  lemma TableHere(mem0: Frames, own0: map<nat, Owner>, mem: Frames, own: map<nat, Owner>, d: nat, lo: nat, hi: nat,
                  i: nat)
    requires Spaces(mem0, own0) && Spaces(mem, own) && Owns(own, d, Dir) && i < NENTRIES
    requires Present(Word(mem, d, i)) && !Present(Word(mem0, d, i))
    ensures own != Drop(own0, d, lo, hi) && exists f :: Owns(own, f, Table(d, i))
  {
    assert FrameOk(mem, own, d, 0, 0);
    var f := FrameOf(Word(mem, d, i));
    assert Owns(own, f, Table(d, i));
    if f in own0 {
      assert FrameOk(mem0, own0, f, 0, 0);
    }
  }

  /** Nothing was mapped in the range, so nothing is unmapped. */
  lemma RolledBackClean(mem0: Frames, own0: map<nat, Owner>, mem: Frames, own: map<nat, Owner>,
                        d: nat, lo: nat, hi: nat, frames: nat)
    requires Spaces(mem0, own0) && lo <= hi && !AnyMapped(mem0, d, lo, hi)
    requires RolledBack(mem0, own0, mem, own, d, lo, hi, frames)
    ensures Drop(own0, d, lo, hi) == own0 && SameMapped(mem0, mem, own0)
  {
    Absent(mem0, own0, d, lo, hi);
  }

  /** A page that is mapped already is reached. */
  ghost predicate MappedReached(mem: Frames, d: nat, lo: nat, hi: nat, frames: nat) {
    exists v: nat :: Reached(mem, d, lo, hi, frames, v) && Present(Pte(mem, d, v))
  }

  lemma FoundMapped(mem: Frames, d: nat, lo: nat, a: nat, hi: nat, frames: nat)
    requires lo <= a < hi && Needed(mem, d, lo, a + 1) <= frames && Present(Pte(mem, d, a))
    ensures MappedReached(mem, d, lo, hi, frames)
  {
    assert Reached(mem, d, lo, hi, frames, a);
  }

  lemma NoneReached(mem: Frames, d: nat, lo: nat, hi: nat, frames: nat)
    requires !AnyMapped(mem, d, lo, hi)
    ensures !MappedReached(mem, d, lo, hi, frames)
  {
  }

  /** The end of allocuvm when page a cannot be mapped for want of frames. */
  lemma RunOut(mem0: Frames, own0: map<nat, Owner>, mem1: Frames, own1: map<nat, Owner>, mem: Frames,
               own: map<nat, Owner>, d: nat, lo: nat, a: nat, hi: nat, frames: nat)
    requires Spaces(mem0, own0) && Spaces(mem1, own1) && Spaces(mem, own) && mem.Keys == mem1.Keys
    requires Owns(own0, d, Dir) && Owns(own1, d, Dir) && lo <= a < hi <= KERNEL
    requires Extended(mem0, own0, mem1, own1, d, lo, a) && !AnyMapped(mem0, d, lo, a)
    requires Tabled(mem0, mem1, d, lo / NENTRIES, TablesTo(lo, a))
    requires Unmapped(mem1, mem, own1, d, lo, hi) && own == Drop(own1, d, lo, hi)
    requires Needed(mem0, d, lo, a) <= frames < Needed(mem0, d, lo, a + 1)
    ensures RolledBack(mem0, own0, mem, own, d, lo, hi, frames)
    ensures own != Drop(own0, d, lo, hi) <==> TableMade(mem0, d, lo, hi, frames)
    ensures !AnyMapped(mem0, d, lo, hi) ==> Drop(own0, d, lo, hi) == own0 && SameMapped(mem0, mem, own0)
    ensures !MappedReached(mem0, d, lo, hi, frames)
  {
    hide Needed, Pte, Dying, Drop, Kept, Grown, Trimmed, Extended, Unmapped, Reached, ReachedTable, TableMade,
         SameMapped, TablesTo;
    ExtendUndo(mem0, own0, mem1, own1, mem, d, lo, a, hi);
    UndoTables(mem0, mem1, own1, mem, d, lo, hi, lo / NENTRIES, TablesTo(lo, a));
    ReachedBefore(mem0, d, lo, a, hi, frames);
    TablesLeft(mem0, own0, mem, own, d, lo, hi, frames);
    if !AnyMapped(mem0, d, lo, hi) {
      RolledBackClean(mem0, own0, mem, own, d, lo, hi, frames);
    }
  }

  class Memory {
    var mem: Frames
    var freelist: nat
    const first: nat    // the first frame after the kernel
    const data: nat     // the frame of the kernel's data
    ghost var own: map<nat, Owner>
    ghost var chain: seq<nat>

    ghost predicate Heap()
      reads this
    {
      && EXTMEM < data < first <= PHYSTOP && (forall f :: f in own <==> first <= f < PHYSTOP)
      && mem.Keys == own.Keys && FreeList(mem, own, freelist, chain)
    }

    ghost predicate Valid()
      reads this
    {
      Heap() && Spaces(mem, own)
    }

    /** kinit1 and kinit2: every frame after the kernel is put on the free list. */
    constructor (first: nat, data: nat, ram: Frames)
      requires EXTMEM < data < first <= PHYSTOP && forall f :: f in ram <==> first <= f < PHYSTOP
      ensures Valid() && |chain| == PHYSTOP - first && forall f :: f in own ==> own[f].Free?
    {
      this.first, this.data, mem, freelist := first, data, ram, 0;
      own, chain := map f | f in ram :: Held, [];
      new;
      for f := first to PHYSTOP
        invariant this.first == first && this.data == data && Heap() && |chain| == f - first
        invariant forall g :: g in own ==> own[g] == if g < f then Free else Held
      {
        KFree(f);
      }
    }

    method KFree(f: nat)
      requires Heap() && f in own && !own[f].Free?
      modifies this
      ensures Heap() && own == old(own)[f := Free] && mem == old(mem)[f := mem[f]]
      ensures |chain| == old(|chain|) + 1 && mem[f] == JunkPage(old(freelist))
    {
      if f < first || f >= PHYSTOP {
        assert false;
      }
      mem := mem[f := JunkPage(freelist)];
      PushFree(old(mem), own, freelist, chain, f, mem[f]);
      freelist := f;
      own, chain := own[f := Free], chain + [f];
    }

    method KAlloc() returns (r: nat)
      requires Heap()
      modifies this
      ensures Heap() && mem == old(mem)
      ensures r == 0 ==> own == old(own) && chain == old(chain) == []
      ensures r != 0 ==> r in own && old(own)[r].Free? && own == old(own)[r := Held]
      ensures r != 0 ==> |chain| + 1 == old(|chain|)
    {
      r := freelist;
      if r != 0 {
        PopFree(mem, own, freelist, chain);
        freelist := FrameOf(Word(mem, r, 0));
        own, chain := own[r := Held], chain[..|chain| - 1];
      }
    }

    /** The page table holding the entry of page v, or 0; the entry is word v % 1024 of it. */
    method WalkPgDir(d: nat, v: nat, alloc: bool) returns (t: nat)
      requires Valid() && Owns(own, d, Dir) && v < PAGES
      modifies this
      ensures Valid()
      ensures old(Present(Word(mem, d, v / NENTRIES))) ==> t != 0
      ensures t != 0 ==> Owns(own, t, Table(d, v / NENTRIES)) && Pte(mem, d, v) == Word(mem, t, v % NENTRIES)
      ensures t == 0 ==> !Present(Word(mem, d, v / NENTRIES)) && (alloc ==> chain == [])
      ensures !old(Present(Word(mem, d, v / NENTRIES))) ==> Pte(mem, d, v) == 0
      ensures t == 0 || !alloc || old(Present(Word(mem, d, v / NENTRIES))) ==>
                mem == old(mem) && own == old(own) && chain == old(chain)
      ensures t != 0 && !old(Present(Word(mem, d, v / NENTRIES))) ==> alloc && |chain| + 1 == old(|chain|)
      ensures t != 0 ==> Tabled(old(mem), mem, d, v / NENTRIES, v / NENTRIES + 1)
      ensures Grown(old(own), own, d) && Kept(old(mem), mem, old(own), d)
      ensures forall c, u: nat :: Owns(old(own), c, Dir) ==> Pte(mem, c, u) == Pte(old(mem), c, u)
    {
      hide FreeList, Dying, Grown, Kept, Tabled, Pte;
      var i := v / NENTRIES;
      var pde := Word(mem, d, i);
      NothingGrown(mem, own, d, i);
      if Present(pde) {
        t := FrameOf(pde);
        Walk(mem, own, d, v);
      } else {
        NoTable(mem, d, v);
        if !alloc {
          return 0;
        }
        t := NewPageTable(d, i);
        if t != 0 {
          Walk(mem, own, d, v);
        }
      }
    }

    /** Gives an empty entry of a directory a page table with no pages. */
    method NewPageTable(d: nat, i: nat) returns (t: nat)
      requires Valid() && Owns(own, d, Dir) && i < NENTRIES && !Present(Word(mem, d, i))
      modifies this
      ensures Valid()
      ensures t == 0 ==> chain == old(chain) == [] && mem == old(mem) && own == old(own)
      ensures t != 0 ==>
                && |chain| + 1 == old(|chain|) && Word(mem, d, i) == Entry(t, 7) && Owns(own, d, Dir)
                && Tabled(old(mem), mem, d, i, i + 1) && Grown(old(own), own, d) && Kept(old(mem), mem, old(own), d)
                && forall c, u: nat :: Owns(old(own), c, Dir) ==> Pte(mem, c, u) == Pte(old(mem), c, u)
    {
      hide FreeList, Dying, ZeroPage, Grown, Kept, Tabled, Pte, Entry, Word, Present, FrameOf;
      t := KAlloc();
      if t != 0 {
        NewTableStep(mem, old(own), d, i, t);
        UseFrame(mem, own, freelist, chain, t, ZeroPage(), Table(d, i));
        mem := mem[t := ZeroPage()];
        own := own[t := Table(d, i)];
        UseFrame(mem, own, freelist, chain, d, mem[d][i := Entry(t, 7)], Dir);
        mem := mem[d := mem[d][i := Entry(t, PTE_P + PTE_W + PTE_U)]];
        assert own == own[d := Dir] == old(own)[t := Table(d, i)];
      }
    }

    /** Frees one mapped page and clears its entry. */
    method FreePage(d: nat, a: nat, t: nat, ghost lo: nat, ghost mem0: Frames, ghost own0: map<nat, Owner>)
      requires Valid() && lo <= a < KERNEL && Owns(own, t, Table(d, a / NENTRIES)) && Owns(own, d, Dir)
      requires Present(Word(mem, t, a % NENTRIES)) && Unmapping(mem0, own0, mem, own, d, lo, a)
      modifies this
      ensures Valid() && Owns(own, d, Dir) && Unmapping(mem0, own0, mem, own, d, lo, a + 1)
    {
      hide FreeList, Dying, JunkPage, Unmapping;
      var pa := FrameOf(Word(mem, t, a % NENTRIES));
      UnmapOne(mem0, own0, mem, own, d, lo, a, t, JunkPage(freelist));
      if pa == 0 {
        assert false;
      }
      KFree(pa);
      UseFrame(mem, own, freelist, chain, t, mem[t][a % NENTRIES := 0], own[t]);
      assert own == own[t := own[t]];
      mem := mem[t := mem[t][a % NENTRIES := 0]];
    }

    /** Frees the pages from newsz up to oldsz. */
    method DeallocUvm(d: nat, oldsz: nat, newsz: nat) returns (sz: nat)
      requires Valid() && Owns(own, d, Dir) && oldsz <= KERNBASE
      modifies this
      ensures Valid()
      ensures sz == if newsz >= oldsz then oldsz else newsz
      ensures own == Drop(old(own), d, RoundUp(newsz), RoundUp(oldsz))
      ensures Unmapped(old(mem), mem, old(own), d, RoundUp(newsz), RoundUp(oldsz))
    {
      hide FreeList, Dying, Unmapped, Drop, JunkPage, NoneMapped, RoundUp, Unmapping, Pte, Grown, Kept, Tabled;
      UserEnd(oldsz);
      ghost var lo, hi := RoundUp(newsz), RoundUp(oldsz);
      StartUnmap(mem, own, d, lo, if hi < lo then hi else lo);
      if newsz >= oldsz {
        RoundUpMonotone(oldsz, newsz);
        EndUnmap(mem, own, mem, own, d, lo, hi);
        return oldsz;
      }
      var a := RoundUp(newsz);
      RoundUpMonotone(newsz, oldsz);
      while a * PGSIZE < oldsz
        invariant Valid() && Owns(own, d, Dir) && lo <= a
        invariant Unmapping(old(mem), old(own), mem, own, d, lo, if a < hi then a else hi)
      {
        PageBelow(a, oldsz);
        var t := WalkPgDir(d, a, false);
        if t == 0 {
          var next := (a / NENTRIES + 1) * NENTRIES;
          ghost var b := if next < hi then next else hi;
          AbsentTable(mem, own, d, a, b);
          UnmapNone(old(mem), old(own), mem, own, d, lo, a, b);
          a := next - 1;
        } else if Present(Word(mem, t, a % NENTRIES)) {
          FreePage(d, a, t, lo, old(mem), old(own));
        } else {
          assert !Present(Pte(mem, d, a));
          Absent(mem, own, d, a, a + 1);
          UnmapNone(old(mem), old(own), mem, own, d, lo, a, a + 1);
        }
        a := a + 1;
      }
      PageBelow(a, oldsz);
      EndUnmap(old(mem), old(own), mem, own, d, lo, hi);
      return newsz;
    }

    /** Frees an address space: its user pages, its page tables and its directory. */
    method FreeVm(d: nat)
      requires Valid() && Owns(own, d, Dir)
      modifies this
      ensures Valid() && own == Freed(old(own), d) && Same(old(mem), mem, own)
    {
      hide FreeList, Dying, Unmapped, Drop, JunkPage, NoneMapped, Release, Freed, Belongs;
      var _ := DeallocUvm(d, KERNBASE, 0);
      assert RoundUp(0) == 0 && RoundUp(KERNBASE) == KERNEL;
      UnmappedAll(old(mem), mem, old(own), d);
      StartDying(old(own), mem, own, d);
      ghost var mem1 := mem;
      FreeTables(d);
      FreedInSteps(old(mem), old(own), own, d);
      FreeDir(mem, own, d, JunkPage(freelist));
      KFree(d);
      FreedFree(old(own), d);
    }

    /** The loop of freevm over the page tables. */
    method FreeTables(d: nat)
      requires Heap() && Owns(own, d, Dir) && Dying(mem, own, d, 0) && NoneMapped(own, d, 0, KERNEL)
      modifies this
      ensures Heap() && Dying(mem, own, d, NENTRIES) && own == Release(old(own), d, NENTRIES)
              && Same(old(mem), mem, own)
    {
      hide FreeList, Dying, JunkPage, NoneMapped, Release;
      ReleaseStep(own, d, 0);
      for i := 0 to NENTRIES
        invariant Heap() && Owns(own, d, Dir) && Dying(mem, own, d, i) && NoneMapped(own, d, 0, KERNEL)
        invariant own == Release(old(own), d, i) && Same(old(mem), mem, own)
      {
        ReleaseStep(old(own), d, i);
        if Present(Word(mem, d, i)) {
          FreeTable(mem, own, d, i, JunkPage(freelist));
          ReleaseKeeps(old(own), d, i + 1);
          KFree(FrameOf(Word(mem, d, i)));
        } else {
          SkipTable(mem, own, d, i);
        }
      }
    }

    /** One turn of the loop of mappages. A page below KERNBASE is mapped to a frame of its own. */
    method MapPage(d: nat, v: nat, frame: nat, perm: nat) returns (r: Mapped)
      requires Valid() && Owns(own, d, Dir) && v < PAGES && perm < PGSIZE && (v < KERNEL ==> Owns(own, frame, Held))
      modifies this
      ensures Valid()
      ensures r != Done ==> own == old(own) && mem == old(mem) && chain == old(chain)
      ensures r == NoMemory ==> chain == [] && !Present(Word(mem, d, v / NENTRIES))
      ensures r == Remap <==> Present(Pte(old(mem), d, v))
      ensures r == Done ==> Grown(if v < KERNEL then old(own)[frame := User(d, v)] else old(own), own, d)
      ensures r == Done ==> Kept(old(mem), mem, old(own), d)
      ensures r == Done ==> Mapping(old(mem), mem, old(own), d, v, v + 1, frame, perm)
      ensures r == Done ==> Tabled(old(mem), mem, d, v / NENTRIES, v / NENTRIES + 1)
      ensures r == Done ==>
                |chain| + (if Present(Word(old(mem), d, v / NENTRIES)) then 0 else 1) == old(|chain|)
    {
      hide FreeList, Dying, Pte, Grown, Kept, Tabled, Mapping;
      var t := WalkPgDir(d, v, true);
      if t == 0 {
        return NoMemory;
      }
      var j := v % NENTRIES;
      if Present(Word(mem, t, j)) {
        return Remap;
      }
      GrownKeeps(old(own), own, d, if v < KERNEL then frame else d);
      EntryStep(mem, own, d, v, t, frame, perm);
      MapStep(old(mem), old(own), mem, own, mem[t := mem[t][j := Entry(frame, perm)]], d, v, frame, perm);
      UseFrame(mem, own, freelist, chain, t, mem[t][j := Entry(frame, perm)], own[t]);
      assert own == own[t := own[t]];
      mem := mem[t := mem[t][j := Entry(frame, perm)]];
      if v < KERNEL {
        UseFrame(mem, own, freelist, chain, frame, mem[frame], User(d, v));
        assert mem == mem[frame := mem[frame]];
        own := own[frame := User(d, v)];
      }
      r := Done;
    }

    /** Maps the pages of va..va + size to consecutive frames, up to the page `stop` that is mapped already or has no
      page table for want of a frame. The frames of user pages are given to them. */
    method MapPages(d: nat, va: nat, size: nat, frame: nat, perm: nat) returns (r: Mapped, ghost stop: nat)
      requires Valid() && Owns(own, d, Dir) && 0 < size && va + size <= PAGES * PGSIZE && perm < PGSIZE
      requires HeldFor(own, va / PGSIZE, (va + size - 1) / PGSIZE + 1, frame)
      modifies this
      ensures Valid() && va / PGSIZE <= stop <= (va + size - 1) / PGSIZE + 1
      ensures r == Done <==> stop == (va + size - 1) / PGSIZE + 1
      ensures r == Remap ==> Present(Pte(old(mem), d, stop))
      ensures r == NoMemory ==> !Present(Pte(old(mem), d, stop)) && chain == []
      ensures !AnyMapped(old(mem), d, va / PGSIZE, stop)
      ensures r == Remap ==> AnyMapped(old(mem), d, va / PGSIZE, (va + size - 1) / PGSIZE + 1)
      ensures Grown(Given(old(own), d, va / PGSIZE, stop, frame), own, d) && Kept(old(mem), mem, old(own), d)
      ensures stop == va / PGSIZE ==> own == old(own) && mem == old(mem)
      ensures Mapping(old(mem), mem, old(own), d, va / PGSIZE, stop, frame, perm)
      ensures Tabled(old(mem), mem, d, va / PGSIZE / NENTRIES, TablesTo(va / PGSIZE, stop))
      ensures |chain| + Missing(old(mem), d, va / PGSIZE / NENTRIES, TablesTo(va / PGSIZE, stop)) == old(|chain|)
      ensures r == NoMemory ==>
                old(|chain|) < Missing(old(mem), d, va / PGSIZE / NENTRIES, TablesTo(va / PGSIZE, stop + 1)) <=
                  Missing(old(mem), d, va / PGSIZE / NENTRIES, (va + size - 1) / PGSIZE / NENTRIES + 1)
    {
      hide FreeList, Dying, Pte, Grown, Kept, Tabled, Mapping, AnyMapped, Missing, Word, Given, HeldFor;
      var a, last, f := va / PGSIZE, (va + size - 1) / PGSIZE, frame;
      ghost var first := a;
      stop := a;
      MapNothing(mem, own, d, a, frame, perm);
      GivenFew(own, d, first, frame);
      while true
        invariant Valid() && Owns(own, d, Dir) && first <= a <= last && f == frame + a - first && stop == a
        invariant first == a ==> own == old(own) && mem == old(mem)
        invariant Grown(Given(old(own), d, first, a, frame), own, d) && Kept(old(mem), mem, old(own), d)
        invariant Mapping(old(mem), mem, old(own), d, first, a, frame, perm) && !AnyMapped(old(mem), d, first, a)
        invariant Tabled(old(mem), mem, d, first / NENTRIES, TablesTo(first, a))
        invariant |chain| + Missing(old(mem), d, first / NENTRIES, TablesTo(first, a)) == old(|chain|)
        decreases last - a
      {
        ghost var mem1, own1 := mem, own;
        NotYetMapped(old(mem), mem, old(own), d, first, a, last, frame, perm);
        GivenHeld(old(own), own, d, first, a, last + 1, frame);
        r := MapPage(d, a, f, perm);
        if r == NoMemory {
          MapFails(old(mem), mem, d, first, a, last);
        }
        if r != Done {
          return;
        }
        MapMore(old(mem), old(own), mem1, own1, mem, own, d, first, a, last + 1, frame, perm);
        GrownKeeps(if a < KERNEL then own1[f := User(d, a)] else own1, own, d, d);
        stop := stop + 1;
        if a == last {
          break;
        }
        a := a + 1;
        f := f + 1;
      }
    }

    /** mappages as copyuvm and allocuvm call it, for one user page. */
    method MapUser(d: nat, v: nat, frame: nat, perm: nat) returns (r: Mapped)
      requires Valid() && Owns(own, d, Dir) && v < KERNEL && perm < PGSIZE && Owns(own, frame, Held)
      modifies this
      ensures Valid()
      ensures r == Remap <==> AnyMapped(old(mem), d, v, v + 1)
      ensures r != Done ==> own == old(own) && mem == old(mem)
      ensures r == Done ==> Grown(old(own)[frame := User(d, v)], own, d) && Kept(old(mem), mem, old(own), d)
      ensures r == Done ==> Mapping(old(mem), mem, old(own), d, v, v + 1, frame, perm)
      ensures r == Done ==> Tabled(old(mem), mem, d, v / NENTRIES, v / NENTRIES + 1)
      ensures var need := Missing(old(mem), d, v / NENTRIES, v / NENTRIES + 1);
              (r == Done ==> |chain| + need == old(|chain|)) && (r == NoMemory ==> old(|chain|) < need)
    {
      hide FreeList, Dying, Pte, Word, Grown, Kept, Mapping, Tabled, Missing, Given, HeldFor, TablesTo;
      PageNumbers(v);
      GivenFew(own, d, v, frame);
      ghost var stop;
      r, stop := MapPages(d, v * PGSIZE, PGSIZE, frame, perm);
    }

    /** A new page directory with the kernel part mapped, or 0 with every frame as it was. */
    method SetupKvm() returns (d: nat)
      requires Valid()
      modifies this
      ensures Valid()
      ensures d != 0 ==> Building(old(mem), old(own), mem, own, d) && KernelBuilt(mem, d, data, 4)
      ensures d != 0 ==> |chain| + 65 == old(|chain|)
      ensures d == 0 ==> own == old(own) && Same(old(mem), mem, own) && old(|chain|) < 65
    {
      hide FreeList, Dying, ZeroPage, Pte, Word, Building, Grown, Kept, Mapping, Tabled, KernelBuilt, Missing,
           AnyMapped, Freed, Same, KernelTables, Belongs, KMap, Pages, TableEnd;
      SameRefl(mem, own);
      KernelCount(data, 3);
      d := KAlloc();
      if d == 0 {
        return;
      }
      NewDir(mem, old(own), d);
      UseFrame(mem, own, freelist, chain, d, ZeroPage(), Dir);
      mem, own := mem[d := ZeroPage()], own[d := Dir];
      assert own == old(own)[d := Dir];
      KernelStart(mem, d, data);
      for n := 0 to 4
        invariant Valid() && Owns(own, d, Dir) && Building(old(mem), old(own), mem, own, d)
                  && KernelBuilt(mem, d, data, n)
        invariant |chain| + 1 + KernelTables(data, n) == old(|chain|)
      {
        var ok := MapSegment(d, n, old(mem), old(own));
        if !ok {
          KernelCount(data, n);
          ghost var mem1, own1 := mem, own;
          FreeVm(d);
          Unbuild(old(mem), old(own), mem1, own1, mem, d);
          return 0;
        }
      }
    }

    /** Maps one segment of the kernel part of a directory. */
    method MapSegment(d: nat, n: nat, ghost mem0: Frames, ghost own0: map<nat, Owner>) returns (ok: bool)
      requires Valid() && Owns(own, d, Dir) && n < 4
      requires Building(mem0, own0, mem, own, d) && KernelBuilt(mem, d, data, n)
      modifies this
      ensures Valid() && Owns(own, d, Dir) && Building(mem0, own0, mem, own, d)
      ensures ok ==> KernelBuilt(mem, d, data, n + 1)
      ensures ok ==> |chain| + KernelTables(data, n + 1) == old(|chain|) + KernelTables(data, n)
      ensures !ok ==> old(|chain|) < KernelTables(data, n + 1) - KernelTables(data, n)
    {
      hide FreeList, Dying, Pte, Word, Building, Grown, Kept, Mapping, Tabled, KernelBuilt, Missing, AnyMapped,
           KernelTables, KMap, Pages, TableEnd, Given, HeldFor;
      var k := KMap(data)[n];
      SegmentBounds(data, n);
      SegmentPages(k);
      KernelNeeds(mem, d, data, n);
      GivenFew(own, d, k.page, k.start);
      var r, stop := MapPages(d, k.page * PGSIZE, Pages(k) * PGSIZE, k.start, k.perm);
      BuildTables(mem0, own0, old(mem), old(own), mem, own, d);
      BuildOwns(mem0, own0, mem, own, d);
      ok := r == Done;
      if ok {
        KernelStep(old(mem), mem, old(own), d, data, n);
      }
    }

    /** A new frame with the given bytes, or 0. */
    method NewFrame(page: Page) returns (r: nat)
      requires Valid()
      modifies this
      ensures Valid()
      ensures r == 0 ==> own == old(own) && mem == old(mem) && chain == old(chain) == []
      ensures r != 0 ==> Owns(old(own), r, Free) && own == old(own)[r := Held] && mem == old(mem)[r := page]
      ensures r != 0 ==> |chain| + 1 == old(|chain|)
      ensures forall d, v: nat :: Owns(old(own), d, Dir) ==> Pte(mem, d, v) == Pte(old(mem), d, v)
    {
      hide FreeList, Dying, Pte;
      r := KAlloc();
      if r != 0 {
        Unreferenced(mem, old(own), r, page, Held);
        UseFrame(mem, own, freelist, chain, r, page, Held);
        mem := mem[r := page];
        assert own == own[r := Held];
      }
    }

    /** Copies a page of c into page i of d: one turn of the loop of copyuvm. */
    method CopyPage(ghost c: nat, d: nat, i: nat, pa: nat, flags: nat, ghost mem0: Frames, ghost own0: map<nat, Owner>)
      returns (ok: bool)
      requires Valid() && i < KERNEL && Present(Pte(mem0, c, i))
      requires pa == FrameOf(Pte(mem0, c, i)) && flags == Pte(mem0, c, i) % PGSIZE
      requires pa in mem && pa in mem0 && mem[pa] == mem0[pa]
      requires Building(mem0, own0, mem, own, d) && Copied(mem0, mem, own, c, d, data, i) && UserTables(mem, d, i)
      modifies this
      ensures Valid() && Building(mem0, own0, mem, own, d)
      ensures ok ==> Copied(mem0, mem, own, c, d, data, i + 1) && UserTables(mem, d, i + 1)
      ensures ok ==> |chain| + 1 + Tables(i + 1) == old(|chain|) + Tables(i)
      ensures !ok ==> old(|chain|) < 1 + Tables(i + 1) - Tables(i)
    {
      hide FreeList, Dying, Pte, Word, Building, Grown, Kept, Mapping, Tabled, Missing, AnyMapped, UserTables, Copied,
           KernelEntry, Tables, JunkPage, Entry, FrameOf, Present;
      TablesGrow(i);
      BuildOwns(mem0, own0, mem, own, d);
      var page := mem[pa];
      var r := NewFrame(page);
      if r == 0 {
        return false;
      }
      NextTable(mem0, old(mem), old(own), c, d, data, i, r, page);
      var m := MapUser(d, i, r, flags);
      if m != Done {
        Unreferenced(mem, own, r, JunkPage(freelist), Free);
        BuildJunk(mem0, own0, old(mem), old(own), d, r, JunkPage(freelist));
        KFree(r);
        assert own == old(own) && mem == old(mem)[r := mem[r]];
        return false;
      }
      assert old(own)[r := Held][r := User(d, i)] == old(own)[r := User(d, i)];
      BuildPage(mem0, own0, old(mem), old(own), r, page, mem, own, d, i);
      CopyStep(mem0, old(mem), old(own), mem, own, c, d, data, i, r, page);
      ok := true;
    }

    /** A copy of the address space of c below sz, or 0 with every frame as it was; panicked
      stands for the two panics of copyuvm. */
    method CopyUvm(c: nat, sz: nat) returns (d: nat, panicked: bool)
      requires Valid() && Owns(own, c, Dir) && sz <= KERNBASE
      modifies this
      ensures panicked ==> !AllMapped(old(mem), c, RoundUp(sz))
      ensures !panicked ==> Valid()
      ensures !panicked && d != 0 ==>
                && AllMapped(old(mem), c, RoundUp(sz))
                && Building(old(mem), old(own), mem, own, d)
                && Copied(old(mem), mem, own, c, d, data, RoundUp(sz))
                && |chain| + 65 + RoundUp(sz) + Tables(RoundUp(sz)) == old(|chain|)
      ensures !panicked && d == 0 ==>
                && own == old(own) && Same(old(mem), mem, own)
                && old(|chain|) < 65 + RoundUp(sz) + Tables(RoundUp(sz))
    {
      hide FreeList, Dying, Pte, Building, KernelBuilt, UserTables, Copied, Tables, RoundUp, AllMapped, Freed, Same;
      UserEnd(sz);
      panicked := false;
      d := SetupKvm();
      if d == 0 {
        return;
      }
      CopyStart(old(mem), mem, own, c, d, data);
      var i := 0;
      while i * PGSIZE < sz
        invariant Valid() && Building(old(mem), old(own), mem, own, d) && i <= RoundUp(sz)
        invariant Copied(old(mem), mem, own, c, d, data, i) && UserTables(mem, d, i) && AllMapped(old(mem), c, i)
        invariant |chain| + 65 + i + Tables(i) == old(|chain|)
      {
        PageBelow(i, sz);
        OthersSame(old(mem), old(own), mem, own, d, c, i);
        NotAll(old(mem), c, i, RoundUp(sz));
        var t := WalkPgDir(c, i, false);
        if t == 0 {
          return 0, true;
        }
        var pte := Word(mem, t, i % NENTRIES);
        if !Present(pte) {
          return 0, true;
        }
        var ok := CopyPage(c, d, i, FrameOf(pte), pte % PGSIZE, old(mem), old(own));
        if !ok {
          ghost var mem1, own1 := mem, own;
          BuildOwns(old(mem), old(own), mem, own, d);
          FreeVm(d);
          Unbuild(old(mem), old(own), mem1, own1, mem, d);
          TablesMonotone(i + 1, RoundUp(sz));
          return 0, false;
        }
        i := i + 1;
      }
      PageBelow(i, sz);
    }

    /** Maps one more zeroed page: one turn of the loop of allocuvm. When there is no page table for it the
      frame r is left unmapped. */
    method ExtendPage(d: nat, a: nat, ghost lo: nat, ghost mem0: Frames, ghost own0: map<nat, Owner>)
      returns (m: Mapped, r: nat)
      requires Valid() && Owns(own0, d, Dir) && Owns(own, d, Dir) && lo <= a < KERNEL
      requires Extended(mem0, own0, mem, own, d, lo, a)
      modifies this
      ensures Valid() && Owns(own, d, Dir)
      ensures m == Remap <==> Present(Pte(mem0, d, a)) && old(|chain|) > 0
      ensures m == Done ==> Extended(mem0, own0, mem, own, d, lo, a + 1)
      ensures m == NoMemory && r == 0 ==> own == old(own) && mem == old(mem)
      ensures m == NoMemory && r != 0 ==>
                Owns(old(own), r, Free) && own == old(own)[r := Held] && mem == old(mem)[r := ZeroPage()]
      ensures var need := 1 + (if Present(Word(old(mem), d, a / NENTRIES)) then 0 else 1);
              && (m == Done ==> |chain| + need == old(|chain|)) && (m == NoMemory ==> old(|chain|) < need)
              && (m == Remap ==> need == 1)
      ensures m == Done ==> Tabled(old(mem), mem, d, a / NENTRIES, a / NENTRIES + 1)
    {
      hide FreeList, Dying, Pte, Word, Grown, Kept, Mapping, Tabled, Missing, AnyMapped, Extended, JunkPage, ZeroPage;
      r := NewFrame(ZeroPage());
      if r == 0 {
        return NoMemory, 0;
      }
      MappedTable(old(mem), d, a);
      ExtendNext(mem0, own0, old(mem), old(own), mem, d, lo, a);
      MissingOne(mem, d, a / NENTRIES);
      WordsKept(old(mem), mem, d, r);
      m := MapUser(d, a, r, PTE_W + PTE_U);
      if m == Done {
        assert old(own)[r := Held][r := User(d, a)] == old(own)[r := User(d, a)];
        ExtendStep(mem0, own0, old(mem), old(own), mem, own, d, lo, a, r, old(mem)[r := ZeroPage()]);
        GrownKeeps(old(own)[r := User(d, a)], own, d, d);
        TabledFrom(old(mem), old(mem)[r := ZeroPage()], mem, d, a / NENTRIES);
      }
    }

    /** Grows an address space from oldsz to newsz with zeroed pages. The panic is for a page already mapped, if there
      are frames for the pages before it and one more. When the frames run out the pages of the range are unmapped,
      but page tables made on the way stay with the directory. */
    method AllocUvm(d: nat, oldsz: nat, newsz: nat) returns (sz: nat, panicked: bool)
      requires Valid() && Owns(own, d, Dir)
      modifies this
      ensures !panicked ==> Valid()
      ensures newsz >= KERNBASE ==> sz == 0
      ensures newsz < KERNBASE && newsz < oldsz ==> sz == oldsz
      ensures newsz >= KERNBASE || newsz < oldsz ==> !panicked && own == old(own) && mem == old(mem)
      ensures oldsz <= newsz < KERNBASE ==>
                var lo, hi, frames := RoundUp(oldsz), RoundUp(newsz), old(|chain|);
                && lo <= hi
                && (panicked <==> MappedReached(old(mem), d, lo, hi, frames))
                && (!panicked ==> sz == if frames < Needed(old(mem), d, lo, hi) then 0 else newsz)
                && (!panicked && Needed(old(mem), d, lo, hi) <= frames ==>
                      && Extended(old(mem), old(own), mem, own, d, lo, hi)
                      && |chain| + Needed(old(mem), d, lo, hi) == frames)
                && (!panicked && frames < Needed(old(mem), d, lo, hi) ==>
                      && RolledBack(old(mem), old(own), mem, own, d, lo, hi, frames)
                      && (own != Drop(old(own), d, lo, hi) <==> TableMade(old(mem), d, lo, hi, frames))
                      && (!AnyMapped(old(mem), d, lo, hi) ==>
                            Drop(old(own), d, lo, hi) == old(own) && SameMapped(old(mem), mem, old(own))))
    {
      hide FreeList, Dying, Pte, Word, AnyMapped, Extended, RoundUp, Drop, Unmapped, Grown, Kept, SameMapped, Tabled,
           TablesTo, Needed, JunkPage, ZeroPage, MappedReached, Reached, ReachedTable, RolledBack, TableMade, Trimmed;
      panicked := false;
      if newsz >= KERNBASE {
        return 0, false;
      }
      if newsz < oldsz {
        return oldsz, false;
      }
      var a := RoundUp(oldsz);
      ghost var lo, hi := a, RoundUp(newsz);
      RoundUpMonotone(oldsz, newsz);
      UserEnd(newsz);
      ExtendStart(mem, own, d, lo);
      NeededNone(mem, d, lo);
      NoneUpTo(mem, d, lo, lo);
      while a * PGSIZE < newsz
        invariant Valid() && Owns(own, d, Dir) && lo <= a <= hi
        invariant Extended(old(mem), old(own), mem, own, d, lo, a) && !AnyMapped(old(mem), d, lo, a)
        invariant Tabled(old(mem), mem, d, lo / NENTRIES, TablesTo(lo, a))
        invariant |chain| + Needed(old(mem), d, lo, a) == old(|chain|)
      {
        PageBelow(a, newsz);
        NeededStep(old(mem), mem, d, lo, a);
        NeededMore(old(mem), d, lo, a + 1, hi);
        NoneUpTo(old(mem), d, lo, a);
        ghost var mem1, own1 := mem, own;
        var m, r := ExtendPage(d, a, lo, old(mem), old(own));
        if m == Remap {
          FoundMapped(old(mem), d, lo, a, hi, old(|chain|));
          return 0, true;
        }
        if m == NoMemory {
          ghost var mem2, own2 := mem, own;
          var _ := DeallocUvm(d, newsz, oldsz);
          if r != 0 {
            DropHeld(mem1, own1, mem2, own2, mem, d, lo, hi, r, JunkPage(freelist));
            Unreferenced(mem, own, r, JunkPage(freelist), Free);
            KFree(r);
          }
          RunOut(old(mem), old(own), mem1, own1, mem, own, d, lo, a, hi, old(|chain|));
          return 0, false;
        }
        TablesMore(old(mem), mem1, mem, d, lo, a);
        a := a + 1;
      }
      PageBelow(a, newsz);
      NoneReached(old(mem), d, lo, hi, old(|chain|));
      return newsz, false;
    }
  }

  /** Two frames for two pages and no page table: the first page and its table are made, there is none for the second,
    and the table stays with the directory. */
  method TableLeftBehind(ram: Frames) returns (m: Memory, d: nat, ghost before: map<nat, Owner>, sz: nat)
    requires forall f :: f in ram <==> PHYSTOP - 67 <= f < PHYSTOP
    ensures m.Valid() && Owns(before, d, Dir) && Owns(m.own, d, Dir) && sz == 0
    ensures (forall f, i :: !(Owns(before, f, Table(d, i)) && i < 512)) && exists f :: Owns(m.own, f, Table(d, 0))
    ensures forall v: nat :: v < KERNEL ==> !Present(Pte(m.mem, d, v))
  {
    m := new Memory(PHYSTOP - 67, PHYSTOP - 68, ram);
    d := m.SetupKvm();
    before := m.own;
    ghost var mem0 := m.mem;
    TwoPages(mem0, before, d, m.data);
    var panicked: bool;
    sz, panicked := m.AllocUvm(d, 0, 2 * PGSIZE);
    TwoPagesFail(mem0, before, m.mem, m.own, d);
  }

  lemma TwoPages(mem: Frames, own: map<nat, Owner>, d: nat, data: nat)
    requires Spaces(mem, own) && KernelBuilt(mem, d, data, 4) && data < PHYSTOP
    ensures RoundUp(0) == 0 && RoundUp(2 * PGSIZE) == 2
    ensures Needed(mem, d, 0, 1) == 2 && Needed(mem, d, 0, 2) == 3
    ensures !Present(Word(mem, d, 0)) && forall v: nat :: v < KERNEL ==> !Present(Pte(mem, d, v))
    ensures forall f, i :: !(Owns(own, f, Table(d, i)) && i < 512)
  {
    assert forall j: nat :: j < 512 ==> !Present(Word(mem, d, j));
    MissingOne(mem, d, 0);
    assert TablesTo(0, 1) == TablesTo(0, 2) == 1;
    forall f, i | Owns(own, f, Table(d, i)) ensures 512 <= i {
      assert FrameOk(mem, own, f, 0, 0);
    }
    forall v: nat | v < KERNEL ensures !Present(Pte(mem, d, v)) {
      assert !Present(Word(mem, d, v / NENTRIES));
    }
  }

  lemma TwoPagesFail(mem0: Frames, own0: map<nat, Owner>, mem: Frames, own: map<nat, Owner>, d: nat)
    requires Spaces(mem0, own0) && Spaces(mem, own) && Owns(own0, d, Dir)
    requires RolledBack(mem0, own0, mem, own, d, 0, 2, 2) && Needed(mem0, d, 0, 1) == 2
    requires !Present(Word(mem0, d, 0)) && forall v: nat :: v < KERNEL ==> !Present(Pte(mem0, d, v))
    ensures Owns(own, d, Dir) && exists f :: Owns(own, f, Table(d, 0))
    ensures forall v: nat :: v < KERNEL ==> !Present(Pte(mem, d, v))
  {
    hide Pte, Word, Needed, Dying, Kept;
    assert Reached(mem0, d, 0, 2, 2, 0) && 0 / NENTRIES == 0;
    assert Present(Word(mem, d, 0));
    TableHere(mem0, own0, mem, own, d, 0, 2, 0);
  }
}
