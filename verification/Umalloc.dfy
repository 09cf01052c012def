/** The allocator of umalloc.c (section 8.7 of The C Programming Language, 2nd ed.).

  Addresses count in units of one Header.  The free list is the cycle of s.ptr links
  through `base`; its abstract value is the sequence of its blocks in address order,
  which begins with base because the heap lies above it.  free() and malloc() are
  proved against operations on that sequence. */
module Umalloc {
  import opened Remainder

  const HEADER: nat := 8

  datatype Block = Block(addr: int, units: nat)

  function End(b: Block): (e: int) {
    b.addr + b.units
  }

  function Next(fl: seq<Block>, i: int): (j: int) {
    if i + 1 < |fl| then i + 1 else 0
  }

  /** The header at the i-th block holds its size and the address of the next one. */
  predicate Node(ptr: map<int, int>, size: map<int, nat>, fl: seq<Block>, i: int)
    requires 0 <= i < |fl|
  {
    var a := fl[i].addr;
    a in ptr && a in size && size[a] == fl[i].units && ptr[a] == fl[Next(fl, i)].addr
  }

  predicate Linked(ptr: map<int, int>, size: map<int, nat>, fl: seq<Block>) {
    forall i :: 0 <= i < |fl| ==> Node(ptr, size, fl, i)
  }

  /** Address order without overlap. */
  predicate Ascending(fl: seq<Block>) {
    forall i, j :: 0 <= i < j < |fl| ==> fl[i].addr < fl[j].addr && End(fl[i]) <= fl[j].addr
  }

  /** No free block ends where the next one begins. */
  predicate Coalesced(fl: seq<Block>) {
    forall i :: 0 <= i < |fl| - 1 ==> Gap(fl, i)
  }

  predicate Gap(fl: seq<Block>, i: int)
    requires 0 <= i < |fl| - 1
  {
    End(fl[i]) < fl[i + 1].addr
  }

  /** The list of an initialised heap: the empty base first, real blocks behind it. */
  predicate FreeList(fl: seq<Block>, base: int) {
    Shape(fl, base) && Ascending(fl) && Coalesced(fl)
  }

  predicate Shape(fl: seq<Block>, base: int) {
    && |fl| > 0 && fl[0] == Block(base, 0)
    && forall i :: 0 < i < |fl| ==> fl[i].units > 0
  }

  predicate InBlock(b: Block, u: int) {
    b.addr <= u < End(b)
  }

  ghost predicate InBlocks(fl: seq<Block>, u: int) {
    exists i :: 0 <= i < |fl| && InBlock(fl[i], u)
  }

  // ---------------------------------------------------------------------------
  // Inserting and merging

  function LinkAfter(fl: seq<Block>, j: int, b: Block): (r: seq<Block>)
    requires 0 <= j < |fl|
    ensures |r| == |fl| + 1
    ensures forall i :: 0 <= i < |r| ==> r[i] == if i <= j then fl[i] else if i == j + 1 then b else fl[i - 1]
  {
    fl[..j + 1] + [b] + fl[j + 1..]
  }

  function MergeAt(fl: seq<Block>, k: int): (r: seq<Block>)
    requires 0 <= k < |fl| - 1
    ensures |r| == |fl| - 1
    ensures forall i :: 0 <= i < |r| ==>
      r[i] == if i < k then fl[i] else if i == k then Block(fl[k].addr, fl[k].units + fl[k + 1].units) else fl[i + 1]
  {
    fl[..k] + [Block(fl[k].addr, fl[k].units + fl[k + 1].units)] + fl[k + 2..]
  }

  predicate Touching(fl: seq<Block>, k: int) {
    0 <= k < |fl| - 1 && End(fl[k]) == fl[k + 1].addr
  }

  /** free(): put b behind the j-th block, merge with the upper and the lower neighbour. */
  function Insert(fl: seq<Block>, j: int, b: Block): (r: seq<Block>)
    requires 0 <= j < |fl|
  {
    var u := Upper(fl, j, b);
    if Touching(u, j) then MergeAt(u, j) else u
  }

  /** The first half of it: linked in and merged with the upper neighbour. */
  function Upper(fl: seq<Block>, j: int, b: Block): (r: seq<Block>)
    requires 0 <= j < |fl|
  {
    var l := LinkAfter(fl, j, b);
    if Touching(l, j + 1) then MergeAt(l, j + 1) else l
  }

  /** The place of b: behind the last block below it. */
  predicate PlaceOf(fl: seq<Block>, j: int, b: Block) {
    0 <= j < |fl| && fl[j].addr < b.addr && (j + 1 < |fl| ==> b.addr < fl[j + 1].addr)
  }

  predicate Disjoint(a: Block, b: Block) {
    End(a) <= b.addr || End(b) <= a.addr
  }

  lemma LinkAscending(fl: seq<Block>, j: int, b: Block)
    requires Ascending(fl) && PlaceOf(fl, j, b) && forall i :: 0 <= i < |fl| ==> Disjoint(fl[i], b)
    requires b.units > 0
    ensures Ascending(LinkAfter(fl, j, b))
  {
    forall i | 0 <= i < |fl|
      ensures if i <= j then fl[i].addr < b.addr && End(fl[i]) <= b.addr
              else b.addr < fl[i].addr && End(b) <= fl[i].addr
    {
      assert Disjoint(fl[i], b);
    }
  }

  lemma MergeAscending(fl: seq<Block>, k: int)
    requires Ascending(fl) && Touching(fl, k)
    ensures Ascending(MergeAt(fl, k))
  {
  }

  lemma LinkCells(fl: seq<Block>, j: int, b: Block, u: int)
    requires 0 <= j < |fl|
    ensures InBlocks(LinkAfter(fl, j, b), u) <==> InBlocks(fl, u) || InBlock(b, u)
  {
    var r := LinkAfter(fl, j, b);
    if i :| 0 <= i < |fl| && InBlock(fl[i], u) {
      assert r[if i <= j then i else i + 1] == fl[i];
    }
    if InBlock(b, u) {
      assert r[j + 1] == b;
    }
    if i :| 0 <= i < |r| && InBlock(r[i], u) {
      assert i == j + 1 || r[i] == fl[if i <= j then i else i - 1];
    }
  }

  lemma MergeCells(fl: seq<Block>, k: int, u: int)
    requires Touching(fl, k)
    ensures InBlocks(MergeAt(fl, k), u) <==> InBlocks(fl, u)
  {
    var r := MergeAt(fl, k);
    if i :| 0 <= i < |fl| && InBlock(fl[i], u) {
      assert InBlock(r[if i <= k then i else i - 1], u);
    }
    if i :| 0 <= i < |r| && InBlock(r[i], u) {
      assert if i < k then r[i] == fl[i] else if i > k then r[i] == fl[i + 1] else true;
      assert i == k ==> InBlock(fl[k], u) || InBlock(fl[k + 1], u);
    }
  }

  /** free() keeps one ordered, coalesced list and adds exactly the units of b. */
  lemma InsertCorrect(fl: seq<Block>, base: int, j: int, b: Block)
    requires FreeList(fl, base) && PlaceOf(fl, j, b) && b.units > 0
    requires forall i :: 0 <= i < |fl| ==> Disjoint(fl[i], b)
    ensures FreeList(Insert(fl, j, b), base)
    ensures forall u :: InBlocks(Insert(fl, j, b), u) <==> InBlocks(fl, u) || InBlock(b, u)
  {
    var l := LinkAfter(fl, j, b);
    LinkAscending(fl, j, b);
    var m := if Touching(l, j + 1) then MergeAt(l, j + 1) else l;
    if Touching(l, j + 1) {
      MergeAscending(l, j + 1);
    }
    var r := Insert(fl, j, b);
    if Touching(m, j) {
      MergeAscending(m, j);
    }
    InsertCoalesced(fl, j, b);
    InsertShape(fl, base, j, b);
    forall u
      ensures InBlocks(r, u) <==> InBlocks(fl, u) || InBlock(b, u)
    {
      LinkCells(fl, j, b, u);
      if Touching(l, j + 1) {
        MergeCells(l, j + 1, u);
      }
      if Touching(m, j) {
        MergeCells(m, j, u);
      }
    }
  }

  /** Merging at k removes the gap k and shifts those behind it. */
  lemma MergeGaps(fl: seq<Block>, k: int)
    requires Touching(fl, k)
    ensures forall i :: 0 <= i < |fl| - 2 ==> (Gap(MergeAt(fl, k), i) <==> Gap(fl, if i < k then i else i + 1))
  {
  }

  lemma LinkGaps(fl: seq<Block>, j: int, b: Block)
    requires Coalesced(fl) && 0 <= j < |fl|
    ensures forall i :: 0 <= i < |fl| && i != j && i != j + 1 ==> Gap(LinkAfter(fl, j, b), i)
  {
    forall i | 0 <= i < |fl| && i != j && i != j + 1
      ensures Gap(LinkAfter(fl, j, b), i)
    {
      assert Gap(fl, if i < j then i else i - 1);
    }
  }

  lemma AscendingGap(fl: seq<Block>, k: int)
    requires Ascending(fl) && 0 <= k < |fl| - 1
    ensures Touching(fl, k) <==> !Gap(fl, k)
  {
  }

  /** After both merges no two neighbours touch. */
  lemma InsertCoalesced(fl: seq<Block>, j: int, b: Block)
    requires Coalesced(fl) && 0 <= j < |fl| && Ascending(LinkAfter(fl, j, b))
    ensures Coalesced(Insert(fl, j, b))
  {
    hide LinkAfter, MergeAt;
    var l := LinkAfter(fl, j, b);
    LinkGaps(fl, j, b);
    AscendingGap(l, j);
    if j + 1 < |fl| {
      AscendingGap(l, j + 1);
    }
    var m := if Touching(l, j + 1) then MergeAt(l, j + 1) else l;
    if Touching(l, j + 1) {
      MergeGaps(l, j + 1);
      MergeAscending(l, j + 1);
    }
    assert forall i :: 0 <= i < |m| - 1 && i != j ==> Gap(m, i);
    AscendingGap(m, j);
    if Touching(m, j) {
      MergeGaps(m, j);
    }
  }

  lemma MergeShape(fl: seq<Block>, base: int, k: int)
    requires Shape(fl, base) && 0 < k < |fl| - 1
    ensures Shape(MergeAt(fl, k), base)
  {
  }

  /** The empty base block is never merged away. */
  lemma InsertShape(fl: seq<Block>, base: int, j: int, b: Block)
    requires Shape(fl, base) && PlaceOf(fl, j, b) && b.units > 0
    ensures Shape(Insert(fl, j, b), base)
  {
    var l := LinkAfter(fl, j, b);
    hide LinkAfter, MergeAt;
    assert l[0] == fl[0] && l[j] == fl[j] && l[j + 1] == b;
    assert Shape(l, base) && l[j + 1].addr == b.addr;
    var m := if Touching(l, j + 1) then MergeAt(l, j + 1) else l;
    if Touching(l, j + 1) {
      MergeShape(l, base, j + 1);
    }
    assert m[j] == fl[j] && m[j + 1].addr == b.addr;
    if Touching(m, j) {
      MergeShape(m, base, j);
    }
  }

  // ---------------------------------------------------------------------------
  // The links

  predicate DistinctAddrs(fl: seq<Block>) {
    forall i, j :: 0 <= i < j < |fl| ==> fl[i].addr != fl[j].addr
  }

  lemma LinkedLink(ptr: map<int, int>, size: map<int, nat>, fl: seq<Block>, j: int, b: Block)
    requires Linked(ptr, size, fl) && DistinctAddrs(fl) && 0 <= j < |fl|
    requires forall i :: 0 <= i < |fl| ==> fl[i].addr != b.addr
    ensures Linked(ptr[b.addr := fl[Next(fl, j)].addr][fl[j].addr := b.addr], size[b.addr := b.units],
                   LinkAfter(fl, j, b))
  {
    var r := LinkAfter(fl, j, b);
    var ptr1, size1 := ptr[b.addr := fl[Next(fl, j)].addr][fl[j].addr := b.addr], size[b.addr := b.units];
    forall i | 0 <= i < |r|
      ensures Node(ptr1, size1, r, i)
    {
      if i <= j {
        assert Node(ptr, size, fl, i);
      } else if i > j + 1 {
        assert Node(ptr, size, fl, i - 1);
      }
    }
  }

  lemma LinkedMerge(ptr: map<int, int>, size: map<int, nat>, fl: seq<Block>, k: int)
    requires Linked(ptr, size, fl) && DistinctAddrs(fl) && 0 <= k < |fl| - 1
    ensures Linked(ptr[fl[k].addr := fl[Next(fl, k + 1)].addr],
                   size[fl[k].addr := fl[k].units + fl[k + 1].units], MergeAt(fl, k))
  {
    var r := MergeAt(fl, k);
    var ptr1 := ptr[fl[k].addr := fl[Next(fl, k + 1)].addr];
    var size1 := size[fl[k].addr := fl[k].units + fl[k + 1].units];
    forall i | 0 <= i < |r|
      ensures Node(ptr1, size1, r, i)
    {
      if i <= k {
        assert Node(ptr, size, fl, i);
      } else {
        assert Node(ptr, size, fl, i + 1);
      }
    }
  }

  /** The pointer writes of free(), in terms of the list: upper neighbour first. */
  function UpperPtr(ptr: map<int, int>, fl: seq<Block>, j: int, b: Block): (r: map<int, int>)
    requires 0 <= j < |fl|
  {
    ptr[b.addr := fl[Next(fl, if MeetsUpper(fl, j, b) then j + 1 else j)].addr]
  }

  function UpperSize(size: map<int, nat>, fl: seq<Block>, j: int, b: Block): (r: map<int, nat>)
    requires 0 <= j < |fl|
  {
    size[b.addr := if MeetsUpper(fl, j, b) then b.units + fl[j + 1].units else b.units]
  }

  predicate MeetsUpper(fl: seq<Block>, j: int, b: Block) {
    0 <= j < |fl| - 1 && End(b) == fl[j + 1].addr
  }

  lemma UpperShape(fl: seq<Block>, j: int, b: Block)
    requires 0 <= j < |fl|
    ensures var m := Upper(fl, j, b);
      && j + 1 < |m| && m[j] == fl[j] && m[j + 1].addr == b.addr
      && m[j + 1].units == (if MeetsUpper(fl, j, b) then b.units + fl[j + 1].units else b.units)
      && m[Next(m, j + 1)].addr == fl[Next(fl, if MeetsUpper(fl, j, b) then j + 1 else j)].addr
      && (DistinctAddrs(LinkAfter(fl, j, b)) ==> DistinctAddrs(m))
  {
    var l := LinkAfter(fl, j, b);
    assert l[j + 1] == b && (j + 1 < |fl| ==> l[j + 2] == fl[j + 1]);
    assert Touching(l, j + 1) <==> MeetsUpper(fl, j, b);
  }

  lemma UpperLinked(ptr: map<int, int>, size: map<int, nat>, fl: seq<Block>, j: int, b: Block)
    requires Linked(ptr, size, fl) && 0 <= j < |fl| && DistinctAddrs(LinkAfter(fl, j, b))
    ensures Linked(UpperPtr(ptr, fl, j, b)[fl[j].addr := b.addr], UpperSize(size, fl, j, b), Upper(fl, j, b))
  {
    hide Linked, DistinctAddrs;
    var l := LinkAfter(fl, j, b);
    assert l[j] == fl[j] && l[j + 1] == b;
    DistinctLink(fl, j, b);
    LinkedLink(ptr, size, fl, j, b);
    UpperShape(fl, j, b);
    if MeetsUpper(fl, j, b) {
      assert l[j + 2] == fl[j + 1];
      var ptr1, size1 := ptr[b.addr := fl[Next(fl, j)].addr][fl[j].addr := b.addr], size[b.addr := b.units];
      LinkedMerge(ptr1, size1, l, j + 1);
      assert ptr1[b.addr := l[Next(l, j + 2)].addr] == UpperPtr(ptr, fl, j, b)[fl[j].addr := b.addr];
      assert size1[b.addr := b.units + fl[j + 1].units] == UpperSize(size, fl, j, b);
    }
  }

  lemma DistinctLink(fl: seq<Block>, j: int, b: Block)
    requires 0 <= j < |fl| && DistinctAddrs(LinkAfter(fl, j, b))
    ensures DistinctAddrs(fl) && forall i :: 0 <= i < |fl| ==> fl[i].addr != b.addr
  {
    var l := LinkAfter(fl, j, b);
    assert forall i :: 0 <= i < |fl| ==> fl[i] == l[if i <= j then i else i + 1];
    assert l[j + 1] == b;
  }

  /** The lower neighbour p absorbs the block behind it or is linked to it. */
  lemma InsertLinked(ptr: map<int, int>, size: map<int, nat>, fl: seq<Block>, j: int, b: Block)
    requires Linked(ptr, size, fl) && 0 <= j < |fl| && DistinctAddrs(LinkAfter(fl, j, b))
    ensures var ptr1, size1 := UpperPtr(ptr, fl, j, b), UpperSize(size, fl, j, b);
      var p := fl[j].addr;
      if End(fl[j]) == b.addr
      then Linked(ptr1[p := ptr1[b.addr]], size1[p := fl[j].units + size1[b.addr]], Insert(fl, j, b))
      else Linked(ptr1[p := b.addr], size1, Insert(fl, j, b))
  {
    UpperLinked(ptr, size, fl, j, b);
    UpperShape(fl, j, b);
    DistinctLink(fl, j, b);
    var m := Upper(fl, j, b);
    var ptr1, size1, p := UpperPtr(ptr, fl, j, b), UpperSize(size, fl, j, b), fl[j].addr;
    assert Touching(m, j) <==> End(fl[j]) == b.addr;
    if Touching(m, j) {
      LinkedMerge(ptr1[p := b.addr], size1, m, j);
      assert ptr1[p := b.addr][p := m[Next(m, j + 1)].addr] == ptr1[p := ptr1[b.addr]];
    }
  }

  // ---------------------------------------------------------------------------
  // Taking blocks

  /** malloc(): all of the k-th block, or n units from its end. */
  function Take(fl: seq<Block>, k: int, n: nat): (r: seq<Block>)
    requires 0 < k < |fl| && n <= fl[k].units
    ensures |r| == if fl[k].units == n then |fl| - 1 else |fl|
    ensures forall i :: 0 <= i < |r| ==>
      r[i] == if fl[k].units == n then fl[if i < k then i else i + 1]
              else if i == k then Block(fl[k].addr, fl[k].units - n) else fl[i]
  {
    if fl[k].units == n then fl[..k] + fl[k + 1..] else fl[k := Block(fl[k].addr, fl[k].units - n)]
  }

  function Taken(fl: seq<Block>, k: int, n: nat): (b: Block)
    requires 0 < k < |fl| && n <= fl[k].units
    ensures b.units == n && fl[k].addr <= b.addr && End(b) == End(fl[k])
  {
    Block(End(fl[k]) - n, n)
  }

  lemma TakeShape(fl: seq<Block>, base: int, k: int, n: nat)
    requires Shape(fl, base) && Ascending(fl) && 0 < k < |fl| && 0 < n <= fl[k].units
    ensures Shape(Take(fl, k, n), base) && Ascending(Take(fl, k, n))
  {
    var r := Take(fl, k, n);
    if fl[k].units == n {
      assert forall i :: 0 <= i < |r| ==> r[i] == fl[if i < k then i else i + 1];
    } else {
      assert forall i :: 0 <= i < |r| ==> r[i].addr == fl[i].addr && End(r[i]) <= End(fl[i]);
    }
  }

  lemma TakeDisjoint(fl: seq<Block>, k: int, n: nat)
    requires Ascending(fl) && 0 < k < |fl| && 0 < n <= fl[k].units
    ensures forall i :: 0 <= i < |Take(fl, k, n)| ==> Disjoint(Take(fl, k, n)[i], Taken(fl, k, n))
  {
    var r, b := Take(fl, k, n), Taken(fl, k, n);
    forall i | 0 <= i < |r|
      ensures Disjoint(r[i], b)
    {
      if fl[k].units == n {
        var x := if i < k then i else i + 1;
        assert r[i] == fl[x] && b == fl[k];
        assert x < k || k < x;
      }
    }
  }

  lemma TakeCells(fl: seq<Block>, k: int, n: nat, u: int)
    requires 0 < k < |fl| && 0 < n <= fl[k].units
    ensures InBlocks(fl, u) <==> InBlocks(Take(fl, k, n), u) || InBlock(Taken(fl, k, n), u)
  {
    var r, b, whole := Take(fl, k, n), Taken(fl, k, n), fl[k].units == n;
    if i :| 0 <= i < |fl| && InBlock(fl[i], u) {
      if i != k {
        assert r[if whole && i > k then i - 1 else i] == fl[i];
      } else if !whole && !InBlock(b, u) {
        assert InBlock(r[k], u);
      }
    }
    if i :| 0 <= i < |r| && InBlock(r[i], u) {
      assert InBlock(fl[if whole && i >= k then i + 1 else i], u);
    }
    assert InBlock(b, u) ==> InBlock(fl[k], u);
  }

  /** malloc() keeps the list well-formed and removes exactly the units it returns. */
  lemma TakeCorrect(fl: seq<Block>, base: int, k: int, n: nat)
    requires FreeList(fl, base) && 0 < k < |fl| && 0 < n <= fl[k].units
    ensures FreeList(Take(fl, k, n), base)
    ensures forall i :: 0 <= i < |Take(fl, k, n)| ==> Disjoint(Take(fl, k, n)[i], Taken(fl, k, n))
    ensures forall u :: InBlocks(fl, u) <==> InBlocks(Take(fl, k, n), u) || InBlock(Taken(fl, k, n), u)
  {
    hide Take, Taken;
    TakeShape(fl, base, k, n);
    TakeGaps(fl, base, k, n);
    TakeDisjoint(fl, k, n);
    forall u
      ensures InBlocks(fl, u) <==> InBlocks(Take(fl, k, n), u) || InBlock(Taken(fl, k, n), u)
    {
      TakeCells(fl, k, n, u);
    }
  }

  lemma TakeGaps(fl: seq<Block>, base: int, k: int, n: nat)
    requires FreeList(fl, base) && 0 < k < |fl| && 0 < n <= fl[k].units
    ensures Coalesced(Take(fl, k, n))
  {
    var r := Take(fl, k, n);
    forall i | 0 <= i < |r| - 1
      ensures Gap(r, i)
    {
      if |r| == |fl| {
        assert Gap(fl, i);
      } else {
        assert r[i] == fl[if i < k then i else i + 1] && r[i + 1] == fl[if i + 1 < k then i + 1 else i + 2];
        assert Gap(fl, if i < k then i else i + 1);
      }
    }
  }

  lemma TakeAllLinked(ptr: map<int, int>, size: map<int, nat>, fl: seq<Block>, k: int)
    requires DistinctAddrs(fl) && Linked(ptr, size, fl) && 0 < k < |fl|
    ensures Linked(ptr[fl[k - 1].addr := fl[Next(fl, k)].addr], size, Take(fl, k, fl[k].units))
  {
    var r := Take(fl, k, fl[k].units);
    var ptr1 := ptr[fl[k - 1].addr := fl[Next(fl, k)].addr];
    forall i | 0 <= i < |r|
      ensures Node(ptr1, size, r, i)
    {
      var x := if i < k then i else i + 1;
      assert r[i] == fl[x] && Node(ptr, size, fl, x);
      assert r[Next(r, i)] == if i == k - 1 then fl[Next(fl, k)] else fl[Next(fl, x)];
    }
  }

  lemma TakeSomeLinked(ptr: map<int, int>, size: map<int, nat>, fl: seq<Block>, k: int, n: nat)
    requires Ascending(fl) && Linked(ptr, size, fl) && 0 < k < |fl| && 0 < n < fl[k].units
    ensures Linked(ptr, size[fl[k].addr := fl[k].units - n][Taken(fl, k, n).addr := n], Take(fl, k, n))
  {
    var r, b := Take(fl, k, n), Taken(fl, k, n);
    var size1 := size[fl[k].addr := fl[k].units - n][b.addr := n];
    forall i | 0 <= i < |r|
      ensures Node(ptr, size1, r, i)
    {
      assert Node(ptr, size, fl, i);
      assert r[i].addr == fl[i].addr && r[Next(r, i)].addr == fl[Next(fl, i)].addr;
      assert fl[i].addr != b.addr && (i != k ==> fl[i].addr != fl[k].addr);
    }
  }

  // ---------------------------------------------------------------------------
  // The heap

  ghost predicate InLive(live: map<int, nat>, u: int) {
    exists b :: b in live && b <= u < b + live[b]
  }

  /** Live blocks carry their size and overlap neither each other nor free blocks. */
  ghost predicate LiveOk(size: map<int, nat>, fl: seq<Block>, live: map<int, nat>, base: int) {
    && (forall b :: b in live ==> b in size && size[b] == live[b] && live[b] > 0 && base < b)
    && (forall b, c :: b in live && c in live && b != c ==> Disjoint(Block(b, live[b]), Block(c, live[c])))
    && (forall b, i :: b in live && 0 <= i < |fl| ==> Disjoint(fl[i], Block(b, live[b])))
  }

  /** Every unit obtained from sbrk is in a free or a live block, and no other is. */
  ghost predicate Accounted(fl: seq<Block>, live: map<int, nat>, arena: set<int>) {
    forall u :: u in arena <==> InBlocks(fl, u) || InLive(live, u)
  }

  ghost predicate Points(fl: seq<Block>, p: int, i: int) {
    0 <= i < |fl| && fl[i].addr == p
  }

  /** free() inserted b behind the j-th block and left freep there. */
  ghost predicate FreedAt(before: seq<Block>, after: seq<Block>, p: int, b: Block, j: int) {
    PlaceOf(before, j, b) && after == Insert(before, j, b) && p == before[j].addr
  }

  class Heap {
    /** The address of the static header. */
    const base: int
    /** The fields s.ptr and s.size of every header, by address. */
    var ptr: map<int, int>
    var size: map<int, nat>
    /** 0 before the first malloc. */
    var freep: int
    /** The free list in address order, the blocks handed out, the units from sbrk. */
    ghost var fl: seq<Block>
    ghost var live: map<int, nat>
    ghost var arena: set<int>

    ghost predicate Valid()
      reads this
    {
      && 0 < base
      && (freep == 0 ==> fl == [] && live == map[] && arena == {})
      && (freep != 0 ==> Ready())
    }

    ghost predicate Ready()
      reads this
    {
      && FreeList(fl, base) && Linked(ptr, size, fl)
      && (exists i :: Points(fl, freep, i))
      && LiveOk(size, fl, live, base)
      && Accounted(fl, live, arena)
    }

    constructor (b: int)
      requires 0 < b
      ensures Valid() && freep == 0 && base == b && live == map[] && arena == {}
    {
      base := b;
      ptr, size, freep := map[], map[], 0;
      fl, live, arena := [], map[], {};
    }

    /** The search loop of free(): from freep round the cycle to the place of bp. */
    method Search(bp: int) returns (p: int, ghost j: int)
      requires FreeList(fl, base) && Linked(ptr, size, fl) && (exists i :: Points(fl, freep, i))
      requires base < bp && forall i :: 0 <= i < |fl| ==> fl[i].addr != bp
      ensures PlaceOf(fl, j, Block(bp, 0)) && p == fl[j].addr
    {
      ghost var place := FindPlace(fl, base, bp);
      ghost var i :| Points(fl, freep, i);
      p := freep;
      while true
        invariant Points(fl, p, i)
        decreases if i <= place then place - i else place - i + |fl|
      {
        assert Node(ptr, size, fl, i);
        if bp > p && bp < ptr[p] {
          break;
        }
        if p >= ptr[p] && (bp > p || bp < ptr[p]) {
          break;
        }
        p := ptr[p];
        i := Next(fl, i);
      }
      j := i;
    }

    /** free(): the block goes back to the list, merged with its neighbours. */
    method Free(ap: int) returns (ghost j: int)
      requires Valid() && ap - 1 in live
      modifies this
      ensures Valid() && freep != 0
      ensures live == old(live) - {ap - 1} && arena == old(arena)
      ensures FreedAt(old(fl), fl, freep, Block(ap - 1, old(live)[ap - 1]), j)
    {
      hide Linked, FreeList, LiveOk, Accounted, Insert;
      var bp := ap - 1;
      ghost var b := Block(bp, live[bp]);
      LiveApart(size, fl, live, base, bp);
      var p: int;
      p, j := Search(bp);
      ghost var ptr0, size0 := ptr, size;
      FreeReads(ptr, size, fl, live, base, j, bp);
      if bp + size[bp] == ptr[p] {
        size := size[bp := size[bp] + size[ptr[p]]];
        ptr := ptr[bp := ptr[ptr[p]]];
      } else {
        ptr := ptr[bp := ptr[p]];
      }
      assert ptr == UpperPtr(ptr0, fl, j, b) && size == UpperSize(size0, fl, j, b);
      if p + size[p] == bp {
        size := size[p := size[p] + size[bp]];
        ptr := ptr[p := ptr[bp]];
      } else {
        ptr := ptr[p := bp];
      }
      freep := p;
      hide UpperPtr, UpperSize;
      FreeProof(ptr0, size0, fl, live, arena, base, j, bp, ptr, size);
      fl := Insert(fl, j, b);
      live := live - {bp};
      assert Points(fl, freep, j);
    }

    /** morecore(): sbrk's answer, -1 or the address of fresh memory, is given. */
    method MoreCore(nu: nat, sbrk: int) returns (r: int, ghost m: int)
      requires Valid() && freep != 0
      requires sbrk == -1 || Fresh(arena, base, sbrk, Request(nu))
      modifies this
      ensures Valid() && freep != 0 && live == old(live)
      ensures r == if sbrk == -1 then 0 else freep
      ensures sbrk == -1 ==> fl == old(fl) && arena == old(arena) && freep == old(freep)
      ensures sbrk != -1 ==> arena == old(arena) + Units(sbrk, Request(nu))
      ensures sbrk != -1 ==> MoreCored(old(fl), fl, Block(sbrk, Request(nu)), m) && Points(fl, freep, m)
    {
      hide Linked, FreeList, LiveOk, Accounted, Insert, Units;
      m := 0;
      var n := nu;
      if n < 4096 {
        n := 4096;
      }
      if sbrk == -1 {
        return 0, m;
      }
      GrowProof(ptr, size, fl, live, arena, base, sbrk, n);
      size := size[sbrk := n];
      live := live[sbrk := n];
      arena := arena + Units(sbrk, n);
      m := Free(sbrk + 1);
      assert live == old(live);
      InsertFits(old(fl), m, Block(sbrk, n));
      r := freep;
    }

    /** The two ways malloc() takes nunits from the block p behind prevp. */
    method Carve(prevp: int, p: int, nunits: nat, ghost k: int) returns (ap: int)
      requires Valid() && freep != 0 && 0 < k < |fl| && 0 < nunits <= fl[k].units
      requires Points(fl, p, k) && Points(fl, prevp, k - 1)
      modifies this
      ensures Valid() && freep == prevp && freep != 0 && ap != 0
      ensures fl == Take(old(fl), k, nunits) && ap == Taken(old(fl), k, nunits).addr + 1
      ensures ap - 1 !in old(live) && live == old(live)[ap - 1 := nunits] && arena == old(arena)
    {
      hide FreeList, Linked, Node, LiveOk, Accounted, Take, Taken;
      var q := p;
      ghost var fl0, size0 := fl, size;
      CarveReads(ptr, size, fl, base, k, nunits);
      if size[q] == nunits {
        ptr := ptr[prevp := ptr[q]];
      } else {
        size := size[q := size[q] - nunits];
        q := q + size[q];
        size := size[q := nunits];
      }
      freep := prevp;
      CarveProof(size0, size, fl0, live, arena, base, k, nunits);
      CarvePlace(fl0, base, k, nunits);
      fl := Take(fl0, k, nunits);
      live := live[q := nunits];
      assert Points(fl, freep, k - 1);
      ap := q + 1;
    }

    /** The first call of malloc() makes base the whole list. */
    method Setup()
      requires Valid()
      modifies this
      ensures Valid() && freep != 0 && live == old(live) && arena == old(arena)
      ensures if old(freep) == 0 then fl == [Block(base, 0)] && freep == base
              else fl == old(fl) && freep == old(freep)
    {
      if freep == 0 {
        ptr := ptr[base := base];
        size := size[base := 0];
        freep := base;
        fl := [Block(base, 0)];
        assert Points(fl, freep, 0);
      }
    }

    /** malloc().  The search starts behind the place m of freep and takes the block at
      place k of the list `from`: the list at the call or, when nothing in it was
      large enough and memory was added, the one morecore left. */
    method Malloc(nbytes: nat, sbrk: int)
      returns (ap: int, ghost from: seq<Block>, ghost m: int, ghost k: int, ghost grown: bool)
      requires Valid() && nbytes < WRAP
      requires sbrk == -1 || Fresh(arena, base, sbrk, Request(NUnits(nbytes)))
      modifies this
      ensures Valid() && freep != 0
      ensures !grown ==> from == Initial(old(fl), base) && arena == old(arena)
      ensures !grown ==> Points(from, if old(freep) == 0 then base else old(freep), m)
      ensures grown ==> sbrk != -1 && arena == old(arena) + Units(sbrk, Request(NUnits(nbytes)))
      ensures grown ==> NoFit(Initial(old(fl), base), NUnits(nbytes))
      ensures grown ==> MoreCored(Initial(old(fl), base), from, Block(sbrk, Request(NUnits(nbytes))), m)
      ensures ap == 0 ==> !grown && sbrk == -1 && NoFit(from, NUnits(nbytes))
      ensures ap == 0 ==> fl == from && live == old(live) && Points(fl, freep, m)
      ensures ap != 0 ==> FirstFit(from, m, k, NUnits(nbytes)) && fl == Take(from, k, NUnits(nbytes))
      ensures ap != 0 ==> ap == Taken(from, k, NUnits(nbytes)).addr + 1 && freep == from[k - 1].addr
      ensures ap != 0 ==> ap - 1 !in old(live) && live == old(live)[ap - 1 := NUnits(nbytes)]
    {
      hide FreeList, Linked, LiveOk, Accounted, Take, Taken, Units, MoreCored, NoFit, FirstFit, Scan, Points;
      var nunits := (nbytes + HEADER - 1) % WRAP / HEADER + 1;
      Setup();
      grown := false;
      from := fl;
      m :| Points(fl, freep, m);
      k := m;
      var prevp := freep;
      ScanStart(ptr, size, fl, base, freep, m, nunits);
      var p := ptr[prevp];
      k := Next(fl, k);
      while true
        invariant Valid() && freep != 0 && live == old(live) && fl == from
        invariant Scan(fl, freep, m, prevp, p, k, nunits)
        invariant !grown ==> fl == Initial(old(fl), base) && arena == old(arena)
        invariant !grown ==> freep == if old(freep) == 0 then base else old(freep)
        invariant Points(from, freep, m)
        invariant grown ==> sbrk != -1 && arena == old(arena) + Units(sbrk, Request(nunits))
        invariant grown ==> NoFit(Initial(old(fl), base), nunits)
        invariant grown ==> MoreCored(Initial(old(fl), base), from, Block(sbrk, Request(nunits)), m)
        decreases !grown, Ahead(k, m, |fl|)
      {
        ScanReads(ptr, size, fl, base, freep, m, prevp, p, k, nunits);
        if size[p] >= nunits {
          ap := Carve(prevp, p, nunits, k);
          return;
        }
        if p == freep {
          NotGrown(Initial(old(fl), base), from, grown, sbrk, nunits, m);
          p, k := MoreCore(nunits, sbrk);
          if p == 0 {
            return 0, from, m, k, grown;
          }
          grown := true;
          from, m := fl, k;
          ScanStart(ptr, size, fl, base, freep, m, nunits);
        }
        prevp := p;
        p := ptr[p];
        k := Next(fl, k);
      }
    }
  }

  /** The state of the search: p at place k follows prevp, and the blocks passed since
    freep at place m are too small. */
  ghost predicate Scan(fl: seq<Block>, freep: int, m: int, prevp: int, p: int, k: int, n: nat) {
    && Points(fl, freep, m) && Points(fl, p, k)
    && (exists i :: Points(fl, prevp, i) && k == Next(fl, i))
    && forall x :: 0 <= x < |fl| && Passed(m, x, k) ==> fl[x].units < n
  }

  lemma ScanStart(ptr: map<int, int>, size: map<int, nat>, fl: seq<Block>, base: int, freep: int, m: int, n: nat)
    requires FreeList(fl, base) && Linked(ptr, size, fl) && Points(fl, freep, m)
    ensures 0 <= m < |fl| && freep in ptr && Scan(fl, freep, m, freep, ptr[freep], Next(fl, m), n)
  {
    FollowLink(ptr, size, fl, base, m);
  }

  /** What the body of the search loop finds and where it gets to. */
  lemma ScanReads(ptr: map<int, int>, size: map<int, nat>, fl: seq<Block>, base: int,
                  freep: int, m: int, prevp: int, p: int, k: int, n: nat)
    requires FreeList(fl, base) && Linked(ptr, size, fl) && Scan(fl, freep, m, prevp, p, k, n) && 0 < n
    ensures p in ptr && p in size && 0 <= m < |fl| && 0 <= k < |fl|
    ensures size[p] >= n ==> Points(fl, p, k) && 0 < k && n <= fl[k].units && Points(fl, prevp, k - 1)
    ensures size[p] >= n ==> FirstFit(fl, m, k, n) && fl[k - 1].addr == prevp
    ensures size[p] < n && p == freep ==> NoFit(fl, n)
    ensures size[p] < n && p != freep ==> Scan(fl, freep, m, p, ptr[p], Next(fl, k), n)
    ensures p != freep ==> 0 <= Ahead(Next(fl, k), m, |fl|) < Ahead(k, m, |fl|)
  {
    FollowLink(ptr, size, fl, base, k);
    var i :| Points(fl, prevp, i) && k == Next(fl, i);
    if p == freep {
      SameBlock(fl, base, p, k, m);
    } else {
      assert k != m;
      assert forall x :: 0 <= x < |fl| && Passed(m, x, Next(fl, k)) ==> x == k || Passed(m, x, k);
    }
  }

  /** What following the link of a block on the list leads to. */
  lemma FollowLink(ptr: map<int, int>, size: map<int, nat>, fl: seq<Block>, base: int, i: int)
    requires FreeList(fl, base) && Linked(ptr, size, fl) && 0 <= i < |fl|
    ensures fl[i].addr in ptr && fl[i].addr in size && size[fl[i].addr] == fl[i].units
    ensures Points(fl, ptr[fl[i].addr], Next(fl, i))
    ensures fl[i].units > 0 ==> i > 0
  {
    assert Node(ptr, size, fl, i);
  }

  lemma SameBlock(fl: seq<Block>, base: int, p: int, k: int, m: int)
    requires FreeList(fl, base) && Points(fl, p, k) && Points(fl, p, m)
    ensures k == m
  {
  }

  /** morecore() entered b behind place m, where freep is now. */
  ghost predicate MoreCored(before: seq<Block>, after: seq<Block>, b: Block, m: int) {
    && FreedAt(before, after, if 0 <= m < |before| then before[m].addr else 0, b, m)
    && 0 <= m < |after| && (after[m].units >= b.units || after[Next(after, m)].units >= b.units)
  }

  /** After morecore() the search finds a block, at the latest at freep. */
  lemma NotGrown(before: seq<Block>, after: seq<Block>, grown: bool, sbrk: int, n: nat, m: int)
    requires grown ==> MoreCored(before, after, Block(sbrk, Request(n)), m)
    requires NoFit(after, n)
    ensures !grown
  {
  }

  /** The units for nbytes and a header, as line 69 computes them in 32 bits. */
  function NUnits(nbytes: nat): (n: nat)
    ensures n > 0
  {
    (nbytes + HEADER - 1) % WRAP / HEADER + 1
  }

  /** The units behind the header hold nbytes unless the sum of line 69 wraps to 0, and the bytes morecore asks
    of sbrk are those of the block it enters unless the product of line 54 does. */
  lemma RoomForRequest(nbytes: nat)
    requires nbytes < WRAP
    ensures HEADER * (NUnits(nbytes) - 1) >= nbytes <==> nbytes <= WRAP - HEADER
    ensures HEADER * Request(NUnits(nbytes)) % WRAP == HEADER * Request(NUnits(nbytes))
            <==> nbytes <= WRAP - 2 * HEADER || nbytes > WRAP - HEADER
    ensures nbytes <= WRAP - HEADER ==> HEADER * (NUnits(nbytes) - 2) < nbytes
  {
    var sum := nbytes + HEADER - 1;
    if nbytes <= WRAP - HEADER {
      assert sum % WRAP == sum;
    } else {
      assert sum % WRAP == sum - WRAP;
    }
  }

  /** The list a search starts on: base alone before the first call. */
  function Initial(fl: seq<Block>, base: int): (r: seq<Block>) {
    if fl == [] then [Block(base, 0)] else fl
  }

  predicate NoFit(fl: seq<Block>, n: nat) {
    forall x :: 0 <= x < |fl| ==> fl[x].units < n
  }

  /** Going round the list from behind m, x is reached before k. */
  predicate Passed(m: int, x: int, k: int) {
    if m < k then m < x < k else x > m || x < k
  }

  function Ahead(k: int, m: int, n: nat): (d: int) {
    if k <= m then m - k else m - k + n
  }

  /** k is the first block with n units when the search starts behind m. */
  predicate FirstFit(fl: seq<Block>, m: int, k: int, n: nat) {
    && 0 < k < |fl| && 0 <= m < |fl| && n <= fl[k].units
    && forall x :: 0 <= x < |fl| && Passed(m, x, k) ==> fl[x].units < n
  }

  /** What the two branches of malloc() find in the headers, and what their stores make of the list. */
  lemma CarveReads(ptr: map<int, int>, size: map<int, nat>, fl: seq<Block>, base: int, k: int, n: nat)
    requires FreeList(fl, base) && Linked(ptr, size, fl) && 0 < k < |fl| && 0 < n <= fl[k].units
    ensures var p, b := fl[k].addr, Taken(fl, k, n).addr;
      && p in ptr && p in size && size[p] == fl[k].units
      && (size[p] == n ==> b == p && Linked(ptr[fl[k - 1].addr := ptr[p]], size, Take(fl, k, n)))
      && (size[p] != n ==>
            b == p + size[p] - n && b != p && Linked(ptr, size[p := size[p] - n][b := n], Take(fl, k, n)))
  {
    assert Node(ptr, size, fl, k);
    if fl[k].units == n {
      TakeAllLinked(ptr, size, fl, k);
    } else {
      TakeSomeLinked(ptr, size, fl, k, n);
    }
  }

  lemma CarvePlace(fl: seq<Block>, base: int, k: int, n: nat)
    requires FreeList(fl, base) && 0 < k < |fl| && 0 < n <= fl[k].units
    ensures Points(Take(fl, k, n), fl[k - 1].addr, k - 1)
  {
  }

  /** What malloc() leaves behind is a valid heap again. */
  lemma CarveProof(size: map<int, nat>, size': map<int, nat>, fl: seq<Block>, live: map<int, nat>, arena: set<int>,
                   base: int, k: int, n: nat)
    requires FreeList(fl, base) && LiveOk(size, fl, live, base) && Accounted(fl, live, arena)
    requires 0 < k < |fl| && 0 < n <= fl[k].units
    requires Taken(fl, k, n).addr in size' && size'[Taken(fl, k, n).addr] == n
    requires forall c :: c in size && c != Taken(fl, k, n).addr && c != fl[k].addr ==> c in size' && size'[c] == size[c]
    ensures FreeList(Take(fl, k, n), base)
    ensures var b := Taken(fl, k, n).addr;
      && b !in live && base < b && base <= fl[k - 1].addr
      && LiveOk(size', Take(fl, k, n), live[b := n], base)
      && Accounted(Take(fl, k, n), live[b := n], arena)
  {
    hide FreeList, Accounted, Take, Taken, InBlocks, InLive;
    var r, b := Take(fl, k, n), Taken(fl, k, n);
    TakeCorrect(fl, base, k, n);
    TakenInside(fl, base, k, n);
    forall c | c in live
      ensures c != b.addr && c != fl[k].addr && Disjoint(Block(c, live[c]), b)
    {
      assert Disjoint(fl[k], Block(c, live[c]));
    }
    forall c, i | c in live && 0 <= i < |r|
      ensures Disjoint(r[i], Block(c, live[c]))
    {
      StillApart(size, fl, r, live, base, c, i);
    }
    CarveAccounted(fl, r, b, live, arena);
  }

  lemma TakenInside(fl: seq<Block>, base: int, k: int, n: nat)
    requires FreeList(fl, base) && 0 < k < |fl| && 0 < n <= fl[k].units
    ensures var b := Taken(fl, k, n);
      && base <= fl[k - 1].addr && base < fl[k].addr <= b.addr && b.units == n
      && b.addr + n <= fl[k].addr + fl[k].units
  {
  }

  lemma CarveAccounted(fl: seq<Block>, r: seq<Block>, b: Block, live: map<int, nat>, arena: set<int>)
    requires Accounted(fl, live, arena) && b.addr !in live
    requires forall u :: InBlocks(fl, u) <==> InBlocks(r, u) || InBlock(b, u)
    ensures Accounted(r, live[b.addr := b.units], arena)
  {
    hide InBlocks, InLive;
    var more := live[b.addr := b.units];
    forall u
      ensures InLive(more, u) <==> InLive(live, u) || InBlock(b, u)
    {
      LiveMore(live, b.addr, b.units, u);
    }
  }

  lemma LiveMore(live: map<int, nat>, a: int, n: nat, u: int)
    requires a !in live
    ensures InLive(live[a := n], u) <==> InLive(live, u) || InBlock(Block(a, n), u)
  {
    var more := live[a := n];
    if c :| c in more && c <= u < c + more[c] {
      assert c == a || (c in live && live[c] == more[c]);
    }
    if c :| c in live && c <= u < c + live[c] {
      assert c in more && more[c] == live[c];
    }
    if InBlock(Block(a, n), u) {
      assert a in more && more[a] == n;
    }
  }

  lemma StillApart(size: map<int, nat>, fl: seq<Block>, r: seq<Block>, live: map<int, nat>, base: int, c: int, i: int)
    requires FreeList(r, base) && LiveOk(size, fl, live, base) && c in live && 0 <= i < |r|
    requires forall u :: InBlocks(r, u) ==> InBlocks(fl, u)
    ensures Disjoint(r[i], Block(c, live[c]))
  {
    if i > 0 {
      forall u | InBlock(r[i], u)
        ensures !InBlock(Block(c, live[c]), u)
      {
        assert InBlocks(r, u);
        var x :| 0 <= x < |fl| && InBlock(fl[x], u);
        assert Disjoint(fl[x], Block(c, live[c]));
      }
      NoCommonUnit(r[i], Block(c, live[c]));
    }
  }

  lemma InsertFits(fl: seq<Block>, m: int, b: Block)
    requires 0 <= m < |fl|
    ensures var r := Insert(fl, m, b);
      Points(r, fl[m].addr, m) && (r[m].units >= b.units || r[Next(r, m)].units >= b.units)
  {
    InsertPlace(fl, m, b);
    UpperShape(fl, m, b);
  }

  /** The number of units morecore asks for. */
  function Request(nu: nat): (n: nat) {
    if nu < 4096 then 4096 else nu
  }

  function Units(a: int, n: nat): (s: set<int>) {
    set u | a <= u < a + n && InBlock(Block(a, n), u)
  }

  /** Memory above base that the heap did not have before. */
  predicate Fresh(arena: set<int>, base: int, a: int, n: nat) {
    base < a && forall u :: a <= u < a + n ==> u !in arena
  }

  /** Fresh memory can be entered as a live block, for free() to take over. */
  lemma GrowProof(ptr: map<int, int>, size: map<int, nat>, fl: seq<Block>, live: map<int, nat>, arena: set<int>,
                  base: int, a: int, n: nat)
    requires FreeList(fl, base) && Linked(ptr, size, fl) && LiveOk(size, fl, live, base) && Accounted(fl, live, arena)
    requires n > 0 && Fresh(arena, base, a, n)
    ensures a !in live && Linked(ptr, size[a := n], fl)
    ensures LiveOk(size[a := n], fl, live[a := n], base)
    ensures Accounted(fl, live[a := n], arena + Units(a, n))
  {
    var b := Block(a, n);
    forall i | 0 <= i < |fl|
      ensures Disjoint(fl[i], b) && fl[i].addr != a
    {
      if i > 0 {
        forall u | InBlock(fl[i], u)
          ensures !InBlock(b, u)
        {
          assert InBlocks(fl, u);
        }
        NoCommonUnit(fl[i], b);
      }
    }
    forall c | c in live
      ensures c != a && Disjoint(Block(c, live[c]), b)
    {
      forall u | InBlock(Block(c, live[c]), u)
        ensures !InBlock(b, u)
      {
        assert InLive(live, u);
      }
      NoCommonUnit(Block(c, live[c]), b);
    }
    GrowLinked(ptr, size, fl, a, n);
    GrowAccounted(fl, live, arena, a, n);
  }

  lemma GrowLinked(ptr: map<int, int>, size: map<int, nat>, fl: seq<Block>, a: int, n: nat)
    requires Linked(ptr, size, fl) && forall i :: 0 <= i < |fl| ==> fl[i].addr != a
    ensures Linked(ptr, size[a := n], fl)
  {
    var size1 := size[a := n];
    forall i | 0 <= i < |fl|
      ensures Node(ptr, size1, fl, i)
    {
      assert Node(ptr, size, fl, i);
    }
  }

  lemma GrowAccounted(fl: seq<Block>, live: map<int, nat>, arena: set<int>, a: int, n: nat)
    requires Accounted(fl, live, arena) && a !in live
    ensures Accounted(fl, live[a := n], arena + Units(a, n))
  {
    var more := live[a := n];
    forall u
      ensures InLive(more, u) <==> InLive(live, u) || InBlock(Block(a, n), u)
    {
      LiveMore(live, a, n, u);
    }
  }

  /** What free() finds in the headers at the place of bp. */
  lemma FreeReads(ptr: map<int, int>, size: map<int, nat>, fl: seq<Block>, live: map<int, nat>, base: int, j: int,
                  bp: int)
    requires 0 < base && FreeList(fl, base) && Linked(ptr, size, fl) && LiveOk(size, fl, live, base)
    requires bp in live && PlaceOf(fl, j, Block(bp, 0))
    ensures var p, b := fl[j].addr, Block(bp, live[bp]);
      && 0 < base <= p && p in ptr && p in size && bp in size && p != bp
      && size[bp] == live[bp] && size[p] == fl[j].units && ptr[p] == fl[Next(fl, j)].addr
      && (MeetsUpper(fl, j, b) <==> bp + size[bp] == ptr[p])
      && (MeetsUpper(fl, j, b) ==>
            (&& ptr[p] in ptr && ptr[p] in size && ptr[p] != bp
             && size[ptr[p]] == fl[j + 1].units && ptr[ptr[p]] == fl[Next(fl, j + 1)].addr))
  {
    assert Node(ptr, size, fl, j);
    assert j + 1 < |fl| ==> Node(ptr, size, fl, j + 1);
  }

  lemma InsertPlace(fl: seq<Block>, j: int, b: Block)
    requires 0 <= j < |fl|
    ensures Points(Insert(fl, j, b), fl[j].addr, j)
  {
    UpperShape(fl, j, b);
  }

  lemma LiveApart(size: map<int, nat>, fl: seq<Block>, live: map<int, nat>, base: int, bp: int)
    requires FreeList(fl, base) && LiveOk(size, fl, live, base) && bp in live
    ensures live[bp] > 0 && base < bp
    ensures forall i :: 0 <= i < |fl| ==> fl[i].addr != bp && Disjoint(fl[i], Block(bp, live[bp]))
  {
  }

  /** What free() leaves behind is a valid heap again. */
  lemma FreeProof(ptr: map<int, int>, size: map<int, nat>, fl: seq<Block>, live: map<int, nat>, arena: set<int>,
                  base: int, j: int, bp: int, ptr': map<int, int>, size': map<int, nat>)
    requires FreeList(fl, base) && Linked(ptr, size, fl) && LiveOk(size, fl, live, base) && Accounted(fl, live, arena)
    requires bp in live && PlaceOf(fl, j, Block(bp, 0))
    requires var b := Block(bp, live[bp]);
      var ptr1, size1, p := UpperPtr(ptr, fl, j, b), UpperSize(size, fl, j, b), fl[j].addr;
      if End(fl[j]) == bp then ptr' == ptr1[p := ptr1[bp]] && size' == size1[p := fl[j].units + size1[bp]]
      else ptr' == ptr1[p := bp] && size' == size1
    ensures var r := Insert(fl, j, Block(bp, live[bp]));
      && FreeList(r, base) && Linked(ptr', size', r)
      && LiveOk(size', r, live - {bp}, base) && Accounted(r, live - {bp}, arena)
      && Points(r, fl[j].addr, j)
  {
    hide Insert, LiveOk, Accounted, Linked;
    var b := Block(bp, live[bp]);
    var r := Insert(fl, j, b);
    LiveApart(size, fl, live, base, bp);
    LinkAscending(fl, j, b);
    InsertCorrect(fl, base, j, b);
    InsertLinked(ptr, size, fl, j, b);
    InsertPlace(fl, j, b);
    FreeLive(size, size', fl, r, live, base, bp);
    FreeAccounted(fl, r, live, arena, bp);
  }

  lemma FreeLive(size: map<int, nat>, size': map<int, nat>, fl: seq<Block>, r: seq<Block>,
                 live: map<int, nat>, base: int, bp: int)
    requires FreeList(fl, base) && LiveOk(size, fl, live, base) && bp in live && Shape(r, base)
    requires forall u :: InBlocks(r, u) <==> InBlocks(fl, u) || InBlock(Block(bp, live[bp]), u)
    requires forall c :: c in size && c != bp && (forall i :: 0 <= i < |fl| ==> fl[i].addr != c) ==>
      c in size' && size'[c] == size[c]
    ensures LiveOk(size', r, live - {bp}, base)
  {
    forall c | c in live && c != bp
      ensures c in size' && size'[c] == live[c]
    {
      LiveApart(size, fl, live, base, c);
    }
    forall c, i | c in live && c != bp && 0 <= i < |r|
      ensures Disjoint(r[i], Block(c, live[c]))
    {
      var x, b := Block(c, live[c]), Block(bp, live[bp]);
      LiveApart(size, fl, live, base, c);
      assert Disjoint(b, x);
      if i > 0 {
        forall u | InBlock(r[i], u)
          ensures !InBlock(x, u)
        {
          assert InBlocks(r, u);
          if InBlocks(fl, u) {
            var k :| 0 <= k < |fl| && InBlock(fl[k], u);
            assert Disjoint(fl[k], x);
          }
        }
        NoCommonUnit(r[i], x);
      }
    }
  }

  lemma NoCommonUnit(a: Block, b: Block)
    requires a.units > 0 && b.units > 0 && forall u :: InBlock(a, u) ==> !InBlock(b, u)
    ensures Disjoint(a, b)
  {
    assert InBlock(a, a.addr) && InBlock(b, b.addr);
  }

  lemma FreeAccounted(fl: seq<Block>, r: seq<Block>, live: map<int, nat>, arena: set<int>, bp: int)
    requires Accounted(fl, live, arena) && bp in live
    requires forall u :: InBlocks(r, u) <==> InBlocks(fl, u) || InBlock(Block(bp, live[bp]), u)
    ensures Accounted(r, live - {bp}, arena)
  {
    var rest := live - {bp};
    forall u
      ensures InLive(live, u) <==> InLive(rest, u) || InBlock(Block(bp, live[bp]), u)
    {
      if c :| c in live && c <= u < c + live[c] {
        assert c == bp || (c in rest && rest[c] == live[c]);
      }
      if c :| c in rest && c <= u < c + rest[c] {
        assert c in live && live[c] == rest[c];
      }
    }
  }

  /** Some block is the last one below an address above base. */
  lemma {:induction false} FindPlace(fl: seq<Block>, base: int, bp: int) returns (j: int)
    requires Shape(fl, base) && Ascending(fl) && base < bp && forall i :: 0 <= i < |fl| ==> fl[i].addr != bp
    ensures PlaceOf(fl, j, Block(bp, 0))
    ensures forall i :: PlaceOf(fl, i, Block(bp, 0)) ==> i == j
  {
    j := 0;
    while j + 1 < |fl| && fl[j + 1].addr < bp
      invariant 0 <= j < |fl| && fl[j].addr < bp
    {
      j := j + 1;
    }
  }
}
