/**
  How the process-wide allocator is carved out of its two mappings: the copy buffer, the
  arenas of the threads, the memory arena, and the arena in the mapped file.
 */
module ArenaCarving {
  import opened Basics
  import opened TreeShape
  import opened PowersOfTwo
  import opened BuddyArena
  import opened BuddyEmbed
  import opened ArenaRouting

  const MEM_ALIGN := 128
  /** `BUDDY_ALLOC_ALIGN`, with which the disk arena is embedded. */
  const DISK_ALIGN := 64
  const SIZEOF_ALLOCATOR := 64
  const SIZEOF_SPINLOCK := 8

  /** The arguments of `createAllocator`, and where the two mappings are. */
  datatype Request = Request(
    memMap: nat, memSize: nat, nSubs: nat, subSize: nat, diskMap: nat, diskSize: nat, copySize: nat)

  /** The pieces; a null address stands for a piece that there is not. */
  datatype Plan = Plan(
    copyBuffer: nat, subBase: nat, nSubs: nat, memMain: nat, memLeft: nat, diskMain: nat, diskLeft: nat)

  /** What `mmap` guarantees, and that the mappings are not larger than half the address space. */
  predicate Mapped(q: Request)
  {
    && q.memSize <= WORD / 2 && q.diskSize <= WORD / 2
    && (q.memSize > 0 ==> q.memMap > 0) && (q.diskSize > 0 ==> q.diskMap > 0)
    && (q.memMap + q.memSize <= q.diskMap || q.diskMap + q.diskSize <= q.memMap)
  }

  /** The bytes of the thread arenas, as the program multiplies. */
  function Region(q: Request): nat { q.nSubs * q.subSize % WORD }

  function Carve(q: Request): Plan
  {
    var inMem := 0 < q.memSize && q.copySize < q.memSize;
    var inDisk := 0 < q.diskSize && !inMem && q.copySize < q.diskSize;
    var m := if inMem then q.memMap + q.copySize else q.memMap;
    var left := if inMem then q.memSize - q.copySize else q.memSize;
    var subs := 0 < Region(q) < left;
    Plan(
      if inMem then q.memMap else if inDisk then q.diskMap else 0,
      if subs then m else 0, if subs then q.nSubs else 0,
      if subs then m + Region(q) else m, if subs then left - Region(q) else left,
      if inDisk then q.diskMap + q.copySize else q.diskMap, if inDisk then q.diskSize - q.copySize else q.diskSize)
  }

  /** The pieces of the anonymous mapping can hold the arenas to be embedded in them. */
  ghost predicate MemoryFits(q: Request)
  {
    var p := Carve(q);
    && (forall i :: 0 <= i < p.nSubs ==> CanEmbed(p.subBase + i * q.subSize, q.subSize, MEM_ALIGN))
    && CanEmbed(p.memMain, p.memLeft, MEM_ALIGN)
  }

  ghost predicate DiskFits(q: Request)
  {
    CanEmbed(Carve(q).diskMain, Carve(q).diskLeft, DISK_ALIGN)
  }

  /** There is a mapping, and every piece of it that an arena goes to can hold one. */
  ghost predicate AllFit(q: Request)
  {
    && (q.memSize > 0 || q.diskSize > 0)
    && (q.memSize > 0 ==> MemoryFits(q)) && (q.diskSize > 0 ==> DiskFits(q))
  }

  /** The pieces lie side by side in their mappings, if the multiplication has not wrapped. */
  lemma PiecesApart(q: Request)
    requires Mapped(q) && q.nSubs * q.subSize < WORD
    ensures var p := Carve(q);
            && (p.copyBuffer != 0 && p.copyBuffer == q.memMap && q.copySize < q.memSize ==>
                  q.memMap + q.copySize <= (if p.nSubs > 0 then p.subBase else p.memMain))
            && (p.nSubs > 0 ==> p.subBase >= q.memMap && p.subBase + p.nSubs * q.subSize == p.memMain && q.subSize >= 1)
            && (q.memSize > 0 ==> p.memMain >= q.memMap && p.memMain + p.memLeft == q.memMap + q.memSize)
            && p.diskMain >= q.diskMap && p.diskMain + p.diskLeft == q.diskMap + q.diskSize
  {
    if q.nSubs > 0 && q.subSize == 0 { assert Region(q) == 0; }
    assert Region(q) == q.nSubs * q.subSize;
  }

  /** The caller's test of its options, as the program adds. */
  predicate Guard(q: Request)
  {
    q.memSize > (q.copySize + Region(q)) % WORD
  }

  /** Memory holds the copy buffer, all the thread arenas asked for, and something behind them. */
  predicate AsAsked(q: Request)
  {
    var p := Carve(q);
    && q.memSize > 0 && p.copyBuffer == q.memMap && p.memMain == q.memMap + q.copySize + Region(q)
    && (Region(q) > 0 ==> p.nSubs == q.nSubs) && p.memLeft == q.memSize - q.copySize - Region(q) > 0
  }

  /** The caller's test keeps creation out of its fallbacks exactly if its sum does not wrap. */
  lemma GuardIff(q: Request)
    requires Mapped(q)
    ensures AsAsked(q) <==> Guard(q) && q.copySize + Region(q) < WORD
  {
    hide Region;
  }

  /** The copy buffer meets no arena. */
  lemma CopyBufferApart(q: Request)
    requires Mapped(q) && q.nSubs * q.subSize < WORD && Carve(q).copyBuffer != 0
    ensures var p := Carve(q);
            var end := p.copyBuffer + q.copySize;
            var first := if p.nSubs > 0 then p.subBase else p.memMain;
            && (q.memSize > 0 ==> end <= first || p.memMain + p.memLeft <= p.copyBuffer)
            && (q.diskSize > 0 ==> end <= p.diskMain || p.diskMain + p.diskLeft <= p.copyBuffer)
  {
    PiecesApart(q);
  }

  /**
    The thread arenas stay inside the mapping exactly if the multiplication does not wrap: with
    sizes for which it does, the last of them ends beyond everything that was mapped.
   */
  lemma ArenasInsideIff(q: Request)
    requires Mapped(q) && Carve(q).nSubs > 0
    ensures Carve(q).subBase + q.nSubs * q.subSize <= q.memMap + q.memSize <==> q.nSubs * q.subSize < WORD
  {
  }

  /** The arena lies at the start of a piece, with room for its metadata behind it. */
  ghost predicate Placed(a: Arena, main: nat, size: nat, alignment: nat)
    requires alignment >= 1
  {
    && a.main == main && a.buddy.alignment == alignment && EmbedOffset(size, alignment).CanFit?
    && a.buddy.memorySize == Trimmed(EmbedOffset(size, alignment).offset, alignment) <= size
  }

  /** The arenas are those of the plan. */
  ghost predicate Carved(q: Request, a: Allocator)
  {
    var p := Carve(q);
    && a.nSubs == p.nSubs && a.hasMem == (q.memSize > 0) && a.hasDisk == (q.diskSize > 0)
    && a.memBase == p.subBase && a.subSize == (if q.memSize > 0 then q.subSize else 0)
    && |a.arenas| == p.nSubs + (if q.memSize > 0 then 1 else 0) + (if q.diskSize > 0 then 1 else 0)
    && (forall i :: 0 <= i < p.nSubs ==> Placed(a.arenas[i], p.subBase + i * q.subSize, q.subSize, MEM_ALIGN))
    && (q.memSize > 0 ==> Placed(a.arenas[p.nSubs], p.memMain, p.memLeft, MEM_ALIGN))
    && (q.diskSize > 0 ==> Placed(a.arenas[|a.arenas| - 1], p.diskMain, p.diskLeft, DISK_ALIGN))
  }

  /** No two arenas share metadata. */
  ghost predicate Separate(s: seq<Arena>)
  {
    forall i, j :: 0 <= i < j < |s| ==>
        s[i].buddy.tree != s[j].buddy.tree && s[i].buddy.tree.bits != s[j].buddy.tree.bits
  }

  /** The pieces of the plan are laid out as routing needs it. */
  lemma CarvedLayout(q: Request, a: Allocator)
    requires Mapped(q) && q.nSubs * q.subSize < WORD && Carved(q, a) && Separate(a.arenas)
    ensures a.Layout()
  {
    hide EmbedOffset, Trimmed, Carve, Allocator.Apart;
    PiecesApart(q);
    PlanShape(q);
    forall i, j | 0 <= i < j < |a.arenas| ensures a.Apart(a.arenas[i], a.arenas[j]) {
      PairApart(q, a, i, j);
    }
  }

  lemma PairApart(q: Request, a: Allocator, i: nat, j: nat)
    requires Mapped(q) && q.nSubs * q.subSize < WORD && Carved(q, a) && Separate(a.arenas) && i < j < |a.arenas|
    ensures a.Apart(a.arenas[i], a.arenas[j])
  {
    hide EmbedOffset, Trimmed, Carve;
    PiecesApart(q);
    PlanShape(q);
    var p := Carve(q);
    if i < p.nSubs {
      Steps(i, if j < p.nSubs then j else p.nSubs, q.subSize);
      hide Mapped;
    }
  }

  lemma Steps(i: nat, j: nat, size: nat)
    requires i < j
    ensures i * size + size <= j * size
  {
    MulMonotone(i + 1, j, size);
    Distribute(i, 1, size);
  }

  lemma PlanShape(q: Request)
    ensures var p := Carve(q); if p.nSubs == 0 then p.subBase == 0 else p.nSubs == q.nSubs && q.memSize > 0
  {
  }

  /** An empty arena has room for any request that fits its smallest block. */
  lemma EmptyHasRoom(b: Buddy, request: nat)
    requires b.Valid() && b.Blocks() == {} && request <= b.alignment
    ensures !b.NoRoom(request)
  {
    hide Buddy.Blocks, BlocksOf, Masks, BuddyTree.Packs;
    var hole := Block(0, b.alignment);
    Ceiling(b.alignment, b.alignment, b.alignLog);
    b.Served(request, hole);
  }

  ghost predicate Empty(a: Arena)
    reads a.buddy, a.buddy.tree, a.buddy.tree.bits
  {
    a.buddy.Valid() && a.buddy.Blocks() == {}
  }

  twostate predicate New(new a: Arena)
  {
    fresh(a.buddy) && fresh(a.buddy.tree) && fresh(a.buddy.tree.bits)
  }

  /** `buddy_embed_alignment`, with the address that the arena belongs to. */
  method EmbedArena(main: nat, size: nat, alignment: nat) returns (r: Option<Arena>)
    requires size <= WORD / 2 && 1 <= alignment < WORD
    ensures r.Some? <==> CanEmbed(main, size, alignment)
    ensures r.Some? ==> Placed(r.value, main, size, alignment) && Empty(r.value) && New(r.value)
  {
    hide Buddy.Valid, Buddy.Blocks;
    var b := Embed(main, size, alignment);
    if b == null {
      return None;
    }
    return Some(Arena(b, main));
  }

  /** The loop over the thread arenas. */
  method EmbedSubs(base: nat, n: nat, size: nat) returns (ok: bool, subs: seq<Arena>)
    requires size <= WORD / 2
    ensures ok <==> forall i :: 0 <= i < n ==> CanEmbed(base + i * size, size, MEM_ALIGN)
    ensures ok ==> |subs| == n
    ensures forall i :: 0 <= i < |subs| ==> Placed(subs[i], base + i * size, size, MEM_ALIGN)
    ensures forall i :: 0 <= i < |subs| ==> Empty(subs[i]) && New(subs[i])
    ensures Separate(subs)
  {
    hide CanEmbed, Placed, Buddy.Valid, Buddy.Blocks;
    subs, ok := [], true;
    for i := 0 to n
      invariant |subs| == i
      invariant forall k :: 0 <= k < i ==> CanEmbed(base + k * size, size, MEM_ALIGN)
      invariant forall k :: 0 <= k < i ==> Placed(subs[k], base + k * size, size, MEM_ALIGN)
      invariant forall k :: 0 <= k < i ==> Empty(subs[k]) && New(subs[k])
      invariant Separate(subs)
    {
      var a := EmbedArena(base + i * size, size, MEM_ALIGN);
      if a.None? {
        return false, subs;
      }
      subs := subs + [a.value];
    }
  }

  lemma SizeInRegion(q: Request)
    requires q.nSubs * q.subSize < WORD && 0 < Region(q)
    ensures q.subSize <= Region(q)
  {
    MulMonotone(1, q.nSubs, q.subSize);
  }

  /** A record in an arena: there is room if it fits the smallest block of an empty one. */
  method PlaceIn(a: Arena, request: nat) returns (r: Option<int>)
    requires a.buddy.Valid()
    modifies a.buddy.tree, a.buddy.tree.bits
    ensures a.buddy.Valid()
    ensures old(Empty(a)) && request <= a.buddy.alignment ==> r.Some?
  {
    hide Buddy.Valid, Buddy.Blocks, Buddy.NoRoom, Buddy.ServesRequest, Buddy.Hole;
    if a.buddy.Blocks() == {} && request <= a.buddy.alignment { EmptyHasRoom(a.buddy, request); }
    var o := a.buddy.Malloc(request);
    return if o.Some? then Some(a.main + o.value) else None;
  }

  /** What the record of the thread locks asks for. */
  function LockBytes(nSubs: nat): (r: nat)
    ensures r >= 1
  {
    Max(nSubs, 1) * SIZEOF_SPINLOCK
  }

  /** For locks in blocks of `size` bytes: what the size of the memory arena says about their room. */
  ghost predicate LocksBySize(b: Buddy, nSubs: nat, found: bool)
  {
    forall size: nat :: b.ServesRequest(LockBytes(nSubs), size) ==>
      && (2 * size <= b.memorySize ==> found)
      && (b.memorySize < size + b.alignment ==> !found)
  }

  /** The two records of the memory arena.  The allocator's own has room; the locks may not. */
  method PlaceRecords(a: Arena, nSubs: nat) returns (record: Option<int>, locks: Option<int>)
    requires Empty(a) && a.buddy.alignment == MEM_ALIGN
    modifies a.buddy.tree, a.buddy.tree.bits
    ensures a.buddy.Valid() && record.Some?
    ensures LocksBySize(a.buddy, nSubs, locks.Some?)
  {
    hide Buddy.Valid, Buddy.Blocks, Buddy.NoRoom, Buddy.ServesRequest, Buddy.Hole, LockBytes;
    var b := a.buddy;
    EmptyHasRoom(b, SIZEOF_ALLOCATOR);
    var o := b.Malloc(SIZEOF_ALLOCATOR);
    record := Some(a.main + o.value);
    ghost var size: nat :| b.ServesRequest(Max(SIZEOF_ALLOCATOR, 1), size) && old(b.Hole(Block(o.value, size)))
                           && b.Blocks() == {Block(o.value, size)};
    SmallestBlock(b, SIZEOF_ALLOCATOR, size);
    SecondHasRoom(b, Block(o.value, size), LockBytes(nSubs));
    o := b.Malloc(LockBytes(nSubs));
    locks := if o.Some? then Some(a.main + o.value) else None;
  }

  lemma SmallestBlock(b: Buddy, request: nat, size: nat)
    requires b.Valid() && 1 <= request <= b.alignment && b.ServesRequest(request, size)
    ensures size == b.alignment
  {
    hide Buddy.Blocks, BlocksOf, Masks, BuddyTree.Packs;
    Ceiling(b.alignment, b.alignment, b.alignLog);
  }

  /** When there is room beside one smallest block, wherever that is. */
  lemma SecondHasRoom(b: Buddy, first: Block, request: nat)
    requires b.Valid() && b.Blocks() == {first} && 1 <= request && first.size == b.alignment
    ensures forall size: nat :: b.ServesRequest(request, size) ==>
              && (2 * size <= b.memorySize ==> !b.NoRoom(request))
              && (b.memorySize < size + b.alignment ==> b.NoRoom(request))
  {
    hide Buddy.Valid, Buddy.Blocks, Buddy.ServesRequest, Buddy.NoRoom;
    FirstPlace(b, first);
    forall size: nat | b.ServesRequest(request, size)
      ensures 2 * size <= b.memorySize ==> !b.NoRoom(request)
      ensures b.memorySize < size + b.alignment ==> b.NoRoom(request)
    {
      Multiple(b, request, size);
      if 2 * size <= b.memorySize {
        AlignedPlaces(b.alignment, first.offset, size);
        b.Served(request, Block(if first.offset >= size then 0 else size, size));
      } else if b.memorySize < size + b.alignment {
        forall c: Block | b.ServesRequest(request, c.size) ensures !b.Hole(c) {
          SameSize(b, request, c.size, size);
        }
        b.Refused(request);
      }
    }
  }

  lemma Multiple(b: Buddy, request: nat, size: nat)
    requires b.Valid() && b.ServesRequest(request, size)
    ensures size >= 1 && b.alignment >= 1 && size % b.alignment == 0
  {
    hide Buddy.Blocks, BlocksOf, Masks, BuddyTree.Packs, IsCeiling, Pow2;
    assert IsCeiling(Max(request, b.alignment), size);
    var k: nat :| size == Pow2(k) by { PowerOf(Max(request, b.alignment), size); }
    AtLeast(Max(request, b.alignment), size);
    Buddy.Pow2Order(b.alignLog, k);
    Pow2Add(b.alignLog, k - b.alignLog);
    Cancel(b.alignment, Pow2(k - b.alignLog));
  }

  lemma PowerOf(v: nat, r: nat)
    requires IsCeiling(v, r)
    ensures exists k: nat :: r == Pow2(k)
  {
  }

  lemma AtLeast(v: nat, r: nat)
    requires IsCeiling(v, r)
    ensures r >= v
  {
  }

  lemma Cancel(a: nat, n: nat)
    requires a >= 1
    ensures a * n % a == 0
  {
    Buddy.DivUnique(a * n, a, n);
  }

  lemma SameSize(b: Buddy, request: nat, s: nat, t: nat)
    requires b.Valid() && b.ServesRequest(request, s) && b.ServesRequest(request, t)
    ensures s == t
  {
    hide Buddy.Blocks, BlocksOf, Masks, BuddyTree.Packs;
    CeilingUnique(Max(request, b.alignment), s, t);
  }

  lemma AlignedPlaces(a: nat, o: nat, size: nat)
    requires a >= 1 && size >= 1 && o % a == 0 && size % a == 0
    ensures o < size ==> o + a <= size
    ensures 0 % size == 0 && size % size == 0
  {
    var p, q := o / a, size / a;
    assert o == p * a && size == q * a;
    if o < size {
      MulCancel(q, p, a);
      MulMonotone(p + 1, q, a);
      Distribute(p, 1, a);
    }
  }

  lemma FirstPlace(b: Buddy, first: Block)
    requires b.Valid() && b.Blocks() == {first} && first.size == b.alignment
    ensures b.alignment >= 1 && first.offset % b.alignment == 0
    ensures first.offset + b.alignment <= b.memorySize
  {
    hide BlocksOf, Masks, BuddyTree.Packs, Buddy.Blocks;
    b.BlocksDisjoint();
    assert first in b.Blocks();
  }

  /** The part over the anonymous mapping; the memory arena comes last. */
  method CarveMemory(q: Request)
    returns (ok: bool, arenas: seq<Arena>, copyBuffer: nat, subBase: nat, locks: Option<int>)
    requires Mapped(q) && q.nSubs * q.subSize < WORD && q.memSize > 0
    ensures ok <==> MemoryFits(q)
    ensures ok ==> |arenas| == Carve(q).nSubs + 1 && subBase == Carve(q).subBase
    ensures copyBuffer == if q.copySize < q.memSize then q.memMap else 0
    ensures ok ==> forall i :: 0 <= i < |arenas| - 1 ==>
            Placed(arenas[i], subBase + i * q.subSize, q.subSize, MEM_ALIGN)
    ensures ok ==> Placed(arenas[|arenas| - 1], Carve(q).memMain, Carve(q).memLeft, MEM_ALIGN)
    ensures ok ==> LocksBySize(arenas[|arenas| - 1].buddy, |arenas| - 1, locks.Some?)
    ensures ok ==> Separate(arenas) && arenas[|arenas| - 1].buddy.Valid()
    ensures ok ==> forall i :: 0 <= i < |arenas| ==> New(arenas[i])
    ensures ok ==> forall i :: 0 <= i < |arenas| - 1 ==> Empty(arenas[i])
  {
    hide CanEmbed, Placed, Buddy.Valid, Buddy.Blocks, Region;
    arenas, copyBuffer, subBase, locks := [], 0, 0, None;
    var mem, memSize, nSubs := q.memMap, q.memSize, q.nSubs;
    if q.copySize < memSize {
      copyBuffer, mem, memSize := mem, mem + q.copySize, memSize - q.copySize;
    }
    var region := Region(q);
    if region > 0 && region < memSize {
      subBase, mem, memSize := mem, mem + region, memSize - region;
      SizeInRegion(q);
      ok, arenas := EmbedSubs(subBase, nSubs, q.subSize);
      if !ok {
        return;
      }
    } else {
      nSubs := 0;
    }
    var memAlloc := EmbedArena(mem, memSize, MEM_ALIGN);
    if memAlloc.None? {
      ok := false;
      return;
    }
    PlacedAlignment(memAlloc.value, mem, memSize, MEM_ALIGN);
    arenas := arenas + [memAlloc.value];
    var record;
    record, locks := PlaceRecords(memAlloc.value, nSubs);
    ok := record.Some?;
  }

  lemma PlacedAlignment(a: Arena, main: nat, size: nat, alignment: nat)
    requires alignment >= 1 && Placed(a, main, size, alignment)
    ensures a.buddy.alignment == alignment
  {
  }

  /** The part over the mapped file; the record goes there if there is no memory arena. */
  method CarveDisk(q: Request, taken: bool, placed: bool) returns (disk: Option<Arena>, copyBuffer: nat)
    requires Mapped(q) && q.diskSize > 0 && taken == (q.memSize > 0 && q.copySize < q.memSize)
    ensures disk.Some? <==> DiskFits(q)
    ensures copyBuffer == if !taken && q.copySize < q.diskSize then q.diskMap else 0
    ensures disk.Some? ==> New(disk.value) && disk.value.buddy.Valid() && (placed ==> Empty(disk.value))
    ensures disk.Some? ==> Placed(disk.value, Carve(q).diskMain, Carve(q).diskLeft, DISK_ALIGN)
  {
    hide CanEmbed, Placed, Buddy.Valid, Buddy.Blocks;
    var data, diskSize := q.diskMap, q.diskSize;
    copyBuffer := 0;
    if !taken && q.copySize < diskSize {
      copyBuffer, data, diskSize := data, data + q.copySize, diskSize - q.copySize;
    }
    disk := EmbedArena(data, diskSize, DISK_ALIGN);
    if disk.Some? && !placed {
      PlacedAlignment(disk.value, data, diskSize, DISK_ALIGN);
      var record := PlaceIn(disk.value, SIZEOF_ALLOCATOR);
      if record.None? {
        disk := None;
      }
    }
  }

  /** The arena that the allocator's own records are allocated in. */
  function Owner(q: Request): int
  {
    if q.memSize > 0 then Carve(q).nSubs else 0
  }

  /**
    `createAllocator`: the arenas of the plan, laid out as routing needs them and empty but for
    the records of the allocator itself, or nothing exactly if a piece does not fit its arena.
    The allocator's record always has room; the locks have some or none as the size of the
    memory arena says.
   */
  method CreateAllocator(q: Request) returns (a: Allocator?, copyBuffer: nat, locks: Option<int>)
    requires Mapped(q) && q.nSubs * q.subSize < WORD
    ensures a != null <==> AllFit(q)
    ensures a != null ==> a.Valid() && Carved(q, a) && copyBuffer == Carve(q).copyBuffer && fresh(a)
    ensures a != null && q.memSize > 0 ==> LocksBySize(a.arenas[Owner(q)].buddy, a.nSubs, locks.Some?)
    ensures a != null ==> forall i :: 0 <= i < |a.arenas| ==> New(a.arenas[i])
    ensures a != null ==> forall i :: 0 <= i < |a.arenas| && i != Owner(q) ==> Empty(a.arenas[i])
  {
    hide CanEmbed, Placed, Buddy.Valid, Buddy.Blocks, MemoryFits, DiskFits, Allocator.Layout, Region;
    a, copyBuffer, locks := null, 0, None;
    var arenas: seq<Arena>, subBase, nSubs := [], 0, 0;
    if q.memSize > 0 {
      var ok;
      ok, arenas, copyBuffer, subBase, locks := CarveMemory(q);
      if !ok {
        return;
      }
      nSubs := |arenas| - 1;
    }
    if q.diskSize > 0 {
      var disk, buffer := CarveDisk(q, copyBuffer != 0, arenas != []);
      if disk.None? {
        return;
      }
      if copyBuffer == 0 { copyBuffer := buffer; }
      arenas := arenas + [disk.value];
    }
    if arenas == [] {
      return;
    }
    a := new Allocator(arenas, nSubs, q.memSize > 0, q.diskSize > 0, subBase, if q.memSize > 0 then q.subSize else 0);
    CarvedLayout(q, a);
  }

  // ----- an example

  /** Three threads with an arena of 1 KB each, 1 KB of shared memory, and a file of 64 KB. */
  const SMALL := Request(0x10_0000, 8192, 3, 1024, 0x100_0000, 0x1_0000, 4096)

  lemma SmallTree()
    ensures OrderOf(8) == 4 && OrderOf(1024) == 11 && TotalBits(4) == 26 && TotalBits(11) == 4083
  {
    hide TotalBits;
    TotalBitsClosed(4);
    TotalBitsClosed(11);
    assert BitLength(7) == 3 && BitLength(1023) == 10 && Pow2(5) == 32 && Pow2(12) == 4096;
  }

  lemma SmallOffsets()
    ensures EmbedOffset(1024, MEM_ALIGN) == CanFit(912, 112)
    ensures EmbedOffset(0x1_0000, DISK_ALIGN) == CanFit(64856, 680)
  {
    hide OrderOf, TotalBits;
    SmallTree();
  }

  lemma SmallPlan()
    ensures Mapped(SMALL) && Guard(SMALL)
    ensures Carve(SMALL) == Plan(0x10_0000, 0x10_1000, 3, 0x10_1C00, 1024, 0x100_0000, 0x1_0000)
  {
  }

  lemma SmallPieces()
    ensures forall i :: 0 <= i < 4 ==> CanEmbed(0x10_1000 + i * 1024, 1024, MEM_ALIGN)
    ensures CanEmbed(0x100_0000, 0x1_0000, DISK_ALIGN)
  {
    hide EmbedOffset;
    SmallOffsets();
    assert Pow2(7) == MEM_ALIGN && Pow2(6) == DISK_ALIGN;
    assert IsPow2(MEM_ALIGN) && IsPow2(DISK_ALIGN);
  }

  lemma SmallFits()
    ensures AllFit(SMALL)
  {
    hide CanEmbed, Carve;
    SmallPlan();
    SmallPieces();
    assert CanEmbed(0x10_1000 + 3 * 1024, 1024, MEM_ALIGN);
  }

  /** A request of 4096 bytes by a debug build goes to the disk arena. */
  method SmallAllocate() returns (a: Allocator, ptr: int)
    ensures a.Valid() && Carved(SMALL, a) && fresh(a) && forall i :: 0 <= i < |a.arenas| ==> New(a.arenas[i])
    ensures |a.arenas| == 5 && a.nSubs == 3 && a.hasMem && a.hasDisk && a.arenas[4].buddy.alignment == DISK_ALIGN
    ensures exists b :: b in a.At(4, ptr) && a.arenas[4].buddy.ServesRequest(4096 + SIZEOF_DEBUG, b.size)
  {
    hide Buddy.Valid, Buddy.Blocks, Buddy.ServesRequest, Buddy.NoRoom, Buddy.BlockAt, Allocator.Valid,
        Allocator.IsNew, Allocator.Layout, EmbedOffset, AllFit, LocksBySize, Carve, Carved;
    SmallFits();
    SmallPlan();
    var created, buffer, locks := CreateAllocator(SMALL);
    a := created;
    SmallArenas(a);
    ghost var order := a.Candidates(0);
    assert |order| == 3 && order[0] == 0 && order[1] == 3 && order[2] == 4;
    TooBig(a.arenas[0].buddy, 4096 + SIZEOF_DEBUG);
    TooBig(a.arenas[3].buddy, 4096 + SIZEOF_DEBUG);
    HasHole(a.arenas[4].buddy, 4096 + SIZEOF_DEBUG);
    var r, at := a.Allocate(0, 4096 + SIZEOF_DEBUG);
    assert at == 2;
    ghost var b: Block :| a.arenas[4].buddy.ServesRequest(4096 + SIZEOF_DEBUG, b.size) && a.IsNew(4, r.value, b, {});
    NewIsThere(a, 4, r.value, b);
    ptr := r.value;
  }

  /** Freeing the block with its own size fails the assertions of a debug build. */
  method DebugFreeFails() returns (ok: bool)
    ensures !ok
  {
    hide Buddy.Valid, Buddy.Blocks, Buddy.ServesRequest, Buddy.BlockAt, Allocator.Valid, Carved, Allocator.At;
    var a, ptr := SmallAllocate();
    a.RoutedRight(4, ptr);
    ok := a.FreeSharedDebug(ptr, 4096);
  }

  lemma SmallArenas(a: Allocator)
    requires a.Valid() && Carved(SMALL, a)
    ensures |a.arenas| == 5 && a.nSubs == 3 && a.hasMem && a.hasDisk
    ensures forall i :: 0 <= i < 5 ==> a.arenas[i].buddy.Valid()
    ensures forall i :: 0 <= i < 4 ==> a.arenas[i].buddy.memorySize == 896
    ensures a.arenas[4].buddy.memorySize == 64832 && a.arenas[4].buddy.alignment == DISK_ALIGN
  {
    hide EmbedOffset, Buddy.Valid, Carve, Allocator.Layout;
    SmallPlan();
    SmallOffsets();
  }

  lemma NewIsThere(a: Allocator, k: nat, ptr: int, b: Block)
    requires a.Valid() && k < |a.arenas| && a.IsNew(k, ptr, b, {})
    ensures b in a.At(k, ptr)
  {
    hide Buddy.Shape, Masks, BlocksOf, BuddyTree.Packs, Buddy.Blocks;
  }

  lemma TooBig(b: Buddy, request: nat)
    requires b.Valid() && request > b.memorySize
    ensures b.NoRoom(request)
  {
  }

  lemma Power13()
    ensures Pow2(13) == 8192
  {
  }

  lemma HasHole(b: Buddy, request: nat)
    requires b.Valid() && b.Blocks() == {} && b.memorySize >= 8192 && b.alignment <= 4096 < request <= 8192
    ensures !b.NoRoom(request)
  {
    hide Buddy.Shape, Masks, BlocksOf, BuddyTree.Packs, Buddy.Blocks, Pow2;
    var hole := Block(0, 8192);
    Power13();
    Ceiling(request, 8192, 13);
    b.Served(request, hole);
  }
}
