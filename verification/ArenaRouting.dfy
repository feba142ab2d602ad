/**
  The process-wide allocator: per-thread arenas side by side at the start of a region, a
  shared memory arena, and an arena in a mapped file.
 */
module ArenaRouting {
  import opened Basics
  import opened TreeShape
  import opened PowersOfTwo
  import opened BuddyArena

  /** The bytes that a debug build appends to every allocation. */
  const SIZEOF_DEBUG := 16

  /** An arena and the address at which its memory starts. */
  datatype Arena = Arena(buddy: Buddy, main: int)

  class Allocator {
    /** The arenas of the threads, then the memory arena and the disk arena as far as they exist. */
    const arenas: seq<Arena>
    const nSubs: nat
    const hasMem: bool
    const hasDisk: bool
    const memBase: int
    const subSize: nat

    /** The regions of `createAllocator`: thread arena `i` starts at `memBase + i * subSize`. */
    constructor (arenas: seq<Arena>, nSubs: nat, hasMem: bool, hasDisk: bool, memBase: int, subSize: nat)
      ensures this.arenas == arenas && this.nSubs == nSubs && this.hasMem == hasMem && this.hasDisk == hasDisk
      ensures this.memBase == memBase && this.subSize == subSize
    {
      this.arenas, this.nSubs, this.hasMem, this.hasDisk := arenas, nSubs, hasMem, hasDisk;
      this.memBase, this.subSize := memBase, subSize;
    }

    ghost predicate Apart(a: Arena, b: Arena)
    {
      && a.buddy.tree != b.buddy.tree && a.buddy.tree.bits != b.buddy.tree.bits
      && (a.main + a.buddy.memorySize <= b.main || b.main + b.buddy.memorySize <= a.main)
    }

    /** No two arenas share metadata or an address. */
    ghost predicate Layout()
    {
      && |arenas| == nSubs + (if hasMem then 1 else 0) + (if hasDisk then 1 else 0)
      && (forall i, j :: 0 <= i < j < |arenas| ==> Apart(arenas[i], arenas[j]))
      && (nSubs > 0 ==> subSize >= 1)
      && (forall i :: 0 <= i < nSubs ==>
            arenas[i].main == memBase + i * subSize && arenas[i].buddy.memorySize <= subSize)
      && (forall i :: nSubs <= i < |arenas| ==>
            arenas[i].main >= memBase + nSubs * subSize || arenas[i].main + arenas[i].buddy.memorySize <= memBase)
    }

    ghost predicate Valid()
      reads this, set i | 0 <= i < |arenas| :: arenas[i].buddy, set i | 0 <= i < |arenas| :: arenas[i].buddy.tree,
            set i | 0 <= i < |arenas| :: arenas[i].buddy.tree.bits
    {
      Layout() && forall i :: 0 <= i < |arenas| ==> arenas[i].buddy.Valid()
    }

    /** `AllocatorFree`: the thread arena whose region holds an address. */
    function SubIndex(ptr: int): (r: Option<nat>)
      ensures r.Some? ==> r.value < nSubs && memBase + r.value * subSize <= ptr < memBase + r.value * subSize + subSize
      ensures r.None? && nSubs > 0 && subSize >= 1 ==> ptr < memBase || ptr >= memBase + nSubs * subSize
    {
      if nSubs > 0 && subSize >= 1 && ptr >= memBase then
        var i := (ptr - memBase) / subSize;
        IndexBounds(ptr - memBase, subSize, nSubs);
        if i < nSubs then Some(i) else None
      else None
    }

    static lemma IndexBounds(d: nat, s: nat, n: nat)
      requires s >= 1
      ensures d / s * s <= d < d / s * s + s
      ensures d / s >= n ==> d >= n * s
    {
      if d / s >= n { MulMonotone(n, d / s, s); }
    }

    /** The block of arena `k` that starts at an absolute address. */
    ghost function At(k: nat, ptr: int): set<Block>
      requires k < |arenas| && Valid()
      reads this, set i | 0 <= i < |arenas| :: arenas[i].buddy, set i | 0 <= i < |arenas| :: arenas[i].buddy.tree,
            set i | 0 <= i < |arenas| :: arenas[i].buddy.tree.bits
    {
      arenas[k].buddy.BlockAt(ptr - arenas[k].main)
    }

    /** A block belongs to the arena whose memory holds its address. */
    lemma BelongsTo(k: nat, ptr: int)
      requires Valid() && k < |arenas| && At(k, ptr) != {}
      ensures arenas[k].main <= ptr < arenas[k].main + arenas[k].buddy.memorySize
    {
      arenas[k].buddy.NothingOutside(ptr - arenas[k].main);
    }

    /** An address is the start of a block in one arena at most. */
    lemma OneArena(j: nat, k: nat, ptr: int)
      requires Valid() && j < |arenas| && k < |arenas| && At(j, ptr) != {} && At(k, ptr) != {}
      ensures j == k
    {
      hide Buddy.Valid, Buddy.BlockAt, SubIndex, At;
      BelongsTo(j, ptr);
      BelongsTo(k, ptr);
    }

    /** The routing rule sends an address to the arena that holds its block. */
    lemma RoutedRight(k: nat, ptr: int)
      requires Valid() && k < |arenas| && At(k, ptr) != {}
      ensures SubIndex(ptr) == if k < nSubs then Some(k) else None
    {
      hide Buddy.Valid, Buddy.BlockAt, SubIndex, At;
      BelongsTo(k, ptr);
      var r := SubIndex(ptr);
      if k < nSubs {
        Nearest(memBase, subSize, nSubs, k, ptr);
        if r.Some? { SameRegion(memBase, subSize, k, r.value, ptr); }
      } else if r.Some? {
        Nearest(memBase, subSize, nSubs, r.value, ptr);
      }
    }

    static lemma Nearest(base: int, s: nat, n: nat, i: nat, ptr: int)
      requires i < n && base + i * s <= ptr < base + i * s + s
      ensures base <= ptr < base + n * s
    {
      MulMonotone(i + 1, n, s);
      Distribute(i, 1, s);
    }

    static lemma SameRegion(base: int, s: nat, i: nat, j: nat, ptr: int)
      requires base + i * s <= ptr < base + i * s + s && base + j * s <= ptr < base + j * s + s
      ensures i == j
    {
      Distribute(i, 1, s);
      Distribute(j, 1, s);
      if i < j { MulMonotone(i + 1, j, s); }
      if j < i { MulMonotone(j + 1, i, s); }
    }

    /** Frees in one arena; the others keep their blocks. */
    method FreeIn(k: nat, ptr: int)
      requires Valid() && k < |arenas|
      modifies arenas[k].buddy.tree, arenas[k].buddy.tree.bits
      ensures Valid()
      ensures arenas[k].buddy.Blocks() == old(arenas[k].buddy.Blocks()) - old(At(k, ptr))
      ensures forall j :: 0 <= j < |arenas| && j != k ==> arenas[j].buddy.Blocks() == old(arenas[j].buddy.Blocks())
      ensures forall j, p :: 0 <= j < |arenas| && j != k ==> At(j, p) == old(At(j, p))
    {
      hide Buddy.Shape, Masks, BlocksOf, BuddyTree.Packs;
      arenas[k].buddy.FreeBlock(ptr - arenas[k].main);
    }

    /**
      `AllocatorFree` of a release build: whatever arena made the block that starts at the
      address loses exactly that block, and no other arena changes.
     */
    method Free(ptr: int)
      requires Valid()
      modifies set i | 0 <= i < |arenas| :: arenas[i].buddy.tree, set i | 0 <= i < |arenas| :: arenas[i].buddy.tree.bits
      ensures Valid()
      ensures forall k :: 0 <= k < |arenas| ==>
              arenas[k].buddy.Blocks() == old(arenas[k].buddy.Blocks()) - old(At(k, ptr))
    {
      hide Buddy.Shape, Masks, BlocksOf, BuddyTree.Packs, Buddy.Valid, Buddy.BlockAt;
      forall k | 0 <= k < |arenas| ensures At(k, ptr) != {} ==> SubIndex(ptr) == if k < nSubs then Some(k) else None {
        if At(k, ptr) != {} { RoutedRight(k, ptr); }
      }
      var r := SubIndex(ptr);
      if r.Some? {
        FreeIn(r.value, ptr);
        return;
      }
      if hasMem {
        FreeIn(nSubs, ptr);
      }
      if hasDisk {
        FreeIn(|arenas| - 1, ptr);
      }
    }

    /** Allocates in one arena; the others keep their blocks. */
    method AllocateIn(k: nat, len: nat) returns (r: Option<int>)
      requires Valid() && k < |arenas|
      modifies arenas[k].buddy.tree, arenas[k].buddy.tree.bits
      ensures Valid()
      ensures r.Some? ==> Served(k, r.value, len)
      ensures r.None? ==> unchanged(arenas[k].buddy.tree) && unchanged(arenas[k].buddy.tree.bits)
      ensures r.None? <==> old(arenas[k].buddy.NoRoom(len))
      ensures forall j :: 0 <= j < |arenas| && j != k ==> arenas[j].buddy.Blocks() == old(arenas[j].buddy.Blocks())
    {
      hide Buddy.Shape, Masks, BlocksOf, BuddyTree.Packs, Buddy.ServesRequest, Buddy.NoRoom;
      var o := arenas[k].buddy.Malloc(len);
      if o.None? {
        return None;
      }
      ghost var size: nat :| arenas[k].buddy.ServesRequest(Max(len, 1), size)
                             && old(arenas[k].buddy.Hole(Block(o.value, size)))
                             && arenas[k].buddy.Blocks() == old(arenas[k].buddy.Blocks()) + {Block(o.value, size)};
      r := Some(arenas[k].main + o.value);
      assert IsNew(k, r.value, Block(o.value, size), old(arenas[k].buddy.Blocks()));
    }

    /** Block `b` is the only new block of arena `k`, and it starts at the absolute address `ptr`. */
    ghost predicate IsNew(k: nat, ptr: int, b: Block, before: set<Block>)
      requires k < |arenas| && Valid()
      reads this, set i | 0 <= i < |arenas| :: arenas[i].buddy, set i | 0 <= i < |arenas| :: arenas[i].buddy.tree,
            set i | 0 <= i < |arenas| :: arenas[i].buddy.tree.bits
    {
      && ptr == arenas[k].main + b.offset
      && (forall c :: c in before ==> !Overlap(b, c))
      && arenas[k].buddy.Blocks() == before + {b}
    }

    /** The arenas that a thread tries, in this order: its own, the memory arena, the disk arena. */
    function Candidates(thread: nat): (r: seq<nat>)
      requires |arenas| == nSubs + (if hasMem then 1 else 0) + (if hasDisk then 1 else 0)
      ensures forall i :: 0 <= i < |r| ==> r[i] < |arenas|
      ensures forall i, j :: 0 <= i < j < |r| ==> r[i] < r[j]
    {
      (if nSubs != 0 then [thread % nSubs] else []) + SharedCandidates()
    }

    function SharedCandidates(): (r: seq<nat>)
      requires |arenas| == nSubs + (if hasMem then 1 else 0) + (if hasDisk then 1 else 0)
      ensures forall i :: 0 <= i < |r| ==> nSubs <= r[i] < |arenas|
    {
      (if hasMem then [nSubs] else []) + (if hasDisk then [|arenas| - 1] else [])
    }

    /** Only arena `k` has changed, by a new block at `ptr` that serves a request of `len` bytes. */
    twostate predicate Served(k: nat, ptr: int, len: nat)
      requires old(Valid()) && Valid() && k < |arenas|
      reads this, set i | 0 <= i < |arenas| :: arenas[i].buddy, set i | 0 <= i < |arenas| :: arenas[i].buddy.tree,
            set i | 0 <= i < |arenas| :: arenas[i].buddy.tree.bits
    {
      && (exists b: Block ::
            arenas[k].buddy.ServesRequest(Max(len, 1), b.size) && IsNew(k, ptr, b, old(arenas[k].buddy.Blocks())))
      && forall j :: 0 <= j < |arenas| && j != k ==> arenas[j].buddy.Blocks() == old(arenas[j].buddy.Blocks())
    }

    /**
      `AllocatorAllocate`: the first arena in order that has room gains a block at the address
      returned; it fails only if none of them has room.
     */
    method Allocate(thread: nat, len: nat) returns (r: Option<int>, ghost at: nat)
      requires Valid()
      modifies set i | 0 <= i < |arenas| :: arenas[i].buddy.tree, set i | 0 <= i < |arenas| :: arenas[i].buddy.tree.bits
      ensures Valid()
      ensures at <= |Candidates(thread)| && (r.None? <==> at == |Candidates(thread)|)
      ensures forall j :: 0 <= j < at ==> old(arenas[Candidates(thread)[j]].buddy.NoRoom(len))
      ensures r.Some? ==>
                !old(arenas[Candidates(thread)[at]].buddy.NoRoom(len)) && Served(Candidates(thread)[at], r.value, len)
      ensures r.None? ==> forall j :: 0 <= j < |arenas| ==> arenas[j].buddy.Blocks() == old(arenas[j].buddy.Blocks())
    {
      hide Buddy.Shape, Masks, BlocksOf, BuddyTree.Packs, Buddy.Valid, Buddy.ServesRequest, IsNew, Buddy.NoRoom,
          SharedCandidates;
      r, at := None, 0;
      ghost var own := 0;
      if nSubs != 0 {
        r := AllocateIn(thread % nSubs, len);
        if r.Some? { return; }
        own := 1;
      }
      ghost var n;
      r, n := AllocateShared(len);
      at := own + n;
    }

    /** The part of `AllocatorAllocate` under the lock of the shared arenas. */
    method AllocateShared(len: nat) returns (r: Option<int>, ghost at: nat)
      requires Valid()
      modifies set i | nSubs <= i < |arenas| :: arenas[i].buddy.tree,
               set i | nSubs <= i < |arenas| :: arenas[i].buddy.tree.bits
      ensures Valid()
      ensures at <= |SharedCandidates()| && (r.None? <==> at == |SharedCandidates()|)
      ensures forall j :: 0 <= j < at ==> old(arenas[SharedCandidates()[j]].buddy.NoRoom(len))
      ensures r.Some? ==>
                !old(arenas[SharedCandidates()[at]].buddy.NoRoom(len)) && Served(SharedCandidates()[at], r.value, len)
      ensures r.None? ==> forall j :: 0 <= j < |arenas| ==> arenas[j].buddy.Blocks() == old(arenas[j].buddy.Blocks())
    {
      hide Buddy.Shape, Masks, BlocksOf, BuddyTree.Packs, Buddy.Valid, Buddy.ServesRequest, IsNew, Buddy.NoRoom;
      r, at := None, 0;
      if hasMem {
        r := AllocateIn(nSubs, len);
        if r.Some? { return; }
        at := at + 1;
      }
      if hasDisk {
        r := AllocateIn(|arenas| - 1, len);
        if r.Some? { return; }
        at := at + 1;
      }
    }

    /**
      `AllocatorFree` of a debug build on a block of the shared arenas, for an allocation of
      `len` bytes to which the debug record was added.  The disk arena is asked only after an
      existing memory arena disowned the address, and it is asked with the size of the bare
      debug record; `ok` tells whether the assertions that follow hold.
     */
    method FreeSharedDebug(ptr: int, len: nat) returns (ok: bool)
      requires Valid() && SubIndex(ptr).None?
      modifies set i | nSubs <= i < |arenas| :: arenas[i].buddy.tree,
               set i | nSubs <= i < |arenas| :: arenas[i].buddy.tree.bits
      ensures Valid()
      ensures hasMem && old(At(nSubs, ptr)) != {} ==>
                (ok <==> Fits(old(At(nSubs, ptr)), arenas[nSubs].buddy, len + SIZEOF_DEBUG))
      ensures hasDisk && old(At(|arenas| - 1, ptr)) != {} ==>
                (ok <==> hasMem && Fits(old(At(|arenas| - 1, ptr)), arenas[|arenas| - 1].buddy, SIZEOF_DEBUG))
      ensures hasMem ==> forall b ::
              b in old(At(nSubs, ptr)) && arenas[nSubs].buddy.ServesRequest(len + SIZEOF_DEBUG, b.size) ==> ok
      ensures hasDisk ==> forall b ::
              b in old(At(|arenas| - 1, ptr)) &&
              arenas[|arenas| - 1].buddy.ServesRequest(len + SIZEOF_DEBUG, b.size) ==>
                (ok <==> hasMem && len + SIZEOF_DEBUG <= Max(SIZEOF_DEBUG, arenas[|arenas| - 1].buddy.alignment))
      ensures forall j :: 0 <= j < |arenas| ==>
                arenas[j].buddy.Blocks() == if ok then old(arenas[j].buddy.Blocks()) - old(At(j, ptr))
                    else old(arenas[j].buddy.Blocks())
    {
      hide Buddy.Shape, Masks, BlocksOf, BuddyTree.Packs, Buddy.Valid, Buddy.BlockAt, SubIndex;
      forall k | 0 <= k < nSubs ensures At(k, ptr) == {} { if At(k, ptr) != {} { RoutedRight(k, ptr); } }
      if !hasMem {
        return false;
      }
      var disk := |arenas| - 1;
      if hasDisk && At(disk, ptr) != {} { BelongsTo(disk, ptr); }
      Requests(nSubs, ptr, len);
      if hasDisk { Requests(disk, ptr, len); }
      if At(nSubs, ptr) != {} && hasDisk && At(disk, ptr) != {} { OneArena(nSubs, disk, ptr); }
      var status := SafeFreeIn(nSubs, ptr, len + SIZEOF_DEBUG);
      if status == InvalidAddress && hasDisk {
        status := SafeFreeIn(disk, ptr, SIZEOF_DEBUG);
      }
      ok := status == FreeSuccess;
    }

    /** `buddy_safe_free` in one arena; the others keep their blocks. */
    method SafeFreeIn(k: nat, ptr: int, request: nat) returns (status: SafeFree)
      requires Valid() && k < |arenas|
      modifies arenas[k].buddy.tree, arenas[k].buddy.tree.bits
      ensures Valid()
      ensures status.FreeSuccess? <==> Fits(old(At(k, ptr)), arenas[k].buddy, request)
      ensures arenas[k].buddy.Blocks() == if status.FreeSuccess? then old(arenas[k].buddy.Blocks()) - old(At(k, ptr))
              else old(arenas[k].buddy.Blocks())
      ensures old(At(k, ptr)) != {} ==> status != InvalidAddress
      ensures !(arenas[k].main <= ptr < arenas[k].main + arenas[k].buddy.memorySize) ==> status == InvalidAddress
      ensures forall j :: 0 <= j < |arenas| && j != k ==> arenas[j].buddy.Blocks() == old(arenas[j].buddy.Blocks())
      ensures forall j, p :: 0 <= j < |arenas| && j != k ==> At(j, p) == old(At(j, p))
    {
      hide Buddy.Shape, Masks, BlocksOf, BuddyTree.Packs;
      status := arenas[k].buddy.SafeFreeBlock(ptr - arenas[k].main, request);
    }

    /** The size test of `buddy_safe_free`. */
    ghost predicate Fits(found: set<Block>, b: Buddy, request: nat)
    {
      exists block :: block in found && block.size / 2 < Max(request, b.alignment) <= block.size
    }

    /** In terms of the request: which blocks of the memory arena and of the disk arena a debug build can free. */
    lemma DebugFits(b: Buddy, block: Block, len: nat)
      requires b.Valid() && b.ServesRequest(len + SIZEOF_DEBUG, block.size)
      ensures Fits({block}, b, len + SIZEOF_DEBUG)
      ensures Fits({block}, b, SIZEOF_DEBUG) <==> len + SIZEOF_DEBUG <= Max(SIZEOF_DEBUG, b.alignment)
    {
      b.RequestFits(len + SIZEOF_DEBUG, block.size);
      assert block in {block};
      var m := Max(SIZEOF_DEBUG, b.alignment);
      PowerBound(b.alignment, b.alignLog);
      b.FitsIff(len + SIZEOF_DEBUG, SIZEOF_DEBUG, block.size);
    }

    lemma SingleAt(k: nat, ptr: int, b: Block)
      requires Valid() && k < |arenas| && b in At(k, ptr)
      ensures At(k, ptr) == {b}
    {
      hide Buddy.Shape, Masks, BlocksOf, BuddyTree.Packs, Buddy.Blocks;
      arenas[k].buddy.BlocksDisjoint();
      arenas[k].buddy.ShapePositive();
      forall c | c in At(k, ptr) ensures c == b {
        assert c.size > 0 && b.size > 0;
      }
    }

    /** What the size tests on the block of arena `k` at an address mean for the request it served. */
    lemma Requests(k: nat, ptr: int, len: nat)
      requires Valid() && k < |arenas|
      ensures forall b :: b in At(k, ptr) && arenas[k].buddy.ServesRequest(len + SIZEOF_DEBUG, b.size) ==>
                && Fits(At(k, ptr), arenas[k].buddy, len + SIZEOF_DEBUG)
                && (Fits(At(k, ptr), arenas[k].buddy, SIZEOF_DEBUG) <==>
                      len + SIZEOF_DEBUG <= Max(SIZEOF_DEBUG, arenas[k].buddy.alignment))
    {
      hide Buddy.Shape, Masks, BlocksOf, BuddyTree.Packs, Buddy.Blocks, At, Buddy.Valid, Fits, Buddy.ServesRequest;
      var buddy := arenas[k].buddy;
      forall b | b in At(k, ptr) && buddy.ServesRequest(len + SIZEOF_DEBUG, b.size)
        ensures Fits(At(k, ptr), buddy, len + SIZEOF_DEBUG)
        ensures Fits(At(k, ptr), buddy, SIZEOF_DEBUG) <==> len + SIZEOF_DEBUG <= Max(SIZEOF_DEBUG, buddy.alignment)
      {
        SingleAt(k, ptr, b);
        DebugFits(buddy, b, len);
      }
    }

    static lemma PowerBound(a: nat, k: nat)
      requires a == Pow2(k)
      ensures var m := Max(SIZEOF_DEBUG, a); IsCeiling(m, m)
    {
      assert Pow2(4) == SIZEOF_DEBUG;
      Ceiling(Max(SIZEOF_DEBUG, a), Max(SIZEOF_DEBUG, a), if a > SIZEOF_DEBUG then k else 4);
    }
  }
}
