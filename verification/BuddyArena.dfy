/**
  The buddy allocator as its callers see it: a set of disjoint, aligned blocks of memory.

  Addresses are offsets from the start of the arena, so an address below the arena is a
  negative number.
 */
module BuddyArena {
  import opened Basics
  import opened TreeShape
  import opened StatusSpec
  import opened BestFit
  import opened BuddyTree
  import opened PowersOfTwo
  import TreeAccounting

  datatype Block = Block(offset: nat, size: nat)

  datatype SafeFree = FreeSuccess | InvalidAddress | SizeMismatch

  predicate Overlap(a: Block, b: Block)
  {
    a.offset < b.offset + b.size && b.offset < a.offset + a.size
  }

  /** The memory that a node stands for. */
  function BlockOf(n: nat, alignment: nat, x: nat): Block
    requires InTree(n, x)
  {
    Block(First(n, x) * alignment, Leaves(n, x) * alignment)
  }

  /** The nodes of `virt` stand for exactly the leaves from number `cut` on. */
  ghost predicate Masks(n: nat, virt: set<nat>, cut: nat)
  {
    forall y: nat :: y >= 1 && Depth(y) == n ==> (Row(y) >= cut <==> exists v :: v in virt && IsAnc(v, y))
  }

  /** The leaf with the given number. */
  lemma LeafNode(n: nat, leaf: nat)
    requires n >= 1 && leaf < Pow2(n - 1)
    ensures var y := Pow2(n - 1) + leaf; Depth(y) == n && Row(y) == leaf && First(n, y) == leaf && Leaves(n, y) == 1
  {
    var y := Pow2(n - 1) + leaf;
    InTreeBound(n, y);
    InTreeBound(n - 1, y);
  }

  /** A node is above a leaf exactly when the leaf is one of its leaves. */
  lemma AboveLeaf(n: nat, x: nat, y: nat)
    requires InTree(n, x) && y >= 1 && Depth(y) == n
    ensures First(n, y) == Row(y) && Leaves(n, y) == 1
    ensures IsAnc(x, y) <==> First(n, x) <= Row(y) < First(n, x) + Leaves(n, x)
  {
    hide First, Leaves;
    assert First(n, y) == Row(y) && Leaves(n, y) == 1 by { LeafFirst(n, y); }
    if IsAnc(x, y) {
      AncContains(n, x, y);
    } else if IsAnc(y, x) {
      AncDepth(y, x);
    } else {
      Laminar(n, x, y);
    }
  }

  lemma LeafFirst(n: nat, y: nat)
    requires y >= 1 && Depth(y) == n
    ensures First(n, y) == Row(y) && Leaves(n, y) == 1
  {
  }

  /** Nodes of which neither is above the other stand for disjoint blocks, and conversely. */
  lemma ApartIff(n: nat, alignment: nat, x: nat, y: nat)
    requires InTree(n, x) && InTree(n, y) && alignment >= 1
    ensures Overlap(BlockOf(n, alignment, x), BlockOf(n, alignment, y)) <==> IsAnc(x, y) || IsAnc(y, x)
  {
    hide First, Leaves, IsAnc;
    if IsAnc(x, y) {
      AncContains(n, x, y);
      Scaled(alignment, First(n, x), Leaves(n, x), First(n, y), Leaves(n, y));
    } else if IsAnc(y, x) {
      AncContains(n, y, x);
      Scaled(alignment, First(n, y), Leaves(n, y), First(n, x), Leaves(n, x));
    } else {
      Laminar(n, x, y);
      ScaledApart(alignment, First(n, x), Leaves(n, x), First(n, y), Leaves(n, y));
    }
  }

  lemma Scaled(a: nat, f: nat, l: nat, g: nat, m: nat)
    requires a >= 1 && m >= 1 && f <= g && g + m <= f + l
    ensures Overlap(Block(f * a, l * a), Block(g * a, m * a))
  {
    Distribute(f, l, a);
    Distribute(g, m, a);
    MulMonotone(f, g, a);
    MulMonotone(g + m, f + l, a);
    MulMonotone(1, m, a);
  }

  lemma ScaledApart(a: nat, f: nat, l: nat, g: nat, m: nat)
    requires f + l <= g || g + m <= f
    ensures !Overlap(Block(f * a, l * a), Block(g * a, m * a))
  {
    Distribute(f, l, a);
    Distribute(g, m, a);
    if f + l <= g { MulMonotone(f + l, g, a); } else { MulMonotone(g + m, f, a); }
  }

  /** A legal node that is apart from the masked leaves lies before them. */
  lemma BeforeMask(n: nat, virt: set<nat>, cut: nat, x: nat)
    requires InTree(n, x) && Masks(n, virt, cut) && (forall v :: v in virt ==> InTree(n, v))
    ensures (forall v :: v in virt && v >= 1 ==> !IsAnc(v, x) && !IsAnc(x, v)) <==> First(n, x) + Leaves(n, x) <= cut
  {
    hide First, Leaves;
    var last := First(n, x) + Leaves(n, x) - 1;
    InRange(n, x);
    LeafNode(n, last);
    var y := Pow2(n - 1) + last;
    AboveLeaf(n, x, y);
    if last >= cut {
      var v :| v in virt && IsAnc(v, y);
      if Depth(v) <= Depth(x) { AncChain(v, x, y); } else { AncChain(x, v, y); }
    } else {
      forall v | v in virt ensures !IsAnc(v, x) && !IsAnc(x, v) { MaskedApart(n, virt, cut, x, v); }
    }
  }

  lemma MaskedApart(n: nat, virt: set<nat>, cut: nat, x: nat, v: nat)
    requires InTree(n, x) && Masks(n, virt, cut) && v in virt && InTree(n, v)
    requires First(n, x) + Leaves(n, x) <= cut
    ensures First(n, v) >= cut && !IsAnc(v, x) && !IsAnc(x, v)
  {
    hide First, Leaves;
    InRange(n, v);
    LeafNode(n, First(n, v));
    var y := Pow2(n - 1) + First(n, v);
    AboveLeaf(n, v, y);
    if IsAnc(v, x) { AncContains(n, v, x); }
    if IsAnc(x, v) { AncContains(n, x, v); }
  }

  /** Halving a size keeps it a power-of-two multiple of the alignment. */
  lemma SlotSize(n: nat, a: nat, x: nat)
    requires InTree(n, x)
    ensures Leaves(n, x) * Pow2(a) == Pow2(n - Depth(x) + a)
  {
    Pow2Add(n - Depth(x), a);
  }

  class Buddy {
    const memorySize: nat
    const alignment: nat
    const tree: Tree
    /** The binary logarithm of the alignment. */
    ghost const alignLog: nat
    /** The nodes that mask the space past `memorySize`. */
    ghost var virt: set<nat>

    ghost predicate Shape()
    {
      && alignment == Pow2(alignLog)
      && memorySize % alignment == 0 && memorySize >= alignment
      && tree.order >= 1
      && Pow2(tree.order - 1) * alignment <= WORD / 2
      && memorySize <= Pow2(tree.order - 1) * alignment < 2 * memorySize
    }

    ghost predicate Valid()
      reads this, tree, tree.bits
    {
      && Shape() && tree.Valid()
      && virt <= tree.marked
      && Masks(tree.order, virt, memorySize / alignment)
    }

    /** The allocated nodes. */
    ghost function Live(): set<nat>
      reads this, tree
    {
      tree.marked - virt
    }

    /** The allocated blocks. */
    ghost function Blocks(): set<Block>
      requires Valid()
      reads this, tree, tree.bits
    {
      BlocksOf(tree.order, alignment, Live())
    }

    /** In every valid state the blocks are aligned, inside the memory, and pairwise disjoint. */
    lemma BlocksDisjoint()
      requires Valid()
      ensures forall b :: b in Blocks() ==>
                b.size >= alignment && b.size % alignment == 0 && b.offset % b.size == 0 &&
                    b.offset + b.size <= memorySize
      ensures forall b, c :: b in Blocks() && c in Blocks() && b != c ==> !Overlap(b, c)
    {
      hide First, Leaves, IsAnc, Status, Packs, BlockOf;
      forall b | b in Blocks()
        ensures b.size >= alignment && b.size % alignment == 0 && b.offset % b.size == 0
        ensures b.offset + b.size <= memorySize
      {
        var x :| x in Live() && b == BlockOf(tree.order, alignment, x);
        LiveInside(x);
      }
      forall b, c | b in Blocks() && c in Blocks() && b != c ensures !Overlap(b, c) {
        var x :| x in Live() && b == BlockOf(tree.order, alignment, x);
        var y :| y in Live() && c == BlockOf(tree.order, alignment, y);
        ApartIff(tree.order, alignment, x, y);
      }
    }

    lemma LiveInside(x: nat)
      requires Valid() && x in Live()
      ensures var b := BlockOf(tree.order, alignment, x);
              b.size >= alignment && b.size % alignment == 0 && b.offset % b.size == 0 &&
                  b.offset + b.size <= memorySize
    {
      hide First, Leaves, IsAnc, Status, Packs, BlockOf, Masks, Shape;
      BlockShape(x);
      ShapePositive();
      LiveBefore(x);
      InsideMemory(x);
    }

    lemma LiveBefore(x: nat)
      requires Valid() && x in Live() && alignment >= 1
      ensures InTree(tree.order, x) && First(tree.order, x) + Leaves(tree.order, x) <= memorySize / alignment
    {
      hide First, Leaves, IsAnc, Status, Packs, BlockOf, Masks, Shape;
      assert forall v :: v in virt && v >= 1 ==> !IsAnc(v, x) && !IsAnc(x, v);
      BeforeMask(tree.order, virt, memorySize / alignment, x);
    }

    lemma ShapePositive()
      requires Shape()
      ensures alignment >= 1 && tree.order >= 1
    {
    }

    lemma BlockShape(x: nat)
      requires Shape() && InTree(tree.order, x)
      ensures var b := BlockOf(tree.order, alignment, x);
              b.size >= alignment && b.size % alignment == 0 && b.offset % b.size == 0
              && b.offset == Row(x) * b.size && b.size == Pow2(tree.order - Depth(x) + alignLog)
    {
      hide Row, Depth, Leaves;
      var l := Leaves(tree.order, x);
      SlotSize(tree.order, alignLog, x);
      Product(Row(x), l, alignment);
    }

    static lemma Product(r: nat, l: nat, a: nat)
      requires l >= 1 && a >= 1
      ensures l * a >= a && l * a % a == 0 && (r * l) * a == r * (l * a) && (r * l) * a % (l * a) == 0
    {
      MulMonotone(1, l, a);
      DivUnique(l * a, a, l);
      Assoc(r, l, a);
      DivUnique(r * (l * a), l * a, r);
    }

    static lemma Assoc(r: nat, l: nat, a: nat)
      ensures (r * l) * a == r * (l * a)
    {
    }

    static lemma DivUnique(v: nat, m: nat, k: nat)
      requires m >= 1 && v == k * m
      ensures v / m == k && v % m == 0
    {
      var q, r := v / m, v % m;
      assert v == q * m + r;
      assert (q + 1) * m == q * m + m;
      MulCancel(q, k, m);
      MulCancel(q + 1, k, m);
    }

    lemma InsideMemory(x: nat)
      requires Shape() && InTree(tree.order, x)
      ensures First(tree.order, x) + Leaves(tree.order, x) <= memorySize / alignment <==>
                var b := BlockOf(tree.order, alignment, x); b.offset + b.size <= memorySize
    {
      hide First, Leaves;
      var f, l, c := First(tree.order, x), Leaves(tree.order, x), memorySize / alignment;
      assert memorySize == c * alignment;
      assert (f + l) * alignment == f * alignment + l * alignment;
      MulCancel(f + l, c, alignment);
    }

    /** The arena with its tree, before the virtual slots are masked. */
    constructor (memorySize: nat, alignment: nat, order: nat, ghost alignLog: nat)
      requires order >= 1 && alignment == Pow2(alignLog) && memorySize % alignment == 0 && memorySize >= alignment
      requires memorySize <= Pow2(order - 1) * alignment < 2 * memorySize && Pow2(order - 1) * alignment <= WORD / 2
      ensures Shape() && tree.Valid() && tree.marked == {} && virt == {}
      ensures this.memorySize == memorySize && this.alignment == alignment && tree.order == order
      ensures fresh(tree) && fresh(tree.bits)
    {
      this.memorySize := memorySize;
      this.alignment := alignment;
      this.alignLog := alignLog;
      this.virt := {};
      tree := new Tree(order);
    }

    lemma EffectiveIsPower()
      requires Shape()
      ensures Pow2(tree.order - 1) * alignment == Pow2(tree.order - 1 + alignLog)
    {
      Pow2Add(tree.order - 1, alignLog);
    }

    /** `buddy_effective_memory_size`: the size of the whole tree. */
    method EffectiveMemorySize() returns (r: nat)
      requires Shape()
      ensures r == Pow2(tree.order - 1) * alignment
    {
      r := CeilingPowerOfTwo(memorySize);
      var e := Pow2(tree.order - 1) * alignment;
      EffectiveIsPower();
      Ceiling(memorySize, e, tree.order - 1 + alignLog);
      CeilingUnique(memorySize, r, e);
    }

    /** `size_for_depth`: the size of the blocks of a depth. */
    method SizeForDepth(depth: nat) returns (r: nat)
      requires Shape() && 1 <= depth <= tree.order
      ensures r == Pow2(tree.order - depth + alignLog)
      ensures forall x: nat :: x >= 1 && Depth(x) == depth ==> r == Leaves(tree.order, x) * alignment
    {
      var e := EffectiveMemorySize();
      EffectiveIsPower();
      ShiftPow2(tree.order - 1 + alignLog, depth - 1);
      r := Shift(e, depth - 1);
      forall x: nat | x >= 1 && Depth(x) == depth ensures r == Leaves(tree.order, x) * alignment {
        SlotSize(tree.order, alignLog, x);
      }
    }

    static lemma {:induction false} ShiftPow2(k: nat, j: nat)
      requires j <= k
      ensures Shift(Pow2(k), j) == Pow2(k - j)
    {
      if j > 0 { ShiftPow2(k - 1, j - 1); }
    }

    /** `address_for_position` */
    method AddressForPosition(pos: Pos) returns (addr: nat)
      requires Shape() && Names(tree.order, pos)
      ensures addr == BlockOf(tree.order, alignment, pos.index).offset
    {
      hide Leaves, First, Pow2, Shape, Depth, BlockOf;
      var size := SizeForDepth(pos.depth);
      DepthBounds(pos.index);
      BlockShape(pos.index);
      var row := pos.index - Pow2(pos.depth - 1);
      addr := row * size;
    }

    /** `buddy_toggle_virtual_slots`: masks exactly the leaves past the memory size. */
    method MaskVirtualSlots()
      requires Shape() && tree.Valid() && tree.marked == {} && virt == {}
      modifies this`virt, tree, tree.bits
      ensures Valid() && Live() == {} && Blocks() == {}
    {
      hide First, Leaves, Status, Packs, IsAnc, Depth, Masks, Pow2;
      var n := tree.order;
      var effective := EffectiveMemorySize();
      ghost var cut := memorySize / alignment;
      assert cut * alignment == memorySize;
      NothingMasked(n);
      MulCancel(cut, Pow2(n - 1), alignment);
      if effective == memorySize {
        return;
      }
      var delta := effective - memorySize;
      ghost var dl := Pow2(n - 1) - cut;
      StartRight(n, alignment, cut);
      var pos := Pos(3, 2);
      while delta != 0
        invariant Shape() && tree.Valid() && Names(n, pos)
        invariant delta == dl * alignment && 0 < dl <= Leaves(n, pos.index)
        invariant Masks(n, tree.marked, First(n, pos.index) + Leaves(n, pos.index))
        invariant First(n, pos.index) + Leaves(n, pos.index) - dl == cut
        decreases n - pos.depth
      {
        var size := SizeForDepth(pos.depth);
        MulCancel(dl, Leaves(n, pos.index), alignment);
        if delta == size {
          MaskNode(pos);
          break;
        }
        Halves(n, pos.index, dl);
        MulCancel(dl, Leaves(n, 2 * pos.index), alignment);
        assert size / 2 == Leaves(n, 2 * pos.index) * alignment;
        var right := Pos(2 * pos.index + 1, pos.depth + 1);
        if delta <= size / 2 {
          pos := right;
        } else {
          MaskNode(right);
          delta := delta - size / 2;
          dl := dl - Leaves(n, 2 * pos.index);
          pos := Pos(2 * pos.index, pos.depth + 1);
        }
      }
      virt := tree.marked;
      assert Live() == {};
    }

    static lemma NothingMasked(n: nat)
      requires n >= 1
      ensures Masks(n, {}, Pow2(n - 1))
    {
      forall y: nat | y >= 1 && Depth(y) == n ensures Row(y) < Pow2(n - 1) { DepthBounds(y); }
    }

    static lemma StartRight(n: nat, alignment: nat, cut: nat)
      requires n >= 1 && alignment >= 1
      requires cut * alignment < Pow2(n - 1) * alignment < 2 * (cut * alignment)
      ensures n >= 2 && Depth(3) == 2 && InTree(n, 3)
      ensures 0 < Pow2(n - 1) - cut <= Leaves(n, 3) && First(n, 3) + Leaves(n, 3) == Pow2(n - 1)
      ensures (Pow2(n - 1) - cut) * alignment == Pow2(n - 1) * alignment - cut * alignment
    {
      assert 2 * (cut * alignment) == (2 * cut) * alignment;
      MulCancel(2 * cut, Pow2(n - 1), alignment);
      MulCancel(Pow2(n - 1), cut, alignment);
      LeavesOfRoot(n);
      assert Depth(1) == 1 && Depth(3) == 2;
      LeavesSplit(n, 1);
      assert (Pow2(n - 1) - cut) * alignment == Pow2(n - 1) * alignment - cut * alignment;
    }

    static lemma Halves(n: nat, x: nat, dl: nat)
      requires InTree(n, x) && 0 < dl < Leaves(n, x)
      ensures Depth(x) < n && InTree(n, 2 * x) && InTree(n, 2 * x + 1)
      ensures Depth(2 * x) == Depth(2 * x + 1) == Depth(x) + 1
      ensures Leaves(n, 2 * x) == Leaves(n, 2 * x + 1) && Leaves(n, x) == 2 * Leaves(n, 2 * x)
      ensures First(n, 2 * x) == First(n, x) && First(n, 2 * x + 1) == First(n, x) + Leaves(n, 2 * x)
    {
      assert Depth(x) < n;
      LeavesSplit(n, x);
    }

    /** Marks a node that ends where the masked part begins. */
    method MaskNode(pos: Pos)
      requires tree.Valid() && Names(tree.order, pos)
      requires Masks(tree.order, tree.marked, First(tree.order, pos.index) + Leaves(tree.order, pos.index))
      modifies tree, tree.bits
      ensures tree.Valid() && Masks(tree.order, tree.marked, First(tree.order, pos.index))
    {
      hide First, Leaves, Status, Packs, IsAnc;
      BeforeMask(tree.order, tree.marked, First(tree.order, pos.index) + Leaves(tree.order, pos.index), pos.index);
      ghost var was := tree.marked;
      tree.Mark(pos);
      MaskExtend(tree.order, was, pos.index);
    }

    static lemma MaskExtend(n: nat, was: set<nat>, x: nat)
      requires InTree(n, x) && Masks(n, was, First(n, x) + Leaves(n, x))
      ensures Masks(n, was + {x}, First(n, x))
    {
      hide First, Leaves, IsAnc;
      forall y: nat | y >= 1 && Depth(y) == n
        ensures Row(y) >= First(n, x) <==> exists v :: v in was + {x} && IsAnc(v, y)
      {
        AboveLeaf(n, x, y);
        if Row(y) >= First(n, x) + Leaves(n, x) {
          var v :| v in was && IsAnc(v, y);
          assert v in was + {x};
        } else if Row(y) >= First(n, x) {
          assert x in was + {x};
        }
      }
    }

    /** The size of the block that serves a request: the next power of two. */
    ghost predicate ServesRequest(request: nat, size: nat)
    {
      IsCeiling(Max(request, alignment), size)
    }

    /**
      A block that served one request passes the size test for another exactly if that one asks for
      the same block size.
     */
    lemma FitsIff(request: nat, other: nat, size: nat)
      requires Shape() && ServesRequest(request, size) && other <= request
      requires IsCeiling(Max(other, alignment), Max(other, alignment))
      ensures size / 2 < Max(other, alignment) <= size <==> request <= Max(other, alignment)
    {
      var m := Max(other, alignment);
      var k :| m == Pow2(k);
      var j :| size == Pow2(j);
      if size > m {
        if j <= k { Pow2Monotone(j, k); } else { Pow2Monotone(k, j); }
      }
    }

    /** An aligned hole: a place for a block of this size between the blocks in use. */
    ghost predicate Hole(b: Block)
      requires Valid()
      reads this, tree, tree.bits
    {
      b.size > 0 && b.offset % b.size == 0 && b.offset + b.size <= memorySize && forall c :: c in Blocks() ==>
          !Overlap(b, c)
    }

    /** `depth_for_size` */
    method DepthForSize(request: nat) returns (depth: nat)
      requires Shape() && request <= memorySize
      ensures 1 <= depth <= tree.order
      ensures ServesRequest(request, Pow2(tree.order - depth + alignLog))
    {
      hide BitLength, Pow2;
      var size := if request < alignment then alignment else request;
      var effective := EffectiveMemorySize();
      var p2 := CeilingPowerOfTwo(size);
      EffectiveIsPower();
      assert p2 <= Pow2(tree.order - 1 + alignLog);
      var k := HighestBitPosition(p2);
      var e := HighestBitPosition(effective);
      ghost var j: nat :| p2 == Pow2(j);
      BitLengthPow2(j);
      BitLengthPow2(tree.order - 1 + alignLog);
      Pow2Order(j, tree.order - 1 + alignLog);
      Pow2Order(alignLog, j);
      depth := (e - 1) + 1 - (k - 1);
    }

    static lemma {:induction false} BitLengthPow2(k: nat)
      ensures BitLength(Pow2(k)) == k + 1
    {
      if k > 0 { BitLengthPow2(k - 1); }
    }

    static lemma Pow2Order(a: nat, b: nat)
      ensures Pow2(a) <= Pow2(b) <==> a <= b
    {
      if a <= b { Pow2Monotone(a, b); } else { Pow2Monotone(b, a); }
    }

    /** A free node of a depth is an aligned hole of that depth's size, and conversely. */
    lemma FreeIsHole(y: nat)
      requires Valid() && InTree(tree.order, y)
      ensures Free(tree.marked, y) <==> Hole(BlockOf(tree.order, alignment, y))
    {
      hide First, Leaves, IsAnc, Status, Packs, BlockOf, Masks, Shape;
      var n, b := tree.order, BlockOf(tree.order, alignment, y);
      ShapePositive();
      BlockShape(y);
      InsideMemory(y);
      BeforeMask(n, virt, memorySize / alignment, y);
      forall m | m in tree.marked
        ensures Overlap(b, BlockOf(n, alignment, m)) <==> IsAnc(y, m) || IsAnc(m, y)
      {
        ApartIff(n, alignment, y, m);
      }
      if Free(tree.marked, y) {
        assert Hole(b);
      }
      if Hole(b) {
        forall m | m in tree.marked ensures !IsAnc(y, m) && !IsAnc(m, y) {
          if m !in virt { assert BlockOf(n, alignment, m) in Blocks(); }
        }
      }
    }

    static lemma RowBound(offset: nat, size: nat, rows: nat)
      requires size >= 1 && offset % size == 0 && offset + size <= rows * size
      ensures offset / size < rows && offset == offset / size * size
    {
      var row := offset / size;
      assert (row + 1) * size == row * size + size;
      MulCancel(row + 1, rows, size);
    }

    /** Every aligned place inside the memory is a node's block. */
    lemma PlaceIsNode(b: Block, d: nat) returns (y: nat)
      requires Shape() && 1 <= d <= tree.order && b.size == Pow2(tree.order - d + alignLog)
      requires b.offset % b.size == 0 && b.offset + b.size <= memorySize
      ensures InTree(tree.order, y) && Depth(y) == d && BlockOf(tree.order, alignment, y) == b
    {
      hide Pow2, Depth, Row, First, Leaves;
      var n, row := tree.order, b.offset / b.size;
      EffectiveIsPower();
      Pow2Add(d - 1, n - d + alignLog);
      RowBound(b.offset, b.size, Pow2(d - 1));
      LeafNode(d, row);
      y := Pow2(d - 1) + row;
      BlockShape(y);
    }

    /** The request exceeds the memory, or no aligned hole of its size is left. */
    ghost predicate NoRoom(request: nat)
      requires Valid()
      reads this, tree, tree.bits
    {
      Max(request, 1) > memorySize || forall b: Block :: ServesRequest(Max(request, 1), b.size) ==> !Hole(b)
    }

    lemma Refused(request: nat)
      requires Valid()
      requires Max(request, 1) > memorySize || forall b: Block :: ServesRequest(Max(request, 1), b.size) ==> !Hole(b)
      ensures NoRoom(request)
    {
    }

    lemma Served(request: nat, b: Block)
      requires Valid() && ServesRequest(Max(request, 1), b.size) && Hole(b)
      ensures !NoRoom(request)
    {
    }

    /** Placing the block of a request at `other` would leave room for a request of `want` bytes. */
    ghost predicate LeavesRoom(request: nat, other: Block, want: nat)
      requires Valid()
      reads this, tree, tree.bits
    {
      && ServesRequest(Max(request, 1), other.size) && Hole(other)
      && exists h: Block :: ServesRequest(Max(want, 1), h.size) && Hole(h) && !Overlap(h, other)
    }

    /** A node that is free when those of `marked` are taken, with a block for a request of `want` bytes. */
    ghost predicate Spare(marked: set<nat>, want: nat)
    {
      exists z: nat :: z >= 1 && InTree(tree.order, z) && Free(marked, z) && ServesWith(z, want)
    }

    ghost predicate ServesWith(z: nat, want: nat)
      requires InTree(tree.order, z)
    {
      ServesRequest(Max(want, 1), BlockOf(tree.order, alignment, z).size)
    }

    /** The level of a hole that would serve a request. */
    lemma LevelOf(h: Block, want: nat) returns (d: nat)
      requires Valid() && ServesRequest(Max(want, 1), h.size) && Hole(h)
      ensures 1 <= d <= tree.order && h.size == Pow2(tree.order - d + alignLog)
    {
      hide First, Leaves, IsAnc, Status, Packs, BlockOf, Masks, Pow2, Legal;
      var j := PowerOfBlock(h.size, Max(Max(want, 1), alignment));
      EffectiveIsPower();
      Pow2Order(alignLog, j);
      Pow2Order(j, tree.order - 1 + alignLog);
      d := tree.order + alignLog - j;
    }

    static lemma PowerOfBlock(size: nat, v: nat) returns (j: nat)
      requires IsCeiling(v, size)
      ensures size == Pow2(j) && v <= size
    {
      j :| size == Pow2(j);
    }

    /** Taking another free node of the same depth as `x`, apart from `z`, would leave room at the depth of `z`. */
    lemma StillRoom(x: nat, y: nat, z: nat) returns (w: nat)
      requires Valid() && InTree(tree.order, x) && InTree(tree.order, y) && InTree(tree.order, z)
      requires Depth(x) == Depth(y) && Free(tree.marked, x) && Reached(tree.order, tree.marked, x, Depth(x))
      requires Free(tree.marked, y) && Free(tree.marked, z) && !IsAnc(y, z) && !IsAnc(z, y)
      ensures InTree(tree.order, w) && Depth(w) == Depth(z) && Free(tree.marked + {x}, w)
    {
      var n, m, d := tree.order, tree.marked, Depth(z);
      LegalAdd(n, m, x);
      LegalAdd(n, m, y);
      assert Free(m + {y}, z);
      hide Status, Packs, IsAnc, Masks, Shape, Legal, Free, Reached;
      RootStatusMeaning(n, m + {y}, d);
      LeavesMost(n, m, x, y);
      RootStatusMeaning(n, m + {x}, d);
      w :| w >= 1 && Depth(w) == d && Free(m + {x}, w);
    }

    /** Taking the node that the search found leaves room wherever any other choice would. */
    lemma BestRemains(x: nat, request: nat, other: Block, want: nat)
      requires Valid() && InTree(tree.order, x) && Free(tree.marked, x)
      requires Reached(tree.order, tree.marked, x, Depth(x)) && ServesWith(x, request)
      requires LeavesRoom(request, other, want)
      ensures Spare(tree.marked + {x}, want)
    {
      hide First, Leaves, IsAnc, Status, Packs, BlockOf, Masks, Shape, Legal, Reached, Free, Hole;
      var n := tree.order;
      ShapePositive();
      BlockShape(x);
      SameCeiling(request, BlockOf(n, alignment, x).size, other.size);
      HoleBounds(other);
      var y := PlaceIsNode(other, Depth(x));
      FreeIsHole(y);
      var h: Block :| ServesRequest(Max(want, 1), h.size) && Hole(h) && !Overlap(h, other);
      var d := LevelOf(h, want);
      HoleBounds(h);
      var z := PlaceIsNode(h, d);
      FreeIsHole(z);
      ApartIff(n, alignment, z, y);
      var w := StillRoom(x, y, z);
      BlockShape(z);
      BlockShape(w);
    }

    lemma SameCeiling(request: nat, s: nat, t: nat)
      requires ServesRequest(Max(request, 1), s) && ServesRequest(Max(request, 1), t)
      ensures s == t
    {
      CeilingUnique(Max(Max(request, 1), alignment), s, t);
    }

    lemma HoleBounds(b: Block)
      requires Valid() && Hole(b)
      ensures b.size > 0 && b.offset % b.size == 0 && b.offset + b.size <= memorySize
    {
    }

    /** A spare node is a hole. */
    lemma SpareServes(want: nat)
      requires Valid() && Spare(tree.marked, want)
      ensures !NoRoom(want)
    {
      hide First, Leaves, IsAnc, Status, Packs, BlockOf, Masks, Shape, Free, Hole, ServesRequest, NoRoom;
      var z: nat :| z >= 1 && InTree(tree.order, z) && Free(tree.marked, z) && ServesWith(z, want);
      FreeIsHole(z);
      Served(want, BlockOf(tree.order, alignment, z));
    }

    /**
      `buddy_malloc`: a new block disjoint from all others, of the next power of two; it fails
      exactly when the request exceeds the memory or no aligned hole of that size is left.  The
      place is best possible: if any other would have left room for some request, so does it.
     */
    method Malloc(request: nat) returns (r: Option<nat>)
      requires Valid()
      modifies tree, tree.bits
      ensures Valid() && virt == old(virt)
      ensures r.None? ==> unchanged(tree) && unchanged(tree.bits) && Blocks() == old(Blocks())
      ensures r.Some? ==> exists size: nat ::
                && ServesRequest(Max(request, 1), size)
                && old(Hole(Block(r.value, size)))
                && Blocks() == old(Blocks()) + {Block(r.value, size)}
      ensures r.None? <==> old(NoRoom(request))
      ensures r.Some? ==> forall other, want :: old(LeavesRoom(request, other, want)) ==> !NoRoom(want)
    {
      hide First, Leaves, IsAnc, Status, Packs, BlockOf, Masks, Shape, BlocksOf, Legal, Hole, ServesRequest, NoRoom,
          LeavesRoom, Spare, Reached;
      var req := if request == 0 then 1 else request;
      if req > memorySize {
        Refused(request);
        return None;
      }
      var depth := DepthForSize(req);
      var pos := tree.FindFree(depth);
      if pos == INVALID_POS {
        NoHole(req, depth);
        Refused(request);
        return None;
      }
      ghost var x := pos.index;
      ghost var b := BlockOf(tree.order, alignment, x);
      FreeIsHole(x);
      BlockShape(x);
      ghost var blocks, live := Blocks(), Live();
      assert Hole(b) && ServesRequest(Max(request, 1), b.size);
      Served(request, b);
      var addr := AddressForPosition(pos);
      assert x !in tree.marked by { SelfAnc(x); }
      ghost var taken := tree.marked + {x};
      forall other, want | old(LeavesRoom(request, other, want)) ensures Spare(taken, want) {
        BestRemains(x, request, other, want);
      }
      tree.Mark(pos);
      assert tree.marked == taken;
      forall other, want | old(LeavesRoom(request, other, want)) ensures !NoRoom(want) { SpareServes(want); }
      assert Live() == live + {x};
      BlocksAdd(blocks, live, x);
      assert b == Block(addr, b.size) by { OffsetOf(x); }
      return Some(addr);
    }

    lemma OffsetOf(x: nat)
      requires InTree(tree.order, x)
      ensures var b := BlockOf(tree.order, alignment, x); b == Block(b.offset, b.size)
    {
    }

    static lemma SelfAnc(x: nat)
      requires x >= 1
      ensures IsAnc(x, x)
    {
    }

    lemma BlocksAdd(blocks: set<Block>, live: set<nat>, x: nat)
      requires Valid() && x in Live() && live == Live() - {x}
      requires blocks == BlocksOf(tree.order, alignment, live)
      ensures Blocks() == blocks + {BlockOf(tree.order, alignment, x)}
    {
      hide BlockOf, Packs, Status, IsAnc, Masks;
      assert Live() == live + {x};
    }

    lemma NoHole(req: nat, depth: nat)
      requires Valid() && 1 <= depth <= tree.order && ServesRequest(req, Pow2(tree.order - depth + alignLog))
      requires !exists y: nat :: y >= 1 && Depth(y) == depth && Free(tree.marked, y)
      ensures forall b: Block :: ServesRequest(req, b.size) ==> !Hole(b)
    {
      hide First, Leaves, IsAnc, Status, Packs, BlockOf, Masks;
      forall b: Block | ServesRequest(req, b.size) ensures !Hole(b) {
        CeilingUnique(Max(req, alignment), b.size, Pow2(tree.order - depth + alignLog));
        if Hole(b) {
          var y := PlaceIsNode(b, depth);
          FreeIsHole(y);
        }
      }
    }

    /**
      `position_for_address`: the node that tracks an address inside the memory.  The start of
      an allocated block yields its node; any other address yields the invalid position or a
      node that a release will refuse.
     */
    method PositionForAddress(offset: nat) returns (pos: Pos)
      requires Valid() && offset < memorySize
      ensures pos != INVALID_POS ==>
                && Names(tree.order, pos)
                && BlockOf(tree.order, alignment, pos.index).offset == offset
                && (Status(tree.order, tree.marked, pos.index) == Width(tree.order, pos.index) ==>
                      pos.index in tree.marked)
      ensures forall m :: m in tree.marked && BlockOf(tree.order, alignment, m).offset == offset ==> pos.index == m
    {
      hide First, Leaves, IsAnc, Status, Packs, BlockOf, Masks, Shape;
      ShapePositive();
      if offset % alignment != 0 {
        forall m | m in tree.marked ensures BlockOf(tree.order, alignment, m).offset != offset { OffsetAligned(m); }
        return INVALID_POS;
      }
      var n, leaf := tree.order, offset / alignment;
      LeafOfOffset(offset);
      ghost var y := Pow2(n - 1) + leaf;
      pos := TrackingNode(Pos(Pow2(n - 1) + leaf, n));
      forall m | m in tree.marked && BlockOf(n, alignment, m).offset == offset ensures pos.index == m {
        StartAbove(m, y, offset);
      }
      if pos == INVALID_POS {
        return;
      }
      var addr := AddressForPosition(pos);
      if addr != offset {
        return INVALID_POS;
      }
    }

    /** The lowest node above a leaf that is not of status zero. */
    method TrackingNode(leaf: Pos) returns (pos: Pos)
      requires Valid() && Names(tree.order, leaf) && leaf.depth == tree.order
      ensures pos != INVALID_POS ==>
                && Names(tree.order, pos)
                && (Status(tree.order, tree.marked, pos.index) == Width(tree.order, pos.index) ==>
                      pos.index in tree.marked)
      ensures forall m :: m in tree.marked && IsAnc(m, leaf.index) ==> pos.index == m
    {
      hide First, Leaves, IsAnc, Status, Packs, Masks, Shape, Depth, ZeroChildAbove, Legal;
      pos := leaf;
      ghost var n, y := tree.order, leaf.index;
      SelfAnc(y);
      var s := tree.StatusAt(pos);
      while s == 0
        invariant Names(n, pos) && IsAnc(pos.index, y) && s == Status(n, tree.marked, pos.index)
        invariant forall m :: m in tree.marked && IsAnc(m, y) ==> IsAnc(m, pos.index)
        invariant pos.index == y || ZeroChildAbove(pos.index, y)
        decreases pos.index
      {
        Climb(pos.index, y);
        if pos.index == 1 {
          return INVALID_POS;
        }
        pos := Pos(pos.index / 2, pos.depth - 1);
        s := tree.StatusAt(pos);
      }
      FullIsMarked(pos.index, y);
      forall m | m in tree.marked && IsAnc(m, y) ensures pos.index == m {
        OnlyMarked(m, pos.index);
      }
    }

    /** One of the children of `x` lies above `y` and has status zero. */
    ghost predicate ZeroChildAbove(x: nat, y: nat)
      reads tree
      requires x >= 1 && y >= 1
    {
      exists c :: c > 1 && c / 2 == x && InTree(tree.order, c) && IsAnc(c, y) && Status(tree.order, tree.marked, c) == 0
    }

    /** A node of status zero is neither marked nor, by its parent, out of sight of a marked one. */
    lemma Climb(x: nat, y: nat)
      requires tree.Valid() && InTree(tree.order, x) && y >= 1 && IsAnc(x, y) && Status(tree.order, tree.marked, x) == 0
      requires forall m :: m in tree.marked && IsAnc(m, y) ==> IsAnc(m, x)
      ensures x == 1 ==> forall m :: m in tree.marked ==> !IsAnc(m, y)
      ensures x > 1 ==> InTree(tree.order, x / 2) && Depth(x / 2) == Depth(x) - 1
      ensures x > 1 ==> IsAnc(x / 2, y) && ZeroChildAbove(x / 2, y)
      ensures x > 1 ==> forall m :: m in tree.marked && IsAnc(m, y) ==> IsAnc(m, x / 2)
    {
      hide Packs, Status;
      ZeroIsClear(tree.order, tree.marked, x);
      SelfAnc(x);
      if x > 1 {
        assert IsAnc(x / 2, x);
        AncTrans(x / 2, x, y);
        assert ZeroChildAbove(x / 2, y);
      }
    }

    /** A full node with an empty child was allocated as a whole. */
    lemma FullIsMarked(x: nat, y: nat)
      requires tree.Valid() && InTree(tree.order, x) && y >= 1 && Depth(y) == tree.order && IsAnc(x, y)
      requires x == y || ZeroChildAbove(x, y)
      ensures Status(tree.order, tree.marked, x) == Width(tree.order, x) ==> x in tree.marked
    {
      hide Packs, IsAnc, Status;
      if x == y {
        LeafStatus(tree.order, tree.marked, x);
      } else if x !in tree.marked {
        var c :| c > 1 && c / 2 == x && InTree(tree.order, c) && IsAnc(c, y) && Status(tree.order, tree.marked, c) == 0;
        Children(x);
        Tree.StatusOfParent(tree.order, tree.marked, x);
      }
    }

    static lemma LeafStatus(n: nat, marked: set<nat>, x: nat)
      requires InTree(n, x) && Depth(x) == n
      ensures Status(n, marked, x) == Width(n, x) ==> x in marked
    {
    }

    /** The node of a block that starts at the address of leaf `y` lies above that leaf. */
    lemma StartAbove(m: nat, y: nat, offset: nat)
      requires Valid() && m in tree.marked && BlockOf(tree.order, alignment, m).offset == offset
      requires y >= 1 && Depth(y) == tree.order && Row(y) == offset / alignment
      ensures IsAnc(m, y)
    {
      hide First, Leaves, IsAnc, Status, Packs, Masks;
      DivUnique(offset, alignment, First(tree.order, m));
      AboveLeaf(tree.order, m, y);
    }

    lemma OnlyMarked(m: nat, x: nat)
      requires tree.Valid() && m in tree.marked && InTree(tree.order, x) && IsAnc(m, x)
      requires Status(tree.order, tree.marked, x) > 0
      ensures m == x
    {
      hide Packs, Status;
      if m != x { BelowMarked(tree.order, tree.marked, m, x); }
    }

    lemma OffsetAligned(m: nat)
      requires Shape() && InTree(tree.order, m)
      ensures BlockOf(tree.order, alignment, m).offset % alignment == 0
    {
      hide First;
      DivUnique(First(tree.order, m) * alignment, alignment, First(tree.order, m));
    }

    lemma LeafOfOffset(offset: nat)
      requires Shape() && offset < memorySize && offset % alignment == 0
      ensures var y := Pow2(tree.order - 1) + offset / alignment;
              offset / alignment < Pow2(tree.order - 1) && Depth(y) == tree.order && Row(y) == offset / alignment
    {
      hide Pow2, First, Leaves;
      var leaf := offset / alignment;
      MulCancel(Pow2(tree.order - 1), leaf, alignment);
      LeafNode(tree.order, leaf);
    }

    /** The block that starts at an address, if there is one. */
    ghost function BlockAt(offset: int): set<Block>
      requires Valid()
      reads this, tree, tree.bits
    {
      set b | b in Blocks() && b.offset == offset
    }

    /** Releasing what `position_for_address` found removes the block at the address and nothing else. */
    method ReleaseFound(pos: Pos, ghost offset: nat) returns (status: Release)
      requires Valid() && Names(tree.order, pos) && offset < memorySize
      requires BlockOf(tree.order, alignment, pos.index).offset == offset
      requires Status(tree.order, tree.marked, pos.index) == Width(tree.order, pos.index) ==> pos.index in tree.marked
      requires forall m :: m in tree.marked && BlockOf(tree.order, alignment, m).offset == offset ==> pos.index == m
      modifies tree, tree.bits
      ensures Valid() && virt == old(virt)
      ensures status.Success? <==> old(BlockAt(offset)) != {}
      ensures status.Success? ==> old(BlockAt(offset)) == {BlockOf(tree.order, alignment, pos.index)}
      ensures Blocks() == old(Blocks()) - old(BlockAt(offset))
    {
      hide First, Leaves, IsAnc, Status, Packs, BlockOf, Masks, Shape;
      ghost var x, blocks, at, live := pos.index, Blocks(), BlockAt(offset), Live();
      VirtualOutside(x);
      assert x in tree.marked ==> x in live && BlockOf(tree.order, alignment, x) in at;
      assert x !in tree.marked ==> at == {};
      FullIff(tree.order, tree.marked, x);
      assert Covered(tree.order, tree.marked, x) <==> x in tree.marked
          by { if x in tree.marked { MarkedIsFull(tree.order, tree.marked, x); } }
      status := tree.ReleaseNode(pos);
      assert Live() == live - {x};
    }

    /** A masked node starts past the memory. */
    lemma VirtualOutside(x: nat)
      requires Valid() && InTree(tree.order, x) && BlockOf(tree.order, alignment, x).offset < memorySize
      ensures x !in virt
    {
      hide Leaves, IsAnc, Status, Packs, First, Masks, Shape, BlockOf;
      ShapeCut();
      if x in virt {
        var n, cut := tree.order, memorySize / alignment;
        MaskStart(n, virt, cut, x);
        MulMonotone(cut, First(n, x), alignment);
        BlockStart(n, alignment, x);
        assert false;
      }
    }

    static lemma BlockStart(n: nat, a: nat, x: nat)
      requires InTree(n, x)
      ensures BlockOf(n, a, x).offset == First(n, x) * a
    {
      hide First, Leaves;
    }

    static lemma MaskStart(n: nat, virt: set<nat>, cut: nat, v: nat)
      requires InTree(n, v) && Masks(n, virt, cut) && v in virt
      ensures First(n, v) >= cut
    {
      hide First, Leaves;
      InRange(n, v);
      LeafNode(n, First(n, v));
      AboveLeaf(n, v, Pow2(n - 1) + First(n, v));
    }

    /** `buddy_free`: removes the block that starts at the address; any other address changes nothing. */
    method FreeBlock(dst: int)
      requires Valid()
      modifies tree, tree.bits
      ensures Valid() && virt == old(virt)
      ensures Blocks() == old(Blocks()) - old(BlockAt(dst))
    {
      hide First, Leaves, IsAnc, Status, Packs, BlockOf, Masks, Shape;
      NothingOutside(dst);
      if dst < 0 || dst >= memorySize {
        return;
      }
      var pos := PositionForAddress(dst);
      if pos == INVALID_POS {
        assert BlockAt(dst) == {};
        return;
      }
      var status := ReleaseFound(pos, dst);
    }

    lemma NothingOutside(dst: int)
      requires Valid()
      ensures dst < 0 || dst >= memorySize ==> BlockAt(dst) == {}
    {
      hide First, Leaves, IsAnc, Status, Packs, Masks;
      BlocksDisjoint();
    }

    /**
      `buddy_safe_free`: succeeds exactly on the start of a block whose size fits the request,
      and then removes that block.
     */
    method SafeFreeBlock(dst: int, request: nat) returns (r: SafeFree)
      requires Valid()
      modifies tree, tree.bits
      ensures Valid() && virt == old(virt)
      ensures r.FreeSuccess? <==> exists b :: b in old(BlockAt(dst)) && b.size / 2 < Max(request, alignment) <= b.size
      ensures r.FreeSuccess? ==> Blocks() == old(Blocks()) - old(BlockAt(dst))
      ensures !r.FreeSuccess? ==> Blocks() == old(Blocks())
      ensures old(BlockAt(dst)) != {} ==> r != InvalidAddress
      ensures dst < 0 || dst >= memorySize ==> r == InvalidAddress
    {
      hide First, Leaves, IsAnc, Status, Packs, BlockOf, Masks, Shape;
      NothingOutside(dst);
      if dst < 0 || dst >= memorySize {
        return InvalidAddress;
      }
      var pos := PositionForAddress(dst);
      if pos == INVALID_POS {
        assert BlockAt(dst) == {};
        return InvalidAddress;
      }
      var size := SizeForDepth(pos.depth);
      BlockShape(pos.index);
      assert size == BlockOf(tree.order, alignment, pos.index).size;
      var req := Max(request, alignment);
      AtMostHere(pos.index, dst);
      if req > size || req <= size / 2 {
        return SizeMismatch;
      }
      var status := ReleaseFound(pos, dst);
      return if status.Success? then FreeSuccess else InvalidAddress;
    }

    lemma AtMostHere(x: nat, dst: nat)
      requires Valid() && InTree(tree.order, x)
      requires forall m :: m in tree.marked && BlockOf(tree.order, alignment, m).offset == dst ==> x == m
      ensures forall b :: b in BlockAt(dst) ==> b == BlockOf(tree.order, alignment, x)
    {
    }

    /** The size a block was requested with always fits: `buddy_safe_free` accepts it. */
    lemma RequestFits(request: nat, size: nat)
      requires Shape() && ServesRequest(request, size)
      ensures size / 2 < Max(request, alignment) <= size < 2 * Max(request, alignment)
    {
      var k: nat :| size == Pow2(k);
      var v := Max(request, alignment);
      assert v >= 1;
      if k == 0 {
        assert size == 1;
      } else if size >= 2 * v {
        assert v <= Pow2(k - 1);
      }
    }

    /**
      `buddy_arena_free_size`: the traversal meets every maximal free node once, and what it
      adds up, together with the sizes of the blocks in use, is the memory size.
     */
    method ArenaFreeSize() returns (result: nat)
      requires Valid()
      ensures result + TotalSize(Blocks()) == memorySize
    {
      hide Packs, Loc, Status, IsAnc, FreeLeaves, RestFree, Leaves, First, Depth, BlockOf, Masks, Shape, Legal;
      result := 0;
      var pos, more := Pos(1, 1), true;
      var n := tree.order;
      ghost var marked, done := tree.marked, 0;
      RestOfRoot(n, marked);
      LeavesOfRoot(n);
      ghost var total := FreeLeaves(n, marked, 1);
      while more
        invariant result == done * alignment
        invariant more ==> Names(n, pos)
        invariant more ==>
                    done + FreeLeaves(n, marked, pos.index) + RestFree(n, marked, pos.index) == total
        invariant more ==> First(n, pos.index) + Leaves(n, pos.index) <= Pow2(n - 1)
        invariant !more ==> done == total
        decreases more, if more then Pow2(n - 1) - First(n, pos.index) else 0, if more then n - pos.depth else 0
      {
        var goingUp := false;
        var s := tree.StatusAt(pos);
        FreeLeavesDef(n, marked, pos.index);
        NextRest(n, marked, pos.index);
        if s == n - pos.depth + 1 {
          goingUp := true;
        } else if s == 0 {
          goingUp := true;
          var size := SizeForDepth(pos.depth);
          Distribute(done, Leaves(n, pos.index), alignment);
          result := result + size;
          done := done + Leaves(n, pos.index);
        }
        pos, more := tree.Walk(pos, goingUp);
        if more { InRange(n, pos.index); }
      }
      Conservation(total);
    }

    static lemma RestOfRoot(n: nat, marked: set<nat>)
      requires n >= 1
      ensures Depth(1) == 1 && RestFree(n, marked, 1) == 0
    {
    }

    /** Free plus used is everything, virtual slots left aside. */
    lemma Conservation(freeLeaves: nat)
      requires Valid() && freeLeaves == FreeLeaves(tree.order, tree.marked, 1)
      ensures freeLeaves * alignment + TotalSize(Blocks()) == memorySize
    {
      hide Packs, Status, IsAnc, FreeLeaves, Leaves, First, BlockOf, Masks, Shape, TotalSize, BlocksOf;
      ShapePositive();
      ShapeCut();
      LeafConservation(tree.order, tree.marked, virt, memorySize / alignment);
      SizesOfNodes(tree.order, alignment, Live());
      Distribute(freeLeaves, TreeAccounting.SumLeaves(tree.order, Live()), alignment);
    }

    lemma ShapeCut()
      requires Shape()
      ensures alignment >= 1 && memorySize / alignment * alignment == memorySize
      ensures memorySize / alignment <= Pow2(tree.order - 1)
    {
      MulCancel(memorySize / alignment, Pow2(tree.order - 1), alignment);
    }

    lemma LeafConservation(n: nat, marked: set<nat>, virt: set<nat>, cut: nat)
      requires n >= 1 && Legal(n, marked) && virt <= marked && Masks(n, virt, cut)
      ensures Legal(n, marked - virt)
      ensures FreeLeaves(n, marked, 1) + TreeAccounting.SumLeaves(n, marked - virt) == cut || cut > Pow2(n - 1)
    {
      hide Packs, Status, IsAnc, FreeLeaves, Leaves, First, Masks;
      var live := marked - virt;
      assert Legal(n, virt) && Legal(n, live);
      TreeAccounting.FreePlusAllocated(n, marked);
      assert marked == live + virt;
      TreeAccounting.SumUnion(n, live, virt);
      if cut <= Pow2(n - 1) { MaskedTotal(n, virt, cut); }
    }
  }

  /** The sizes of a set of blocks, added up. */
  ghost function TotalSize(s: set<Block>): nat
  {
    if s == {} then 0 else var b :| b in s; b.size + TotalSize(s - {b})
  }

  lemma {:induction false} TotalRemove(s: set<Block>, b: Block)
    requires b in s
    ensures TotalSize(s) == b.size + TotalSize(s - {b})
    decreases |s|
  {
    var c :| c in s && TotalSize(s) == c.size + TotalSize(s - {c});
    if c != b {
      TotalRemove(s - {c}, b);
      TotalRemove(s - {b}, c);
      assert s - {b} - {c} == s - {c} - {b};
    }
  }

  ghost function BlocksOf(n: nat, alignment: nat, live: set<nat>): set<Block>
    requires forall x :: x in live ==> InTree(n, x)
  {
    set x | x in live :: BlockOf(n, alignment, x)
  }

  lemma {:induction false} SizesOfNodes(n: nat, alignment: nat, live: set<nat>)
    requires alignment >= 1 && Legal(n, live)
    ensures TotalSize(BlocksOf(n, alignment, live)) == TreeAccounting.SumLeaves(n, live) * alignment
    decreases |live|
  {
    hide IsAnc, Leaves, First, BlockOf, BlocksOf;
    if live == {} {
      BlocksWithout(n, alignment, live, 0);
    } else {
      var m :| m in live;
      var rest := live - {m};
      BlocksWithout(n, alignment, live, m);
      TreeAccounting.SumRemove(n, live, m);
      SizesOfNodes(n, alignment, rest);
      TotalRemove(BlocksOf(n, alignment, live), BlockOf(n, alignment, m));
      Distribute(Leaves(n, m), TreeAccounting.SumLeaves(n, rest), alignment);
    }
  }

  lemma BlocksWithout(n: nat, alignment: nat, live: set<nat>, m: nat)
    requires alignment >= 1 && Legal(n, live)
    ensures live == {} ==> BlocksOf(n, alignment, live) == {}
    ensures m in live ==> var b := BlockOf(n, alignment, m);
              b in BlocksOf(n, alignment, live) && b.size == Leaves(n, m) * alignment
              && BlocksOf(n, alignment, live) - {b} == BlocksOf(n, alignment, live - {m})
  {
    hide IsAnc, Leaves, First;
    if m in live {
      var b := BlockOf(n, alignment, m);
      forall x | x in live - {m} ensures BlockOf(n, alignment, x) != b { DistinctBlocks(n, alignment, x, m); }
    }
  }

  lemma DistinctBlocks(n: nat, alignment: nat, x: nat, y: nat)
    requires alignment >= 1 && InTree(n, x) && InTree(n, y) && !IsAnc(x, y) && !IsAnc(y, x)
    ensures BlockOf(n, alignment, x) != BlockOf(n, alignment, y)
  {
    hide First, Leaves;
    ApartIff(n, alignment, x, y);
    MulMonotone(1, Leaves(n, x), alignment);
  }

  /** The masked nodes stand for as many leaves as lie past the cut. */
  lemma {:induction false} MaskedBelow(n: nat, virt: set<nat>, cut: nat, x: nat)
    requires InTree(n, x) && Masks(n, virt, cut) && Legal(n, virt)
    requires forall v :: v in virt && IsAnc(v, x) ==> v == x
    ensures var end := First(n, x) + Leaves(n, x);
            TreeAccounting.MarkedLeaves(n, virt, x) == if end <= cut then 0
                else if First(n, x) >= cut then Leaves(n, x) else end - cut
    decreases n - Depth(x)
  {
    hide First, Leaves, Masks;
    if x in virt {
      Buddy.MaskStart(n, virt, cut, x);
    } else if Depth(x) == n {
      UnmaskedLeaf(n, virt, cut, x);
    } else {
      LeavesSplit(n, x);
      forall v | v in virt ensures IsAnc(v, 2 * x) ==> v == 2 * x { assert 2 * x / 2 == x; }
      forall v | v in virt ensures IsAnc(v, 2 * x + 1) ==> v == 2 * x + 1 { assert (2 * x + 1) / 2 == x; }
      MaskedBelow(n, virt, cut, 2 * x);
      MaskedBelow(n, virt, cut, 2 * x + 1);
    }
  }

  lemma UnmaskedLeaf(n: nat, virt: set<nat>, cut: nat, x: nat)
    requires InTree(n, x) && Depth(x) == n && Masks(n, virt, cut) && x !in virt
    requires forall v :: v in virt && IsAnc(v, x) ==> v == x
    ensures First(n, x) + Leaves(n, x) <= cut
  {
    LeafFirst(n, x);
  }

  lemma MaskedTotal(n: nat, virt: set<nat>, cut: nat)
    requires n >= 1 && Masks(n, virt, cut) && Legal(n, virt) && cut <= Pow2(n - 1)
    ensures TreeAccounting.SumLeaves(n, virt) == Pow2(n - 1) - cut
  {
    hide First, Leaves, Masks;
    TreeAccounting.MarkedIsSum(n, virt);
    LeavesOfRoot(n);
    MaskedBelow(n, virt, cut, 1);
  }
}
